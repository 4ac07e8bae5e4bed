/** What the protocol guarantees over every interleaving, crashes included. */
module Guarantees {
  import opened Model
  import opened Protocol
  import Escalation
  import Relay
  import Ingest

  // ----- exactly-once escalation -----

  /** After any run an incident's idempotency rows are exactly its tiers 1..current_tier, its fire
      events are exactly TIER1_FIRED, TIER2_FIRED, CRITICAL up to that tier, once each and in order,
      and an active status matches the tier. */
  lemma ExactlyOnce(env: Env, s: Sys, steps: seq<Step>, i: Id)
    requires Init(s) && Feasible(env, s, steps) && i in Run(env, s, steps).db.incidents
    ensures var db := Run(env, s, steps).db;
            var inc := db.incidents[i];
            && inc.currentTier <= 3
            && (forall t: nat :: (i, t) in db.idempotency <==> 1 <= t <= inc.currentTier)
            && |Escalation.FiresOf(db.events, i)| == inc.currentTier
            && (forall k :: 0 <= k < inc.currentTier ==>
                  Escalation.FiresOf(db.events, i)[k].kind == [Tier1Fired, Tier2Fired, CriticalFired][k])
            && Escalation.TierMatches(inc.status, inc.currentTier)
  {
    EscalationHolds(env, s, steps);
    var db := Run(env, s, steps).db;
    assert Escalation.FiredOnce(db, i) && Escalation.RowOk(db.incidents[i]);
  }

  /** A fire through any ticket, fresh or stale, advances the incident by exactly one tier and writes
      exactly one fire event, or finds it closed or unarmed and writes nothing. The idempotency insert
      and the unique outbox key never refuse it. */
  lemma FireIsExact(env: Env, s: Sys, w: Id, i: Id, outboxId: Id)
    requires Escalation.EscalationOk(s.db) && Escalation.PagesOk(s.db) && Enabled(s, Fire(w, i, outboxId))
    ensures var before := s.db;
            var after := Apply(env, s, Fire(w, i, outboxId)).db;
            if Escalation.PassesRecheck(before.incidents[i]) then
              && after.incidents[i].currentTier == before.incidents[i].currentTier + 1
              && after.idempotency == before.idempotency + {(i, before.incidents[i].currentTier + 1)}
              && (i, before.incidents[i].currentTier + 1) !in before.idempotency
              && |after.events| == |before.events| + 1
              && after.events[..|before.events|] == before.events
              && Escalation.IsFire(after.events[|before.events|].kind)
              && after.events[|before.events|].incident == i
              && after.events[|before.events|].tier == before.incidents[i].currentTier + 1
              && after.events[|before.events|].toState == after.incidents[i].status
              && after.incidents[i].claimedBy.None?
              && (forall j :: j in before.incidents && j != i ==> after.incidents[j] == before.incidents[j])
            else
              after == before
  {
    Escalation.FireAdvances(env, s.db, i, outboxId, s.now);
    if Escalation.PassesRecheck(s.db.incidents[i]) {
      Escalation.FireEffect(env, s.db, i, outboxId, s.now);
    }
  }

  // ----- closed stays closed -----

  /** From any reachable state on, an incident that is not open never becomes open again and never
      regains a timer, whatever reads and writes of closing requests interleave. */
  lemma {:induction false} ClosedStaysClosed(env: Env, s: Sys, steps: seq<Step>, i: Id)
    requires Inv(s) && Feasible(env, s, steps)
    requires i in s.db.incidents && !Active(s.db.incidents[i].status)
    ensures var inc := Run(env, s, steps).db.incidents;
            i in inc && !Active(inc[i].status) && inc[i].nextFireAt.None? && inc[i].deadlineAt.None?
            && inc[i].currentTier == s.db.incidents[i].currentTier
    decreases |steps|
  {
    if steps == [] {
      assert Escalation.RowOk(s.db.incidents[i]);
    } else {
      var front := steps[..|steps| - 1];
      ClosedStaysClosed(env, s, front, i);
      RunKeepsInv(env, s, front);
      StepOnClosed(env, Run(env, s, front), steps[|steps| - 1], i);
    }
  }

  /** Row i after the step, when it was closed before. */
  ghost predicate StillClosed(d: Db, d': Db, i: Id) {
    && i in d.incidents && i in d'.incidents
    && !Active(d'.incidents[i].status)
    && d'.incidents[i].nextFireAt.None? && d'.incidents[i].deadlineAt.None?
    && d'.incidents[i].currentTier == d.incidents[i].currentTier
  }

  lemma StepOnClosed(env: Env, s: Sys, st: Step, i: Id)
    requires Escalation.EscalationOk(s.db) && Escalation.PagesOk(s.db) && LooksOk(s.db, s.looks)
    requires Enabled(s, st) && i in s.db.incidents && !Active(s.db.incidents[i].status)
    ensures StillClosed(s.db, Apply(env, s, st).db, i)
  {
    assert Escalation.RowOk(s.db.incidents[i]);
    if st.Fire? {
      FireIsExact(env, s, st.w, st.i, st.outboxId);
    } else if st.Close? {
      CloseOnClosed(s.db, s.looks[st.r], s.now, i);
    } else {
      QuietOnClosed(env, s, st, i);
    }
  }

  lemma CloseOnClosed(db: Db, seen: Escalation.Seen, now: Time, i: Id)
    requires seen.incident in db.incidents && i in db.incidents && !Active(db.incidents[i].status)
    requires Escalation.RowOk(db.incidents[i])
    ensures StillClosed(db, Escalation.CloseWrite(db, seen, now), i)
  {
  }

  lemma QuietOnClosed(env: Env, s: Sys, st: Step, i: Id)
    requires Enabled(s, st) && !st.Fire? && !st.Close?
    requires i in s.db.incidents && !Active(s.db.incidents[i].status) && Escalation.RowOk(s.db.incidents[i])
    ensures StillClosed(s.db, Apply(env, s, st).db, i)
  {
  }

  /** In every reachable state the deadline shown is the timer, and only open incidents have one. */
  lemma TimersOnlyWhileOpen(env: Env, s: Sys, steps: seq<Step>, i: Id)
    requires Init(s) && Feasible(env, s, steps) && i in Run(env, s, steps).db.incidents
    ensures var inc := Run(env, s, steps).db.incidents[i];
            inc.deadlineAt == inc.nextFireAt && (inc.nextFireAt.Some? ==> Active(inc.status))
  {
    EscalationHolds(env, s, steps);
    assert Escalation.RowOk(Run(env, s, steps).db.incidents[i]);
  }

  // ----- the audit log as a path -----

  /** The log of i is a path of states that ends in the row's status, and tier 3 is CRITICAL. */
  ghost predicate AuditOk(db: Db, i: Id) {
    && Escalation.Connected(db.events, i)
    && Escalation.Tip(db.events, i) == (if i in db.incidents then Some(db.incidents[i].status) else None)
    && (i in db.incidents && db.incidents[i].currentTier >= 3 ==> db.incidents[i].status.CriticalUnresolved?)
  }

  /** The condition a compare-and-set in the UPDATE would test: the status is still the one read. */
  ghost predicate Unraced(s: Sys, st: Step) {
    st.Close? && st.r in s.looks && s.looks[st.r].incident in s.db.incidents ==>
      s.db.incidents[s.looks[st.r].incident].status == s.looks[st.r].status
  }

  ghost predicate UnracedRun(env: Env, s: Sys, steps: seq<Step>)
    requires Feasible(env, s, steps)
    decreases |steps|
  {
    steps != [] ==>
      var front := steps[..|steps| - 1];
      UnracedRun(env, s, front) && Unraced(Run(env, s, front), steps[|steps| - 1])
  }

  /** A close leaves a connected log connected, ending at the new status, if and only if the row still
      had the status that was read. */
  lemma ClosePathIff(db: Db, seen: Escalation.Seen, now: Time)
    requires seen.incident in db.incidents && Escalation.CloseEvents(seen, now) != []
    requires Escalation.Connected(db.events, seen.incident)
    requires Escalation.Tip(db.events, seen.incident) == Some(db.incidents[seen.incident].status)
    ensures var d := Escalation.CloseWrite(db, seen, now);
            (Escalation.Connected(d.events, seen.incident)
             && Escalation.Tip(d.events, seen.incident) == Some(d.incidents[seen.incident].status))
            <==> db.incidents[seen.incident].status == seen.status
  {
    Escalation.CloseGrows(db.events, seen, now, seen.incident);
  }

  lemma UnracedCloseKeepsAudit(db: Db, seen: Escalation.Seen, now: Time, i: Id)
    requires Escalation.EscalationOk(db) && AuditOk(db, i) && AuditOk(db, seen.incident)
    requires seen.incident in db.incidents && db.incidents[seen.incident].status == seen.status
    ensures AuditOk(Escalation.CloseWrite(db, seen, now), i)
  {
    Escalation.CloseGrows(db.events, seen, now, i);
    assert Escalation.RowOk(db.incidents[seen.incident]);
    if Escalation.CloseEvents(seen, now) == [] {
      assert db.events + Escalation.CloseEvents(seen, now) == db.events;
    }
  }

  lemma FireKeepsAudit(env: Env, s: Sys, st: Step, i: Id)
    requires Escalation.EscalationOk(s.db) && Escalation.PagesOk(s.db)
    requires Enabled(s, st) && st.Fire? && AuditOk(s.db, i) && AuditOk(s.db, st.i)
    ensures AuditOk(Apply(env, s, st).db, i)
  {
    FireStepKeeps(env, s, st);
    Escalation.FireAdvances(env, s.db, st.i, st.outboxId, s.now);
    if Escalation.PassesRecheck(s.db.incidents[st.i]) {
      Escalation.FireEffect(env, s.db, st.i, st.outboxId, s.now);
      var inc := s.db.incidents[st.i];
      var tr := Escalation.TransitionFor(inc.status, inc.currentTier).value;
      Escalation.LogGrows(s.db.events, Escalation.FireEvent(st.i, inc, tr, s.now), i);
    }
  }

  lemma InsertKeepsAudit(env: Env, s: Sys, st: Step, i: Id)
    requires Enabled(s, st) && st.IngestInsert? && AuditOk(s.db, i)
    ensures AuditOk(Apply(env, s, st).db, i)
  {
    var rec, at := Ingest.RecordOf(s.intake, st.c), s.intake.consumers[st.c].phase.at;
    Escalation.LogGrows(s.db.events, Ingest.CreationEvent(rec, st.i, at), i);
  }

  lemma StepKeepsAudit(env: Env, s: Sys, st: Step, i: Id)
    requires Escalation.EscalationOk(s.db) && Escalation.PagesOk(s.db)
    requires Enabled(s, st) && Unraced(s, st) && (forall j: Id :: AuditOk(s.db, j))
    ensures AuditOk(Apply(env, s, st).db, i)
  {
    assert AuditOk(s.db, i);
    if st.Fire? {
      assert AuditOk(s.db, st.i);
      FireKeepsAudit(env, s, st, i);
    } else if st.Close? {
      assert AuditOk(s.db, s.looks[st.r].incident);
      UnracedCloseKeepsAudit(s.db, s.looks[st.r], s.now, i);
    } else if st.IngestInsert? {
      InsertKeepsAudit(env, s, st, i);
    }
  }

  /** When no close is raced, the audit log of every incident is a connected path that ends at its
      current status, after every run. */
  lemma {:induction false} AuditIsPath(env: Env, s: Sys, steps: seq<Step>, i: Id)
    requires Init(s) && Feasible(env, s, steps) && UnracedRun(env, s, steps)
    ensures AuditOk(Run(env, s, steps).db, i)
    decreases |steps|
  {
    if steps != [] {
      var front := steps[..|steps| - 1];
      forall j: Id ensures AuditOk(Run(env, s, front).db, j) {
        AuditIsPath(env, s, front, j);
      }
      InitInv(s);
      RunKeepsInv(env, s, front);
      StepKeepsAudit(env, Run(env, s, front), steps[|steps| - 1], i);
    }
  }

  predicate Terminal(s: Status) {
    s.Resolved? || s.CriticalUnresolved?
  }

  /** A close of i that was decided on an earlier status and overwrites what is there now: an
      acknowledgement of anything, or a resolve of a CRITICAL_UNRESOLVED incident. */
  ghost predicate Overwrites(s: Sys, st: Step, i: Id) {
    && st.Close? && st.r in s.looks && s.looks[st.r].incident == i && i in s.db.incidents
    && match Escalation.Decide(s.looks[st.r].action, s.looks[st.r].status)
       case NoClose => false
       case ToAcknowledged => true
       case ToResolved => s.db.incidents[i].status.CriticalUnresolved?
  }

  /** A step takes an incident out of RESOLVED or CRITICAL_UNRESOLVED if and only if it is such a close. */
  lemma TerminalChangesIff(env: Env, s: Sys, st: Step, i: Id)
    requires Escalation.EscalationOk(s.db) && Escalation.PagesOk(s.db) && Enabled(s, st)
    requires i in s.db.incidents && Terminal(s.db.incidents[i].status)
    ensures i in Apply(env, s, st).db.incidents
    ensures Apply(env, s, st).db.incidents[i].status != s.db.incidents[i].status <==> Overwrites(s, st, i)
  {
    if st.Fire? {
      FireIsExact(env, s, st.w, st.i, st.outboxId);
    } else if st.Close? {
      CloseOnTerminal(s.db, s.looks[st.r], s.now, i);
    } else {
      QuietKeepsStatus(env, s, st, i);
    }
  }

  lemma CloseOnTerminal(db: Db, seen: Escalation.Seen, now: Time, i: Id)
    requires seen.incident in db.incidents && i in db.incidents && Terminal(db.incidents[i].status)
    ensures var d := Escalation.CloseWrite(db, seen, now);
            && i in d.incidents
            && (d.incidents[i].status != db.incidents[i].status
                <==> seen.incident == i
                     && match Escalation.Decide(seen.action, seen.status)
                        case NoClose => false
                        case ToAcknowledged => true
                        case ToResolved => db.incidents[i].status.CriticalUnresolved?)
  {
  }

  lemma QuietKeepsStatus(env: Env, s: Sys, st: Step, i: Id)
    requires Enabled(s, st) && !st.Fire? && !st.Close? && i in s.db.incidents
    ensures i in Apply(env, s, st).db.incidents
    ensures Apply(env, s, st).db.incidents[i].status == s.db.incidents[i].status
  {
    if !st.IngestInsert? {
      OnlyClaimsMove(env, s, st);
    }
  }

  ghost predicate NothingOverwrites(env: Env, s: Sys, steps: seq<Step>, i: Id)
    requires Feasible(env, s, steps)
    decreases |steps|
  {
    steps != [] ==>
      var front := steps[..|steps| - 1];
      NothingOverwrites(env, s, front, i) && !Overwrites(Run(env, s, front), steps[|steps| - 1], i)
  }

  /** The incident has the given status in every state the run passes through. */
  ghost predicate KeepsStatus(env: Env, s: Sys, steps: seq<Step>, i: Id, status: Status)
    requires Feasible(env, s, steps)
    decreases |steps|
  {
    && i in Run(env, s, steps).db.incidents && Run(env, s, steps).db.incidents[i].status == status
    && (steps != [] ==> KeepsStatus(env, s, steps[..|steps| - 1], i, status))
  }

  /** From any reachable state, a RESOLVED or CRITICAL_UNRESOLVED incident keeps its status throughout a run
      if and only if no close in the run overwrites it. */
  lemma {:induction false} TerminalIsFinal(env: Env, s: Sys, steps: seq<Step>, i: Id)
    requires Inv(s) && Feasible(env, s, steps)
    requires i in s.db.incidents && Terminal(s.db.incidents[i].status)
    ensures KeepsStatus(env, s, steps, i, s.db.incidents[i].status) <==> NothingOverwrites(env, s, steps, i)
    decreases |steps|
  {
    if steps != [] {
      var front := steps[..|steps| - 1];
      TerminalIsFinal(env, s, front, i);
      if KeepsStatus(env, s, front, i, s.db.incidents[i].status) {
        RunKeepsInv(env, s, front);
        EscalationPart(Run(env, s, front));
        TerminalChangesIff(env, Run(env, s, front), steps[|steps| - 1], i);
      }
    }
  }

  /** A close that tests the status it read never overwrites a terminal one; when no close is raced,
      RESOLVED and CRITICAL_UNRESOLVED are final. */
  lemma {:induction false} UnracedIsFinal(env: Env, s: Sys, steps: seq<Step>, i: Id)
    requires Inv(s) && Feasible(env, s, steps) && UnracedRun(env, s, steps)
    requires i in s.db.incidents && Terminal(s.db.incidents[i].status)
    ensures NothingOverwrites(env, s, steps, i) && KeepsStatus(env, s, steps, i, s.db.incidents[i].status)
    decreases |steps|
  {
    if steps != [] {
      UnracedIsFinal(env, s, steps[..|steps| - 1], i);
    }
    TerminalIsFinal(env, s, steps, i);
  }

  /** Raced closes break it: from any state with an open incident, two requests that both read before
      either writes take the incident through RESOLVED back to ACK. */
  lemma RaceLeavesResolved(env: Env, s: Sys, i: Id, r: Id, q: Id)
    requires i in s.db.incidents && Active(s.db.incidents[i].status)
    requires r !in s.looks && q !in s.looks && r != q
    ensures Enabled(s, Look(r, i, Escalation.HttpAck))
    ensures var s1 := Apply(env, s, Look(r, i, Escalation.HttpAck));
            Enabled(s1, Look(q, i, Escalation.HttpResolve))
            && var s2 := Apply(env, s1, Look(q, i, Escalation.HttpResolve));
            Enabled(s2, Close(q))
            && var s3 := Apply(env, s2, Close(q));
            s3.db.incidents[i].status == Resolved && Enabled(s3, Close(r))
            && Apply(env, s3, Close(r)).db.incidents[i].status == Acknowledged
  {
  }

  /** And a resolve that read before the last fire and writes after it leaves a RESOLVED row at tier 3. */
  lemma RaceLeavesResolvedAtTierThree(env: Env, s: Sys, w: Id, i: Id, r: Id, outboxId: Id)
    requires Escalation.EscalationOk(s.db) && Escalation.PagesOk(s.db)
    requires (w, i) in s.tickets && i in s.db.incidents && outboxId !in s.db.outbox && r !in s.looks
    requires s.db.incidents[i].status.Tier2? && s.db.incidents[i].nextFireAt.Some?
    ensures Enabled(s, Look(r, i, Escalation.HttpResolve))
    ensures var s1 := Apply(env, s, Look(r, i, Escalation.HttpResolve));
            Enabled(s1, Fire(w, i, outboxId))
            && var s2 := Apply(env, s1, Fire(w, i, outboxId));
            Enabled(s2, Close(r))
            && var row := Apply(env, s2, Close(r)).db.incidents[i];
            row.status == Resolved && row.currentTier == 3
  {
    var s1 := Apply(env, s, Look(r, i, Escalation.HttpResolve));
    assert s1.db == s.db && Escalation.RowOk(s.db.incidents[i]);
    FireIsExact(env, s1, w, i, outboxId);
  }

  // ----- pages -----

  /** Outbox rows of i that some provider took: what a receiver that drops repeated keys delivers. */
  ghost function Delivered(s: Sys, i: Id): set<Id> {
    set o | o in s.accepted && o in s.db.outbox && s.db.outbox[o].incident == i
  }

  /** After any run the pages of an incident have distinct tiers within 0..min(2, current_tier), the
      key of a tier still to fire is free, and at most one page per tier, three in all, is delivered. */
  lemma PagesBounded(env: Env, s: Sys, steps: seq<Step>, i: Id)
    requires Init(s) && Feasible(env, s, steps) && i in Run(env, s, steps).db.incidents
    ensures var f := Run(env, s, steps);
            var tier := f.db.incidents[i].currentTier;
            && (forall o :: o in f.db.outbox && f.db.outbox[o].incident == i ==>
                  f.db.outbox[o].tier <= (if tier < 2 then tier else 2))
            && (forall o, p ::
                  (o in f.db.outbox && p in f.db.outbox && o != p
                   && f.db.outbox[o].incident == i && f.db.outbox[p].incident == i) ==>
                  f.db.outbox[o].tier != f.db.outbox[p].tier)
            && (forall t: nat :: t > tier ==> !KeyTaken(f.db.outbox, i, t))
            && |Delivered(f, i)| <= 3
  {
    EscalationHolds(env, s, steps);
    PagesBoundedAt(Run(env, s, steps), i);
  }

  lemma PagesBoundedAt(f: Sys, i: Id)
    requires Escalation.PagesOk(f.db) && i in f.db.incidents
    ensures |Delivered(f, i)| <= 3
    ensures forall o :: o in f.db.outbox && f.db.outbox[o].incident == i ==>
      f.db.outbox[o].tier <= 2 && f.db.outbox[o].tier <= f.db.incidents[i].currentTier
    ensures forall t: nat :: t > f.db.incidents[i].currentTier ==> !KeyTaken(f.db.outbox, i, t)
  {
    var all := Delivered(f, i);
    var zero := set o | o in all && f.db.outbox[o].tier == 0;
    var one := set o | o in all && f.db.outbox[o].tier == 1;
    var two := set o | o in all && f.db.outbox[o].tier == 2;
    assert all == zero + one + two;
    AtMostOne(zero);
    AtMostOne(one);
    AtMostOne(two);
  }

  lemma AtMostOne(ids: set<Id>)
    requires forall x, y :: x in ids && y in ids ==> x == y
    ensures |ids| <= 1
  {
    if ids != {} {
      var x :| x in ids;
      assert ids == {x};
    }
  }

  // ----- settling -----

  /** After any run an outbox row has exactly one out-message if it is SENT and none otherwise, and
      SENT means a provider took it. */
  lemma SettledExactlyOnce(env: Env, s: Sys, steps: seq<Step>, o: Id)
    requires Init(s) && Feasible(env, s, steps) && o in Run(env, s, steps).db.outbox
    ensures var f := Run(env, s, steps);
            && Relay.MessagesFor(f.db.messages, o) == (if f.db.outbox[o].status.Sent? then 1 else 0)
            && (f.db.outbox[o].status.Sent? ==> o in f.accepted)
            && (f.db.outbox[o].status.Pending? ==> f.db.outbox[o].attempts < f.db.outbox[o].maxAttempts)
            && (f.db.outbox[o].status.Dead? ==> f.db.outbox[o].attempts >= f.db.outbox[o].maxAttempts)
  {
    RelayHolds(env, s, steps);
    assert Relay.SettledOnce(Run(env, s, steps).db, o);
  }

  lemma StepKeepsOutboxRow(env: Env, s: Sys, st: Step, o: Id)
    requires Enabled(s, st) && o in s.db.outbox
    requires !(st.ClaimOutbox? && o in st.ids) && !(st.SettleParcel? && st.o == o)
    ensures o in Apply(env, s, st).db.outbox && Apply(env, s, st).db.outbox[o] == s.db.outbox[o]
  {
  }

  /** SENT and DEAD are absorbing: no claim, reclaim or late settle changes such a row again. */
  lemma {:induction false} SettledIsFinal(env: Env, s: Sys, steps: seq<Step>, o: Id)
    requires Inv(s) && Feasible(env, s, steps) && o in s.db.outbox
    requires s.db.outbox[o].status.Sent? || s.db.outbox[o].status.Dead?
    ensures o in Run(env, s, steps).db.outbox && Run(env, s, steps).db.outbox[o] == s.db.outbox[o]
    decreases |steps|
  {
    if steps != [] {
      var front := steps[..|steps| - 1];
      var st := steps[|steps| - 1];
      SettledIsFinal(env, s, front, o);
      RunKeepsInv(env, s, front);
      var m := Run(env, s, front);
      if !(st.ClaimOutbox? && o in st.ids) && !(st.SettleParcel? && st.o == o) {
        StepKeepsOutboxRow(env, m, st, o);
      }
    }
  }

  /** A send whose only provider answers r. */
  ghost function AfterSend(env: Env, s: Sys, w: Id, o: Id, r: Relay.ProviderResult): (t: Sys)
    requires (w, o) in s.parcels && s.parcels[(w, o)].outcome.None?
    ensures Enabled(s, Send(w, o, [r], r, false)) && t == Apply(env, s, Send(w, o, [r], r, false))
    ensures t.db == s.db && t.accepted == if r.status.SentOk? then s.accepted + {o} else s.accepted
    ensures t.parcels == s.parcels[(w, o) := s.parcels[(w, o)].(outcome := Some((r, s.now)))]
  {
    assert Relay.ChainAnswer([r], r) by { assert [r][0] == r; }
    Apply(env, s, Send(w, o, [r], r, false))
  }

  /** Only the status is tested before settling, not the claim: a relay whose lease ran out settles a
      row another relay now holds, and the new holder's accepted send is then dropped. */
  lemma StaleSettle(env: Env, s: Sys, a: Id, b: Id, o: Id, bad: Relay.ProviderResult, good: Relay.ProviderResult)
    requires o in s.db.outbox && s.db.outbox[o].status.Sending? && s.db.outbox[o].claimedBy == Some(b) && a != b
    requires (a, o) in s.parcels && (b, o) in s.parcels
    requires s.parcels[(a, o)].outcome.None? && s.parcels[(b, o)].outcome.None?
    requires !bad.status.SentOk? && good.status.SentOk?
    requires s.db.outbox[o].attempts < s.db.outbox[o].maxAttempts
    ensures var s1 := AfterSend(env, s, b, o, good);
            var s2 := AfterSend(env, s1, a, o, bad);
            Enabled(s2, SettleParcel(a, o))
            && var s3 := Apply(env, s2, SettleParcel(a, o));
            Enabled(s3, SettleParcel(b, o))
            && var s4 := Apply(env, s3, SettleParcel(b, o));
            o in s4.accepted && s4.db.outbox[o].status.Pending? && s4.db.messages == s.db.messages
  {
    assert (a, o) != (b, o);
  }

  /** What a claim of the one row o leaves behind. */
  ghost function AfterRelayClaim(s: Sys, w: Id, o: Id, lease: nat): Sys
    requires o in s.db.outbox
  {
    var row := s.db.outbox[o];
    var taken := row.(status := Sending, claimedBy := Some(w), claimedUntil := Some(s.now + lease),
                      attempts := row.attempts + 1);
    s.(db := s.db.(outbox := s.db.outbox[o := taken]),
       parcels := s.parcels[(w, o) := Relay.Parcel(taken.attempts, s.now + lease, None)])
  }

  /** It is what the claiming step does. */
  lemma RelayClaimEffect(env: Env, s: Sys, w: Id, o: Id, lease: nat)
    requires o in s.db.outbox && Relay.Claimable(s.db.outbox[o], s.now)
    ensures Enabled(s, ClaimOutbox(w, {o}, lease))
    ensures Apply(env, s, ClaimOutbox(w, {o}, lease)) == AfterRelayClaim(s, w, o, lease)
  {
    OneRowClaimed(s.db.outbox, w, o, s.now + lease);
    var news := Relay.NewParcels(s.db.outbox, w, {o}, s.now + lease);
    assert s.parcels + news == s.parcels[(w, o) := Relay.Parcel(s.db.outbox[o].attempts + 1, s.now + lease, None)];
  }

  lemma OneRowClaimed(outbox: map<Id, OutboxRow>, w: Id, o: Id, until: Time)
    requires o in outbox
    ensures Relay.ClaimOutbox(outbox, w, {o}, until)
            == outbox[o := outbox[o].(status := Sending, claimedBy := Some(w), claimedUntil := Some(until),
                                      attempts := outbox[o].attempts + 1)]
    ensures Relay.NewParcels(outbox, w, {o}, until) == map[(w, o) := Relay.Parcel(outbox[o].attempts + 1, until, None)]
  {
    assert Relay.NewParcels(outbox, w, {o}, until).Keys == {(w, o)};
  }

  /** Two relays come to hold the same row when the first lets its lease run out. */
  lemma StaleClaim(s: Sys, a: Id, b: Id, o: Id, lease: nat)
    requires o in s.db.outbox && a != b && Relay.Claimable(s.db.outbox[o], s.now)
    ensures var s1 := AfterRelayClaim(s, a, o, lease);
            var s2 := s1.(now := s1.now + lease + 1);
            var s3 := AfterRelayClaim(s2, b, o, lease);
            && Relay.Claimable(s2.db.outbox[o], s2.now)
            && (a, o) in s3.parcels && (b, o) in s3.parcels
            && s3.parcels[(a, o)].outcome.None? && s3.parcels[(b, o)].outcome.None?
            && s3.db.outbox[o].status.Sending? && s3.db.outbox[o].claimedBy == Some(b)
            && s3.db.outbox[o].attempts == s.db.outbox[o].attempts + 2
  {
    assert (a, o) != (b, o);
  }

  // ----- ingest -----

  /** After any run, with crashes, redeliveries and concurrent consumers: every incident has exactly
      one creation event with its own source id, and open incidents have distinct dedup keys. */
  lemma OneIncidentPerEvent(env: Env, s: Sys, steps: seq<Step>)
    requires Init(s) && Feasible(env, s, steps)
    ensures var db := Run(env, s, steps).db;
            && (forall i :: i in db.incidents ==> Ingest.HasSource(db.events, i))
            && Ingest.SourcesUnique(db.events)
            && (forall k :: 0 <= k < |db.events| && db.events[k].sourceEvent.Some? ==>
                  db.events[k].incident in db.incidents)
            && Ingest.OpenKeysOk(db.incidents)
  {
    IntakeHolds(env, s, steps);
  }

  /** After any run, every record below a committed offset was turned into an incident, was suppressed
      by one, or is itself, from its own position, in the dead-letter topic. */
  lemma NothingLost(env: Env, s: Sys, steps: seq<Step>, p: Id, o: nat)
    requires Init(s) && Feasible(env, s, steps)
    requires o < Ingest.CommittedOf(Run(env, s, steps).intake, p)
    ensures var f := Run(env, s, steps);
            && o < |Ingest.LogOf(f.intake, p)|
            && var rec := Ingest.LogOf(f.intake, p)[o];
            if rec.Malformed? then Ingest.DeadLetter(p, o, rec.raw) in f.intake.dlq
            else || Ingest.EventSeen(f.db.events, rec.eventId)
                 || (exists i :: i in f.db.incidents && f.db.incidents[i].dedupKey == rec.dedupKey)
  {
    IntakeHolds(env, s, steps);
    var f := Run(env, s, steps);
    assert (p, o) in f.intake.fates;
    assert Ingest.FateOk(f.db, f.intake.dlq, (p, o), Ingest.LogOf(f.intake, p)[o], f.intake.fates[(p, o)]);
  }
}
