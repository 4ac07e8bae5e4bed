/** When timers are honoured: no tier fires before it is due, as long as workers act within their leases. */
module Timers {
  import opened Model
  import opened Protocol
  import Escalation
  import Guarantees
  import Ingest

  /** What a ticket still says about its row, however old it is: the row has not gone back, and while
      it is at the ticket's tier an armed timer is the one that was due when it was claimed. */
  ghost predicate TicketTrue(s: Sys, k: (Id, Id)) {
    k in s.tickets && k.1 in s.db.incidents &&
    var tk, row := s.tickets[k], s.db.incidents[k.1];
    && tk.due <= s.now
    && tk.tier <= row.currentTier
    && (tk.tier == row.currentTier && row.nextFireAt.Some? ==> row.nextFireAt == Some(tk.due))
  }

  ghost predicate TicketsTrue(s: Sys) {
    forall k :: k in s.tickets ==> TicketTrue(s, k)
  }

  predicate Live(s: Sys, k: (Id, Id)) {
    k in s.tickets && s.now <= s.tickets[k].until
  }

  /** A worker whose lease is live holds the claim on a row that nobody has advanced since. */
  ghost predicate Holds(s: Sys, k: (Id, Id)) {
    k in s.tickets && k.1 in s.db.incidents &&
    var tk, row := s.tickets[k], s.db.incidents[k.1];
    row.claimedBy == Some(k.0) && row.claimedUntil == Some(tk.until) && row.currentTier == tk.tier
  }

  ghost predicate LeasesOk(s: Sys) {
    forall k :: Live(s, k) ==> Holds(s, k)
  }

  /** The worker fires a row, or releases it after an error, before its own lease on it runs out. */
  ghost predicate InLease(s: Sys, st: Step) {
    (st.Fire? || st.ReleaseAfterError?) ==> Live(s, (st.w, st.i))
  }

  ghost predicate InLeaseRun(env: Env, s: Sys, steps: seq<Step>)
    requires Feasible(env, s, steps)
    decreases |steps|
  {
    steps != [] ==>
      var front := steps[..|steps| - 1];
      InLeaseRun(env, s, front) && InLease(Run(env, s, front), steps[|steps| - 1])
  }

  // ----- tickets -----

  lemma FireKeepsTickets(env: Env, s: Sys, st: Step)
    requires Escalation.EscalationOk(s.db) && Escalation.PagesOk(s.db)
    requires Enabled(s, st) && st.Fire? && TicketsTrue(s)
    ensures TicketsTrue(Apply(env, s, st))
  {
    Guarantees.FireIsExact(env, s, st.w, st.i, st.outboxId);
    var s' := Apply(env, s, st);
    forall k | k in s'.tickets ensures TicketTrue(s', k) {
      assert TicketTrue(s, k);
    }
  }

  lemma OtherKeepsTickets(env: Env, s: Sys, st: Step)
    requires Enabled(s, st) && !st.Fire? && TicketsTrue(s)
    ensures TicketsTrue(Apply(env, s, st))
  {
    var s' := Apply(env, s, st);
    forall k | k in s'.tickets ensures TicketTrue(s', k) {
      if st.Claim? && k.0 == st.w && k.1 in st.ids {
        assert k in NewTickets(s, st.w, st.ids, s.now + st.lease);
      } else {
        assert TicketTrue(s, k);
        OtherKeepsTicket(env, s, st, k);
      }
    }
  }

  lemma OtherKeepsTicket(env: Env, s: Sys, st: Step, k: (Id, Id))
    requires Enabled(s, st) && !st.Fire? && TicketTrue(s, k) && k in Apply(env, s, st).tickets
    requires !(st.Claim? && k.0 == st.w && k.1 in st.ids)
    ensures TicketTrue(Apply(env, s, st), k)
  {
    if !st.Close? && !st.IngestInsert? {
      OnlyClaimsMove(env, s, st);
    }
  }

  lemma {:induction false} TicketsStayTrue(env: Env, s: Sys, steps: seq<Step>)
    requires Init(s) && Feasible(env, s, steps)
    ensures TicketsTrue(Run(env, s, steps))
    decreases |steps|
  {
    if steps != [] {
      var front := steps[..|steps| - 1];
      TicketsStayTrue(env, s, front);
      EscalationHolds(env, s, front);
      if steps[|steps| - 1].Fire? {
        FireKeepsTickets(env, Run(env, s, front), steps[|steps| - 1]);
      } else {
        OtherKeepsTickets(env, Run(env, s, front), steps[|steps| - 1]);
      }
    }
  }

  /** In every reachable state, a fire through a ticket is early only if another worker has advanced
      the row since the claim: comparing the row's tier with the claimed one rules it out. */
  lemma EarlyOnlyIfAdvanced(env: Env, s: Sys, steps: seq<Step>, w: Id, i: Id)
    requires Init(s) && Feasible(env, s, steps)
    requires (w, i) in Run(env, s, steps).tickets
    ensures var f := Run(env, s, steps);
            && i in f.db.incidents
            && f.tickets[(w, i)].tier <= f.db.incidents[i].currentTier
            && (f.db.incidents[i].currentTier == f.tickets[(w, i)].tier && f.db.incidents[i].nextFireAt.Some?
                ==> f.db.incidents[i].nextFireAt.value <= f.now)
  {
    TicketsStayTrue(env, s, steps);
    assert TicketTrue(Run(env, s, steps), (w, i));
  }

  /** And then it does happen: a worker that lets its lease run out while another fires the row takes
      it one tier further at once, before the timer just set is due. */
  lemma StaleTicketFiresEarly(env: Env, s: Sys, w: Id, v: Id, i: Id, o: Id, p: Id)
    requires Escalation.EscalationOk(s.db) && Escalation.PagesOk(s.db)
    requires i in s.db.incidents && s.db.incidents[i].status.AwaitingOperator? && w != v
    requires (w, i) in s.tickets && (v, i) in s.tickets
    requires s.db.incidents[i].nextFireAt.Some?
    requires o !in s.db.outbox && p !in s.db.outbox && o != p
    requires var cfg := env.config(s.db.incidents[i].facts, 1, s.now); cfg.Some? && cfg.value.delaySeconds > 0
    ensures Enabled(s, Fire(v, i, o))
    ensures var s1 := Apply(env, s, Fire(v, i, o));
            && s1.db.incidents[i].nextFireAt.Some? && s1.now < s1.db.incidents[i].nextFireAt.value
            && Enabled(s1, Fire(w, i, p))
            && Apply(env, s1, Fire(w, i, p)).db.incidents[i].currentTier == 2
  {
    FireStepKeeps(env, s, Fire(v, i, o));
    Guarantees.FireIsExact(env, s, v, i, o);
    Escalation.FireEffect(env, s.db, i, o, s.now);
    assert Escalation.RowOk(s.db.incidents[i]);
    var s1 := Apply(env, s, Fire(v, i, o));
    assert Enabled(s1, Fire(w, i, p));
    Guarantees.FireIsExact(env, s1, w, i, p);
  }

  /** What a claim of the one incident i leaves behind. */
  ghost function AfterWorkerClaim(s: Sys, w: Id, i: Id, lease: nat): Sys
    requires i in s.db.incidents && s.db.incidents[i].nextFireAt.Some?
  {
    var row, until := s.db.incidents[i], s.now + lease;
    s.(db := s.db.(incidents := s.db.incidents[i := row.(claimedBy := Some(w), claimedUntil := Some(until))]),
       tickets := s.tickets[(w, i) := Ticket(row.currentTier, row.nextFireAt.value, until)])
  }

  /** It is what the claiming step does. */
  lemma WorkerClaimEffect(env: Env, s: Sys, w: Id, i: Id, lease: nat)
    requires i in s.db.incidents && Escalation.Claimable(s.db.incidents[i], s.now)
    ensures Enabled(s, Claim(w, {i}, lease))
    ensures Apply(env, s, Claim(w, {i}, lease)) == AfterWorkerClaim(s, w, i, lease)
  {
    var t, expected := Apply(env, s, Claim(w, {i}, lease)), AfterWorkerClaim(s, w, i, lease);
    assert NewTickets(s, w, {i}, s.now + lease).Keys == {(w, i)};
    assert t.tickets == expected.tickets;
    assert t.db.incidents == expected.db.incidents;
  }

  /** Two workers come to hold tickets on one incident when the first lets its lease run out. */
  lemma ExpiredLeaseIsReclaimed(s: Sys, w: Id, v: Id, i: Id, lease: nat)
    requires i in s.db.incidents && w != v && Escalation.Claimable(s.db.incidents[i], s.now)
    ensures var s1 := AfterWorkerClaim(s, w, i, lease);
            var s2 := s1.(now := s1.now + lease + 1);
            var s3 := AfterWorkerClaim(s2, v, i, lease);
            && Escalation.Claimable(s2.db.incidents[i], s2.now)
            && (w, i) in s3.tickets && (v, i) in s3.tickets && s3.tickets[(w, i)].until < s3.now
  {
    assert (w, i) != (v, i);
  }

  // ----- leases -----

  lemma ClaimKeepsLeases(env: Env, s: Sys, st: Step)
    requires Enabled(s, st) && st.Claim? && LeasesOk(s)
    ensures LeasesOk(Apply(env, s, st))
  {
    var s' := Apply(env, s, st);
    var issued := NewTickets(s, st.w, st.ids, s.now + st.lease);
    forall k | Live(s', k) ensures Holds(s', k) {
      if k in issued {
        assert k.0 == st.w && k.1 in st.ids;
      } else {
        assert Live(s, k);
        assert Holds(s, k);
      }
    }
  }

  lemma FireKeepsLeases(env: Env, s: Sys, st: Step)
    requires Escalation.EscalationOk(s.db) && Escalation.PagesOk(s.db)
    requires Enabled(s, st) && st.Fire? && LeasesOk(s) && Live(s, (st.w, st.i))
    ensures LeasesOk(Apply(env, s, st))
  {
    Guarantees.FireIsExact(env, s, st.w, st.i, st.outboxId);
    var s' := Apply(env, s, st);
    forall k | Live(s', k) ensures Holds(s', k) {
      assert Live(s, k) && Holds(s, k) && Holds(s, (st.w, st.i));
      assert k.1 != st.i;
    }
  }

  lemma OtherKeepsLeases(env: Env, s: Sys, st: Step)
    requires Enabled(s, st) && !st.Fire? && !st.Claim? && LeasesOk(s) && InLease(s, st)
    ensures LeasesOk(Apply(env, s, st))
  {
    var s' := Apply(env, s, st);
    forall k | Live(s', k) ensures Holds(s', k) {
      assert Live(s, k) && Holds(s, k);
      if st.ReleaseAfterError? {
        assert Holds(s, (st.w, st.i));
        assert k.1 != st.i;
      }
    }
  }

  lemma {:induction false} LeasesStayOk(env: Env, s: Sys, steps: seq<Step>)
    requires Init(s) && Feasible(env, s, steps) && InLeaseRun(env, s, steps)
    ensures LeasesOk(Run(env, s, steps))
    decreases |steps|
  {
    if steps != [] {
      var front, st := steps[..|steps| - 1], steps[|steps| - 1];
      LeasesStayOk(env, s, front);
      EscalationHolds(env, s, front);
      if st.Claim? {
        ClaimKeepsLeases(env, Run(env, s, front), st);
      } else if st.Fire? {
        FireKeepsLeases(env, Run(env, s, front), st);
      } else {
        OtherKeepsLeases(env, Run(env, s, front), st);
      }
    }
  }

  /** When every worker acts within its leases, at most one holds a live ticket on an incident, the row
      is still at the ticket's tier, and if it is armed it is due. */
  lemma LiveTicketsAreExclusiveAndDue(env: Env, s: Sys, steps: seq<Step>, w: Id, v: Id, i: Id)
    requires Init(s) && Feasible(env, s, steps) && InLeaseRun(env, s, steps)
    requires Live(Run(env, s, steps), (w, i)) && Live(Run(env, s, steps), (v, i))
    ensures w == v
    ensures var f := Run(env, s, steps);
            && i in f.db.incidents && f.db.incidents[i].currentTier == f.tickets[(w, i)].tier
            && (f.db.incidents[i].nextFireAt.Some? ==> f.db.incidents[i].nextFireAt.value <= f.now)
  {
    LeasesStayOk(env, s, steps);
    TicketsStayTrue(env, s, steps);
    var f := Run(env, s, steps);
    assert Holds(f, (w, i)) && Holds(f, (v, i)) && TicketTrue(f, (w, i));
  }

  // ----- fire times -----

  /** When the timer that fires tier k + 1 of incident i is due, by the fire times in the log and the
      delays configured at those times; None when a configuration was missing. */
  ghost function DueAt(env: Env, facts: Facts, created: Time, fires: seq<Event>, k: nat): Option<Time> {
    if k == 0 then Some(created + Seconds(env.graceSeconds))
    else if k > |fires| || env.config(facts, k, fires[k - 1].at).None? then None
    else Some(fires[k - 1].at + Seconds(env.config(facts, k, fires[k - 1].at).value.delaySeconds))
  }

  ghost predicate FiredWhenDue(env: Env, facts: Facts, created: Time, fires: seq<Event>, k: nat) {
    k < |fires| && DueAt(env, facts, created, fires, k).Some?
    && DueAt(env, facts, created, fires, k).value <= fires[k].at
  }

  ghost predicate AllWhenDue(env: Env, facts: Facts, created: Time, fires: seq<Event>) {
    forall k: nat :: k < |fires| ==> FiredWhenDue(env, facts, created, fires, k)
  }

  /** A row's timer is the one its last fire armed. */
  ghost predicate TimerRight(env: Env, db: Db, i: Id) {
    i in db.incidents ==>
      var inc, fires := db.incidents[i], Escalation.FiresOf(db.events, i);
      && |fires| == inc.currentTier
      && (inc.nextFireAt.Some? ==> inc.nextFireAt == DueAt(env, inc.facts, inc.createdAt, fires, inc.currentTier))
  }

  /** Every fire in the log came when it was due. */
  ghost predicate OnTime(env: Env, db: Db, i: Id) {
    i in db.incidents ==>
      AllWhenDue(env, db.incidents[i].facts, db.incidents[i].createdAt, Escalation.FiresOf(db.events, i))
  }

  /** The guard the re-check lacks: a fire of i that passes it finds the timer due. */
  ghost predicate DueFire(s: Sys, st: Step, i: Id) {
    (st.Fire? && st.i == i && i in s.db.incidents && Escalation.PassesRecheck(s.db.incidents[i])) ==>
      s.db.incidents[i].nextFireAt.value <= s.now
  }

  ghost predicate DueFires(env: Env, s: Sys, steps: seq<Step>, i: Id)
    requires Feasible(env, s, steps)
    decreases |steps|
  {
    steps != [] ==>
      var front := steps[..|steps| - 1];
      DueFires(env, s, front, i) && DueFire(Run(env, s, front), steps[|steps| - 1], i)
  }

  lemma OneMoreWhenDueIff(env: Env, facts: Facts, created: Time, fires: seq<Event>, e: Event)
    requires DueAt(env, facts, created, fires, |fires|).Some?
    ensures AllWhenDue(env, facts, created, fires + [e])
            <==> AllWhenDue(env, facts, created, fires) && DueAt(env, facts, created, fires, |fires|).value <= e.at
  {
    var all := fires + [e];
    forall k: nat | k <= |fires|
      ensures FiredWhenDue(env, facts, created, all, k)
              <==> if k < |fires| then FiredWhenDue(env, facts, created, fires, k)
                   else DueAt(env, facts, created, fires, k).value <= e.at
    {
      assert DueAt(env, facts, created, all, k) == DueAt(env, facts, created, fires, k);
    }
    if AllWhenDue(env, facts, created, all) {
      assert FiredWhenDue(env, facts, created, all, |fires|);
      forall k: nat | k < |fires| ensures FiredWhenDue(env, facts, created, fires, k) {
        assert FiredWhenDue(env, facts, created, all, k);
      }
    }
  }

  /** What a step does to the timer and the fires of i. */
  ghost predicate KeepsTime(env: Env, s: Sys, st: Step, i: Id)
    requires Enabled(s, st)
  {
    var d, d' := s.db, Apply(env, s, st).db;
    TimerRight(env, d', i) && (OnTime(env, d', i) <==> OnTime(env, d, i) && DueFire(s, st, i))
  }

  lemma FireKeepsTime(env: Env, s: Sys, st: Step, i: Id)
    requires Escalation.EscalationOk(s.db) && Escalation.PagesOk(s.db)
    requires Enabled(s, st) && st.Fire? && TimerRight(env, s.db, i)
    ensures KeepsTime(env, s, st, i)
  {
    FireStepKeeps(env, s, st);
    Escalation.FireAdvances(env, s.db, st.i, st.outboxId, s.now);
    if Escalation.PassesRecheck(s.db.incidents[st.i]) {
      if i == st.i {
        OwnFireOnTimeIff(env, s.db, i, st.outboxId, s.now);
      } else {
        OtherFireKeepsTime(env, s.db, st.i, st.outboxId, s.now, i);
      }
    }
  }

  lemma OwnFireOnTimeIff(env: Env, d: Db, i: Id, o: Id, now: Time)
    requires Escalation.EscalationOk(d) && Escalation.PagesOk(d) && i in d.incidents && TimerRight(env, d, i)
    requires Escalation.PassesRecheck(d.incidents[i])
    ensures var d' := Escalation.FireRow(env, d, i, o, now).db;
            && TimerRight(env, d', i)
            && (OnTime(env, d', i) <==> OnTime(env, d, i) && d.incidents[i].nextFireAt.value <= now)
  {
    var inc := d.incidents[i];
    assert Escalation.RowOk(inc);
    Escalation.FireEffect(env, d, i, o, now);
    var tr := Escalation.TransitionFor(inc.status, inc.currentTier).value;
    var e := Escalation.FireEvent(i, inc, tr, now);
    Escalation.LogGrows(d.events, e, i);
    OneMoreWhenDueIff(env, inc.facts, inc.createdAt, Escalation.FiresOf(d.events, i), e);
  }

  lemma OtherFireKeepsTime(env: Env, d: Db, f: Id, o: Id, now: Time, i: Id)
    requires Escalation.EscalationOk(d) && Escalation.PagesOk(d) && f in d.incidents && i != f && TimerRight(env, d, i)
    requires Escalation.PassesRecheck(d.incidents[f])
    ensures var d' := Escalation.FireRow(env, d, f, o, now).db;
            TimerRight(env, d', i) && (OnTime(env, d', i) <==> OnTime(env, d, i))
  {
    var inc := d.incidents[f];
    Escalation.FireEffect(env, d, f, o, now);
    var tr := Escalation.TransitionFor(inc.status, inc.currentTier).value;
    Escalation.LogGrows(d.events, Escalation.FireEvent(f, inc, tr, now), i);
  }

  lemma InsertKeepsTime(env: Env, s: Sys, st: Step, i: Id)
    requires Escalation.EscalationOk(s.db) && Enabled(s, st) && st.IngestInsert? && TimerRight(env, s.db, i)
    ensures KeepsTime(env, s, st, i)
  {
    var rec, at := Ingest.RecordOf(s.intake, st.c), s.intake.consumers[st.c].phase.at;
    Escalation.LogGrows(s.db.events, Ingest.CreationEvent(rec, st.i, at), i);
    assert Escalation.FiredOnce(s.db, st.i);
  }

  lemma CloseKeepsTime(env: Env, s: Sys, st: Step, i: Id)
    requires Enabled(s, st) && st.Close? && TimerRight(env, s.db, i)
    ensures KeepsTime(env, s, st, i)
  {
    Escalation.CloseGrows(s.db.events, s.looks[st.r], s.now, i);
  }

  lemma OtherKeepsTime(env: Env, s: Sys, st: Step, i: Id)
    requires Enabled(s, st) && !st.Fire? && !st.IngestInsert? && !st.Close? && TimerRight(env, s.db, i)
    ensures KeepsTime(env, s, st, i)
  {
    OnlyClaimsMove(env, s, st);
  }

  /** After any run, every fire of i in the log came when it was due if and only if every fire of the run that
      passed the re-check on i found its timer due. */
  lemma {:induction false} OnTimeIff(env: Env, s: Sys, steps: seq<Step>, i: Id)
    requires Init(s) && Feasible(env, s, steps)
    ensures TimerRight(env, Run(env, s, steps).db, i)
    ensures OnTime(env, Run(env, s, steps).db, i) <==> DueFires(env, s, steps, i)
    decreases |steps|
  {
    if steps != [] {
      var front, st := steps[..|steps| - 1], steps[|steps| - 1];
      OnTimeIff(env, s, front, i);
      EscalationHolds(env, s, front);
      if st.Fire? {
        FireKeepsTime(env, Run(env, s, front), st, i);
      } else if st.IngestInsert? {
        InsertKeepsTime(env, Run(env, s, front), st, i);
      } else if st.Close? {
        CloseKeepsTime(env, Run(env, s, front), st, i);
      } else {
        OtherKeepsTime(env, Run(env, s, front), st, i);
      }
    }
  }

  // ----- two tests that are enough -----

  /** A test the worker could make, as the claim returns the tier: the row is still at the claimed one. */
  ghost predicate TierFire(s: Sys, st: Step, i: Id) {
    (st.Fire? && st.i == i && (st.w, i) in s.tickets && i in s.db.incidents
     && Escalation.PassesRecheck(s.db.incidents[i])) ==>
      s.db.incidents[i].currentTier == s.tickets[(st.w, i)].tier
  }

  ghost predicate TierFires(env: Env, s: Sys, steps: seq<Step>, i: Id)
    requires Feasible(env, s, steps)
    decreases |steps|
  {
    steps != [] ==>
      var front := steps[..|steps| - 1];
      TierFires(env, s, front, i) && TierFire(Run(env, s, front), steps[|steps| - 1], i)
  }

  /** With that test on every fire of i, no fire of i is early. */
  lemma {:induction false} ClaimedTierIsDue(env: Env, s: Sys, steps: seq<Step>, i: Id)
    requires Init(s) && Feasible(env, s, steps) && TierFires(env, s, steps, i)
    ensures DueFires(env, s, steps, i)
    decreases |steps|
  {
    if steps != [] {
      var front, st := steps[..|steps| - 1], steps[|steps| - 1];
      ClaimedTierIsDue(env, s, front, i);
      if st.Fire? && st.i == i {
        EarlyOnlyIfAdvanced(env, s, front, st.w, i);
      }
    }
  }

  /** A worker that acts within its leases passes it without making it. */
  lemma {:induction false} InLeaseKeepsTier(env: Env, s: Sys, steps: seq<Step>, i: Id)
    requires Init(s) && Feasible(env, s, steps) && InLeaseRun(env, s, steps)
    ensures TierFires(env, s, steps, i)
    decreases |steps|
  {
    if steps != [] {
      var front, st := steps[..|steps| - 1], steps[|steps| - 1];
      InLeaseKeepsTier(env, s, front, i);
      if st.Fire? && st.i == i {
        LiveTicketsAreExclusiveAndDue(env, s, front, st.w, st.w, i);
      }
    }
  }

  /** When every worker acts within its leases, no tier of any incident ever fires before it is due. */
  lemma FiresStayOnTime(env: Env, s: Sys, steps: seq<Step>, i: Id)
    requires Init(s) && Feasible(env, s, steps) && InLeaseRun(env, s, steps)
    ensures DueFires(env, s, steps, i)
    ensures TimerRight(env, Run(env, s, steps).db, i) && OnTime(env, Run(env, s, steps).db, i)
  {
    InLeaseKeepsTier(env, s, steps, i);
    ClaimedTierIsDue(env, s, steps, i);
    OnTimeIff(env, s, steps, i);
  }

  /** As long as every fire of i finds its timer due, CRITICAL comes no earlier than creation + grace + delay(1) +
      delay(2), each delay as configured when its timer was set. */
  lemma CriticalNotEarly(env: Env, s: Sys, steps: seq<Step>, i: Id)
    requires Init(s) && Feasible(env, s, steps) && DueFires(env, s, steps, i)
    requires i in Run(env, s, steps).db.incidents
    requires Run(env, s, steps).db.incidents[i].status.CriticalUnresolved?
    ensures var db := Run(env, s, steps).db;
            var inc, fires := db.incidents[i], Escalation.FiresOf(db.events, i);
            && |fires| == 3 && fires[2].kind.CriticalFired?
            && env.config(inc.facts, 1, fires[0].at).Some? && env.config(inc.facts, 2, fires[1].at).Some?
            && fires[0].at >= inc.createdAt + Seconds(env.graceSeconds)
            && fires[2].at >= inc.createdAt + Seconds(env.graceSeconds)
                              + Seconds(env.config(inc.facts, 1, fires[0].at).value.delaySeconds)
                              + Seconds(env.config(inc.facts, 2, fires[1].at).value.delaySeconds)
  {
    OnTimeIff(env, s, steps, i);
    EscalationHolds(env, s, steps);
    var db := Run(env, s, steps).db;
    var inc, fires := db.incidents[i], Escalation.FiresOf(db.events, i);
    assert Escalation.RowOk(inc) && Escalation.FiredOnce(db, i);
    assert FiredWhenDue(env, inc.facts, inc.createdAt, fires, 0);
    assert FiredWhenDue(env, inc.facts, inc.createdAt, fires, 1);
    assert FiredWhenDue(env, inc.facts, inc.createdAt, fires, 2);
  }
}
