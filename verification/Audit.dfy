/** What the audit log says of an incident, and what the stamps on its row say. */
module Audit {
  import opened Model
  import opened Protocol
  import opened Effects
  import Escalation
  import Ingest

  // ----- every event by itself -----

  /** Each kind of event has its own statuses, and each rung of the ladder its own tier. */
  predicate WellTold(e: Event) {
    match e.kind
    case CreatedEvent => e.fromState == None && e.toState == AwaitingOperator && e.tier == 0
    case Tier1Fired => e.fromState == Some(AwaitingOperator) && e.toState == Tier1 && e.tier == 1
    case Tier2Fired => e.fromState == Some(Tier1) && e.toState == Tier2 && e.tier == 2
    case CriticalFired => e.fromState == Some(Tier2) && e.toState == CriticalUnresolved && e.tier == 3
    case AckEvent =>
      e.toState == Acknowledged && e.fromState in {Some(AwaitingOperator), Some(Tier1), Some(Tier2)}
    case ResolvedEvent =>
      e.toState == Resolved && e.fromState in {Some(AwaitingOperator), Some(Tier1), Some(Tier2), Some(Acknowledged)}
    case ReplyReceived => e.fromState == Some(e.toState)
  }

  /** The log goes on, with well-told events only. */
  ghost predicate TellsOn(log: seq<Event>, log': seq<Event>) {
    && |log| <= |log'| && log'[..|log|] == log
    && forall k :: |log| <= k < |log'| ==> WellTold(log'[k])
  }

  lemma StepTellsOn(env: Env, s: Sys, st: Step)
    requires Escalation.EscalationOk(s.db) && Escalation.PagesOk(s.db) && LooksOk(s.db, s.looks) && Enabled(s, st)
    ensures TellsOn(s.db.events, Apply(env, s, st).db.events)
  {
    if st.Fire? {
      FireStepKeeps(env, s, st);
      FiresOneRung(env, s.db, st.i, st.outboxId, s.now);
      FireTellsOn(env, s.db, Apply(env, s, st).db, st.i, st.outboxId, s.now);
    } else if st.Close? {
      var seen := s.looks[st.r];
      Closes(s.db, seen, s.now);
      CloseTellsOn(s.db, Apply(env, s, st).db, seen, s.now);
    } else if st.IngestInsert? {
      InsertTellsOn(env, s, st);
    } else {
      OnlyClaimsMove(env, s, st);
    }
  }

  lemma FireTellsOn(env: Env, d: Db, g: Db, i: Id, o: Id, now: Time)
    requires OneRungUp(env, d, g, i, o, now) || g == d
    ensures TellsOn(d.events, g.events)
  {
    if g != d {
      OneTold(d.events, g.events[|d.events|]);
    }
  }

  lemma OneTold(log: seq<Event>, e: Event)
    requires WellTold(e)
    ensures TellsOn(log, log + [e])
  {
  }

  lemma CloseTellsOn(d: Db, g: Db, seen: Escalation.Seen, now: Time)
    requires seen.incident in d.incidents && ClosedInColumns(d, g, seen, d.incidents[seen.incident], now)
    ensures TellsOn(d.events, g.events)
  {
    var i := seen.incident;
    var reply := if seen.action.Reply?
                 then [Event(i, ReplyReceived, Some(seen.status), seen.status, seen.tier, None, now)] else [];
    assert TellsOn(d.events, d.events + reply);
    if g.events != d.events + reply {
      OneTold(d.events + reply, g.events[|d.events + reply|]);
    }
  }

  lemma InsertTellsOn(env: Env, s: Sys, st: Step)
    requires Escalation.PagesOk(s.db) && Enabled(s, st) && st.IngestInsert?
    ensures TellsOn(s.db.events, Apply(env, s, st).db.events)
  {
    var rec, at := Ingest.RecordOf(s.intake, st.c), s.intake.consumers[st.c].phase.at;
    Inserts(env, s.db, rec, st.i, st.outboxId, at);
    var r := Ingest.Insert(env, s.db, rec, st.i, st.outboxId, at);
    if r.Some? {
      OneTold(s.db.events, r.value.events[|s.db.events|]);
    }
  }

  lemma {:induction false} AllWellTold(env: Env, s: Sys, steps: seq<Step>)
    requires Init(s) && Feasible(env, s, steps)
    ensures forall k :: 0 <= k < |Run(env, s, steps).db.events| ==> WellTold(Run(env, s, steps).db.events[k])
    decreases |steps|
  {
    if steps != [] {
      var front := steps[..|steps| - 1];
      AllWellTold(env, s, front);
      ReachableInv(env, s, front);
      EscalationPart(Run(env, s, front));
      StepTellsOn(env, Run(env, s, front), steps[|steps| - 1]);
      StillWellTold(Run(env, s, front).db.events, Run(env, s, steps).db.events);
    }
  }

  lemma StillWellTold(log: seq<Event>, log': seq<Event>)
    requires TellsOn(log, log') && forall k :: 0 <= k < |log| ==> WellTold(log[k])
    ensures forall k :: 0 <= k < |log'| ==> WellTold(log'[k])
  {
    assert forall k :: 0 <= k < |log| ==> log'[k] == log'[..|log|][k];
  }

  /** After every run, for every event of the log: what it is called says what happened, and what happened says what
      it is called.  An event that stays in its status is a reply; any other is named after the status it reaches. */
  lemma EventsAreNamedRight(env: Env, s: Sys, steps: seq<Step>, k: nat)
    requires Init(s) && Feasible(env, s, steps) && k < |Run(env, s, steps).db.events|
    ensures var e := Run(env, s, steps).db.events[k];
            && (e.kind.ReplyReceived? <==> e.fromState == Some(e.toState))
            && (e.kind.AckEvent? <==> !e.kind.ReplyReceived? && e.toState == Acknowledged)
            && (e.kind.ResolvedEvent? <==> !e.kind.ReplyReceived? && e.toState == Resolved)
            && (e.kind.CreatedEvent? <==> e.fromState == None)
            && (e.kind.CreatedEvent? <==> !e.kind.ReplyReceived? && e.toState == AwaitingOperator)
            && (e.kind.Tier1Fired? <==> !e.kind.ReplyReceived? && e.toState == Tier1)
            && (e.kind.Tier2Fired? <==> !e.kind.ReplyReceived? && e.toState == Tier2)
            && (e.kind.CriticalFired? <==> !e.kind.ReplyReceived? && e.toState == CriticalUnresolved)
            && (e.kind.CreatedEvent? ==> e.tier == 0) && (e.kind.Tier1Fired? ==> e.tier == 1)
            && (e.kind.Tier2Fired? ==> e.tier == 2) && (e.kind.CriticalFired? ==> e.tier == 3)
  {
    AllWellTold(env, s, steps);
  }

  // ----- events and rows -----

  /** The row changed in more than its claim. */
  predicate Changed(a: Incident, b: Incident) {
    b != a.(claimedBy := b.claimedBy, claimedUntil := b.claimedUntil)
  }

  /** The close of a request that decided to do something. */
  ghost predicate ClosesIt(s: Sys, st: Step, i: Id) {
    && st.Close? && st.r in s.looks && s.looks[st.r].incident == i
    && (Acknowledges(s.looks[st.r].action, s.looks[st.r].status)
        || Resolves(s.looks[st.r].action, s.looks[st.r].status))
  }

  /** How one step changes a row: only a fire or a close does, it stamps the row, and the log ends with the status
      the row has reached. */
  ghost predicate ChangesRow(s: Sys, st: Step, g: Db, i: Id)
    requires i in s.db.incidents && (st.Close? ==> st.r in s.looks)
  {
    && i in g.incidents
    && var row, row' := s.db.incidents[i], g.incidents[i];
       && (Changed(row, row') ==>
             && (st.Fire? || ClosesIt(s, st, i))
             && row'.updatedAt == (if st.Close? then s.looks[st.r].at else s.now)
             && |g.events| > |s.db.events|
             && var e := g.events[|g.events| - 1];
                e.incident == i && e.toState == row'.status && !e.kind.ReplyReceived?)
       && (ClosesIt(s, st, i) ==> row'.updatedAt == s.looks[st.r].at)
       && row'.createdAt == row.createdAt
  }

  lemma StepChangesRow(env: Env, s: Sys, st: Step, i: Id)
    requires Escalation.EscalationOk(s.db) && Escalation.PagesOk(s.db) && LooksOk(s.db, s.looks)
    requires Enabled(s, st) && i in s.db.incidents
    ensures st.Close? ==> st.r in s.looks
    ensures ChangesRow(s, st, Apply(env, s, st).db, i)
  {
    var g := Apply(env, s, st).db;
    if st.Fire? {
      FireStepKeeps(env, s, st);
      FiresOneRung(env, s.db, st.i, st.outboxId, s.now);
      FireChangesRow(env, s, st, g, i);
    } else if st.Close? {
      Closes(s.db, s.looks[st.r], s.now);
      CloseChangesRow(s, st, g, i);
    } else {
      RestChangesNoRow(env, s, st, i);
    }
  }

  lemma FireChangesRow(env: Env, s: Sys, st: Step, g: Db, i: Id)
    requires st.Fire? && i in s.db.incidents
    requires OneRungUp(env, s.db, g, st.i, st.outboxId, s.now) || g == s.db
    ensures ChangesRow(s, st, g, i)
  {
  }

  lemma CloseChangesRow(s: Sys, st: Step, g: Db, i: Id)
    requires st.Close? && st.r in s.looks && s.looks[st.r].incident in s.db.incidents && i in s.db.incidents
    requires var seen := s.looks[st.r]; ClosedInColumns(s.db, g, seen, s.db.incidents[seen.incident], s.now)
    ensures ChangesRow(s, st, g, i)
  {
  }

  lemma RestChangesNoRow(env: Env, s: Sys, st: Step, i: Id)
    requires Escalation.PagesOk(s.db) && Enabled(s, st) && !st.Fire? && !st.Close? && i in s.db.incidents
    ensures i in Apply(env, s, st).db.incidents && !Changed(s.db.incidents[i], Apply(env, s, st).db.incidents[i])
    ensures ChangesRow(s, st, Apply(env, s, st).db, i)
  {
    if st.IngestInsert? {
      Inserts(env, s.db, Ingest.RecordOf(s.intake, st.c), st.i, st.outboxId, s.intake.consumers[st.c].phase.at);
    } else {
      OnlyClaimsMove(env, s, st);
    }
  }

  // ----- stamps -----

  /** No stamp lies in the future, neither on a row nor in what a request or a consumer remembers, and none before
      the incident was created. */
  ghost predicate Stamped(s: Sys) {
    && (forall i :: i in s.db.incidents ==> RowStamped(s.db.incidents[i], s.now))
    && (forall r :: r in s.looks ==> LookStamped(s.db.incidents, s.looks[r], s.now))
    && ChecksStamped(s.intake, s.now)
  }

  predicate RowStamped(row: Incident, now: Time) {
    row.createdAt <= row.updatedAt <= now
  }

  predicate LookStamped(rows: map<Id, Incident>, seen: Escalation.Seen, now: Time) {
    seen.incident in rows && rows[seen.incident].createdAt <= seen.at <= now
  }

  ghost predicate ChecksStamped(q: Ingest.Intake, now: Time) {
    forall c :: c in q.consumers && q.consumers[c].phase.Checked? ==> q.consumers[c].phase.at <= now
  }

  lemma StepKeepsStamps(env: Env, s: Sys, st: Step)
    requires Escalation.EscalationOk(s.db) && Escalation.PagesOk(s.db) && LooksOk(s.db, s.looks)
    requires Enabled(s, st) && Stamped(s)
    ensures Stamped(Apply(env, s, st))
  {
    var t := Apply(env, s, st);
    ClockGoesOn(env, s, st);
    ChecksAreStamped(env, s, st);
    forall i | i in t.db.incidents ensures RowStamped(t.db.incidents[i], t.now) {
      if i in s.db.incidents {
        OldRowIsStamped(env, s, st, i);
      } else {
        NewRowIsStamped(env, s, st, i);
      }
    }
    forall r | r in t.looks ensures LookStamped(t.db.incidents, t.looks[r], t.now) {
      LooksAreStamped(env, s, st, r);
      OldRowIsStamped(env, s, st, t.looks[r].incident);
    }
  }

  lemma ClockGoesOn(env: Env, s: Sys, st: Step)
    requires Enabled(s, st)
    ensures s.now <= Apply(env, s, st).now
  {
  }

  lemma OldRowIsStamped(env: Env, s: Sys, st: Step, i: Id)
    requires Escalation.EscalationOk(s.db) && Escalation.PagesOk(s.db) && LooksOk(s.db, s.looks)
    requires Enabled(s, st) && i in s.db.incidents && RowStamped(s.db.incidents[i], s.now)
    requires forall r :: r in s.looks ==> LookStamped(s.db.incidents, s.looks[r], s.now)
    ensures var t := Apply(env, s, st);
            && i in t.db.incidents && RowStamped(t.db.incidents[i], s.now)
            && t.db.incidents[i].createdAt == s.db.incidents[i].createdAt
  {
    StepChangesRow(env, s, st, i);
    assert st.Close? ==> LookStamped(s.db.incidents, s.looks[st.r], s.now);
  }

  lemma ChecksAreStamped(env: Env, s: Sys, st: Step)
    requires Enabled(s, st) && ChecksStamped(s.intake, s.now)
    ensures ChecksStamped(Apply(env, s, st).intake, s.now)
  {
    if st.IngestRead? {
      ReadIsStamped(s, st.c);
    } else if st.IngestRecheck? {
      RecheckIsStamped(s, st.c);
    } else {
      var after := Apply(env, s, st).intake.consumers;
      assert forall c :: c in after && after[c].phase.Checked? ==>
        c in s.intake.consumers && after[c] == s.intake.consumers[c];
    }
  }

  lemma ReadIsStamped(s: Sys, c: Id)
    requires Ingest.HasRecord(s.intake, c) && ChecksStamped(s.intake, s.now)
    ensures ChecksStamped(AfterRead(s, c), s.now)
  {
  }

  lemma RecheckIsStamped(s: Sys, c: Id)
    requires Ingest.HasRecord(s.intake, c) && Ingest.RecordOf(s.intake, c).Anomaly? && ChecksStamped(s.intake, s.now)
    ensures ChecksStamped(AfterRecheck(s, c), s.now)
  {
  }

  lemma NewRowIsStamped(env: Env, s: Sys, st: Step, i: Id)
    requires Escalation.EscalationOk(s.db) && Escalation.PagesOk(s.db)
    requires Enabled(s, st) && ChecksStamped(s.intake, s.now)
    requires i in Apply(env, s, st).db.incidents && i !in s.db.incidents
    ensures RowStamped(Apply(env, s, st).db.incidents[i], s.now)
  {
    if st.IngestInsert? {
      Inserts(env, s.db, Ingest.RecordOf(s.intake, st.c), st.i, st.outboxId, s.intake.consumers[st.c].phase.at);
    } else {
      StepEvolves(env, s, st);
    }
  }

  lemma LooksAreStamped(env: Env, s: Sys, st: Step, r: Id)
    requires Enabled(s, st) && r in Apply(env, s, st).looks
    requires forall i :: i in s.db.incidents ==> RowStamped(s.db.incidents[i], s.now)
    requires forall r :: r in s.looks ==> LookStamped(s.db.incidents, s.looks[r], s.now)
    ensures LookStamped(s.db.incidents, Apply(env, s, st).looks[r], s.now)
  {
    if st.Look? {
      LookInColumns(env, s, st.r, st.i, st.action);
      assert RowStamped(s.db.incidents[st.i], s.now);
    } else {
      assert r in s.looks && Apply(env, s, st).looks[r] == s.looks[r];
    }
  }

  lemma {:induction false} StaysStamped(env: Env, s: Sys, steps: seq<Step>)
    requires Init(s) && Feasible(env, s, steps)
    ensures Stamped(Run(env, s, steps))
    decreases |steps|
  {
    if steps != [] {
      var front := steps[..|steps| - 1];
      StaysStamped(env, s, front);
      ReachableInv(env, s, front);
      EscalationPart(Run(env, s, front));
      StepKeepsStamps(env, Run(env, s, front), steps[|steps| - 1]);
    }
  }

  /** After every run: a step that changes more of a row than its claim is a fire, which stamps it with the present,
      or a close, which stamps it with the time of its read; and the log ends with the status reached. */
  lemma ChangesAreStamped(env: Env, start: Sys, past: seq<Step>, st: Step, i: Id)
    requires Init(start) && Feasible(env, start, past) && Enabled(Run(env, start, past), st)
    requires i in Run(env, start, past).db.incidents
    ensures var f := Run(env, start, past);
            && RowStamped(f.db.incidents[i], f.now)
            && (st.Close? ==> st.r in f.looks && LookStamped(f.db.incidents, f.looks[st.r], f.now))
            && ChangesRow(f, st, Apply(env, f, st).db, i)
  {
    ReachableInv(env, start, past);
    EscalationPart(Run(env, start, past));
    StaysStamped(env, start, past);
    StepChangesRow(env, Run(env, start, past), st, i);
  }

  /** After every run: a stamp goes back if and only if a close that decided to do something writes a row that has
      been stamped since it was read. */
  lemma StampGoesBackIff(env: Env, start: Sys, past: seq<Step>, st: Step, i: Id)
    requires Init(start) && Feasible(env, start, past) && Enabled(Run(env, start, past), st)
    requires i in Run(env, start, past).db.incidents
    ensures var f := Run(env, start, past);
            var g := Apply(env, f, st).db;
            && i in g.incidents
            && (g.incidents[i].updatedAt < f.db.incidents[i].updatedAt
                <==> ClosesIt(f, st, i) && f.looks[st.r].at < f.db.incidents[i].updatedAt)
  {
    ChangesAreStamped(env, start, past, st, i);
  }
}
