/** Redelivery of records that were already handled. */
module Replay {
  import opened Model
  import opened Protocol
  import Escalation
  import Ingest

  /** Handling the record now would not reach the insert. */
  ghost predicate Settled(db: Db, rec: Ingest.Record) {
    rec.Anomaly? ==> Ingest.EventSeen(db.events, rec.eventId) || Ingest.OpenExists(db.incidents, rec.dedupKey)
  }

  /** Every record ever handled is settled. */
  ghost predicate AllSettled(s: Sys) {
    forall f :: f in s.intake.fates ==>
      f.1 < |Ingest.LogOf(s.intake, f.0)| && Settled(s.db, Ingest.LogOf(s.intake, f.0)[f.1])
  }

  /** The step takes an open incident out of the open statuses. */
  ghost predicate Closes(env: Env, s: Sys, st: Step)
    requires Enabled(s, st)
  {
    exists i :: i in s.db.incidents && Active(s.db.incidents[i].status)
                && !(i in Apply(env, s, st).db.incidents && Active(Apply(env, s, st).db.incidents[i].status))
  }

  ghost predicate NothingCloses(env: Env, s: Sys, steps: seq<Step>)
    requires Feasible(env, s, steps)
    decreases |steps|
  {
    steps != [] ==>
      var front := steps[..|steps| - 1];
      NothingCloses(env, s, front) && !Closes(env, Run(env, s, front), steps[|steps| - 1])
  }

  lemma SettledStays(d: Db, d': Db, rec: Ingest.Record)
    requires Settled(d, rec)
    requires |d.events| <= |d'.events| && d'.events[..|d.events|] == d.events
    requires forall i :: i in d.incidents && Active(d.incidents[i].status) ==>
      i in d'.incidents && Active(d'.incidents[i].status) && d'.incidents[i].dedupKey == d.incidents[i].dedupKey
    ensures Settled(d', rec)
  {
    if rec.Anomaly? && Ingest.EventSeen(d.events, rec.eventId) {
      var k :| 0 <= k < |d.events| && d.events[k].sourceEvent == Some(rec.eventId);
      assert d'.events[k] == d'.events[..|d.events|][k];
    }
  }

  lemma StepKeepsOpenRows(env: Env, s: Sys, st: Step)
    requires Escalation.EscalationOk(s.db) && Escalation.PagesOk(s.db) && Enabled(s, st) && !Closes(env, s, st)
    ensures var d, d' := s.db, Apply(env, s, st).db;
            && |d.events| <= |d'.events| && d'.events[..|d.events|] == d.events
            && (forall i :: i in d.incidents && Active(d.incidents[i].status) ==>
                  && i in d'.incidents && Active(d'.incidents[i].status)
                  && d'.incidents[i].dedupKey == d.incidents[i].dedupKey)
  {
    if !st.IngestInsert? {
      StepEvolves(env, s, st);
    }
  }

  lemma OtherStepsDecideNothing(env: Env, s: Sys, st: Step)
    requires Enabled(s, st) && !st.IngestRead? && !st.IngestInsert? && !st.IngestRecheck?
    ensures Apply(env, s, st).intake.fates == s.intake.fates
    ensures forall p: Id :: Ingest.LogOf(s.intake, p) <= Ingest.LogOf(Apply(env, s, st).intake, p)
  {
  }

  lemma DecidingStepsSettle(env: Env, s: Sys, st: Step)
    requires Enabled(s, st) && (st.IngestRead? || st.IngestInsert? || st.IngestRecheck?)
    ensures var s' := Apply(env, s, st);
            var here := Ingest.PositionOf(s.intake, st.c);
            && s'.intake.log == s.intake.log
            && (forall f :: f in s'.intake.fates && f != here ==> f in s.intake.fates)
            && (here in s'.intake.fates && here !in s.intake.fates ==> Settled(s'.db, Ingest.RecordOf(s.intake, st.c)))
  {
    if st.IngestInsert? {
      var rec, at := Ingest.RecordOf(s.intake, st.c), s.intake.consumers[st.c].phase.at;
      var r := Ingest.Insert(env, s.db, rec, st.i, st.outboxId, at);
      if r.Some? {
        assert r.value.events[|s.db.events|].sourceEvent == Some(rec.eventId);
      }
    }
  }

  lemma StepKeepsSettled(env: Env, s: Sys, st: Step)
    requires Escalation.EscalationOk(s.db) && Escalation.PagesOk(s.db) && Enabled(s, st)
    requires AllSettled(s) && !Closes(env, s, st)
    ensures AllSettled(Apply(env, s, st))
  {
    var s' := Apply(env, s, st);
    StepKeepsOpenRows(env, s, st);
    forall f | f in s'.intake.fates
      ensures f.1 < |Ingest.LogOf(s'.intake, f.0)| && Settled(s'.db, Ingest.LogOf(s'.intake, f.0)[f.1])
    {
      if f in s.intake.fates {
        SettledStays(s.db, s'.db, Ingest.LogOf(s.intake, f.0)[f.1]);
      }
      if st.IngestRead? || st.IngestInsert? || st.IngestRecheck? {
        DecidingStepsSettle(env, s, st);
      } else {
        OtherStepsDecideNothing(env, s, st);
      }
    }
  }

  lemma {:induction false} StaysSettled(env: Env, s: Sys, steps: seq<Step>)
    requires Init(s) && Feasible(env, s, steps) && NothingCloses(env, s, steps)
    ensures AllSettled(Run(env, s, steps))
    decreases |steps|
  {
    if steps != [] {
      var front := steps[..|steps| - 1];
      StaysSettled(env, s, front);
      EscalationHolds(env, s, front);
      StepKeepsSettled(env, Run(env, s, front), steps[|steps| - 1]);
    }
  }

  // ----- a stretch of the log, delivered again -----

  /** The steps that handle a record. */
  predicate Handles(st: Step) {
    st.IngestRead? || st.IngestInsert? || st.IngestRecheck?
  }

  /** Handling is about a record that was handled before, at whatever point of its handling the consumer is. */
  ghost predicate Redelivers(s: Sys, st: Step) {
    Handles(st) ==> st.c in s.intake.consumers && Ingest.PositionOf(s.intake, st.c) in s.intake.fates
  }

  ghost predicate OnlyRedelivers(env: Env, s: Sys, steps: seq<Step>)
    requires Feasible(env, s, steps)
    decreases |steps|
  {
    steps != [] ==>
      var front := steps[..|steps| - 1];
      OnlyRedelivers(env, s, front) && Redelivers(Run(env, s, front), steps[|steps| - 1])
  }

  /** A consumer at a settled record leaves the tables alone: its lookups find the suppressing row, an insert it had
      already decided on is refused, and the check after that explains the refusal, so it never stops. */
  lemma HandledStepChangesNothing(env: Env, s: Sys, st: Step)
    requires AllSettled(s) && Enabled(s, st) && Handles(st) && Redelivers(s, st)
    ensures var t := Apply(env, s, st);
            && t.db == s.db && st.c in t.intake.consumers
            && t.intake.consumers[st.c].phase == if st.IngestInsert? then Ingest.Conflicted else Ingest.Handled
  {
    var at := Ingest.PositionOf(s.intake, st.c);
    assert Settled(s.db, Ingest.LogOf(s.intake, at.0)[at.1]);
  }

  /** The steps of the ingest side, the clock and the producer's included. */
  predicate IngestSide(st: Step) {
    Handles(st) || st.Tick? || st.Produce? || st.Join? || st.CommitOffset? || st.CrashConsumer?
  }

  lemma IngestSideStep(env: Env, s: Sys, st: Step)
    requires AllSettled(s) && Enabled(s, st) && IngestSide(st) && Redelivers(s, st)
    ensures Apply(env, s, st).db == s.db
  {
    if Handles(st) {
      HandledStepChangesNothing(env, s, st);
    }
  }

  lemma SameTablesCloseNothing(env: Env, s: Sys, st: Step)
    requires Enabled(s, st) && Apply(env, s, st).db == s.db
    ensures !Closes(env, s, st)
  {
  }

  lemma {:induction false} StretchKeeps(env: Env, s: Sys, steps: seq<Step>)
    requires Sound(s.db) && AllSettled(s) && Feasible(env, s, steps) && OnlyRedelivers(env, s, steps)
    requires forall k :: 0 <= k < |steps| ==> IngestSide(steps[k])
    ensures Run(env, s, steps).db == s.db && AllSettled(Run(env, s, steps))
    decreases |steps|
  {
    if steps != [] {
      var front, st := steps[..|steps| - 1], steps[|steps| - 1];
      StretchKeeps(env, s, front);
      var m := Run(env, s, front);
      assert IngestSide(st);
      IngestSideStep(env, m, st);
      SameTablesCloseNothing(env, m, st);
      StepKeepsSettled(env, m, st);
    }
  }

  ghost predicate Sound(db: Db) {
    Escalation.EscalationOk(db) && Escalation.PagesOk(db)
  }

  /** After any run in which nothing closes an incident, replaying any stretch of the log that has been handled, by
      however many consumers, with joins, crashes, commits and half-done handling in any order, changes no table. */
  lemma ReplayChangesNothing(env: Env, s: Sys, past: seq<Step>, replay: seq<Step>)
    requires Init(s) && Feasible(env, s, past) && NothingCloses(env, s, past)
    requires Feasible(env, Run(env, s, past), replay) && OnlyRedelivers(env, Run(env, s, past), replay)
    requires forall k :: 0 <= k < |replay| ==> IngestSide(replay[k])
    ensures Run(env, Run(env, s, past), replay).db == Run(env, s, past).db
  {
    StaysSettled(env, s, past);
    EscalationHolds(env, s, past);
    StretchKeeps(env, Run(env, s, past), replay);
  }

  /** No handling step in the run changes a table. */
  ghost predicate HandlingIsSilent(env: Env, s: Sys, steps: seq<Step>)
    requires Feasible(env, s, steps)
    decreases |steps|
  {
    steps != [] ==>
      var front, st := steps[..|steps| - 1], steps[|steps| - 1];
      var m := Run(env, s, front);
      HandlingIsSilent(env, s, front) && (Handles(st) ==> Apply(env, m, st).db == m.db)
  }

  /** And with workers, requests and relays at work in between: as long as they too close nothing, no handling
      step changes a table. */
  lemma {:induction false} ReplayAmongOthers(env: Env, s: Sys, steps: seq<Step>)
    requires Inv(s) && AllSettled(s) && Feasible(env, s, steps)
    requires NothingCloses(env, s, steps) && OnlyRedelivers(env, s, steps)
    ensures HandlingIsSilent(env, s, steps) && AllSettled(Run(env, s, steps))
    decreases |steps|
  {
    if steps != [] {
      var front, st := steps[..|steps| - 1], steps[|steps| - 1];
      ReplayAmongOthers(env, s, front);
      RunKeepsInv(env, s, front);
      EscalationPart(Run(env, s, front));
      if Handles(st) {
        HandledStepChangesNothing(env, Run(env, s, front), st);
      }
      StepKeepsSettled(env, Run(env, s, front), st);
    }
  }

  /** A record whose event id was never used, suppressed only by an open incident that has since been
      resolved, makes an incident when it is handled again. */
  lemma ReplayAfterCloseCreates(env: Env, s: Sys, c: Id, i: Id, r: Id, j: Id, o: Id)
    requires Ingest.HasRecord(s.intake, c) && s.intake.consumers[c].phase.Ready?
    requires Ingest.RecordOf(s.intake, c).Anomaly?
    requires !Ingest.EventSeen(s.db.events, Ingest.RecordOf(s.intake, c).eventId)
    requires Ingest.OpenKeysOk(s.db.incidents) && i in s.db.incidents && Active(s.db.incidents[i].status)
    requires s.db.incidents[i].dedupKey == Ingest.RecordOf(s.intake, c).dedupKey
    requires r !in s.looks && j !in s.db.incidents && o !in s.db.outbox
    requires forall p :: p in s.db.outbox ==> s.db.outbox[p].incident in s.db.incidents
    ensures Apply(env, s, IngestRead(c)).intake.consumers[c].phase.Handled?
    ensures Enabled(s, Look(r, i, Escalation.HttpResolve))
    ensures var s1 := Apply(env, s, Look(r, i, Escalation.HttpResolve));
            Enabled(s1, Close(r))
            && var s2 := Apply(env, s1, Close(r));
            Enabled(s2, IngestRead(c))
            && var s3 := Apply(env, s2, IngestRead(c));
            Enabled(s3, IngestInsert(c, j, o))
            && j in Apply(env, s3, IngestInsert(c, j, o)).db.incidents
  {
    Suppressed(env, s, c, i);
    var s1 := Apply(env, s, Look(r, i, Escalation.HttpResolve));
    ResolveFreesKey(s.db, s1.looks[r], s1.now, Ingest.RecordOf(s.intake, c));
    ReadThenInsert(env, Apply(env, s1, Close(r)), c, j, o);
  }

  lemma ReadThenInsert(env: Env, s: Sys, c: Id, j: Id, o: Id)
    requires Ingest.HasRecord(s.intake, c) && s.intake.consumers[c].phase.Ready?
    requires !Settled(s.db, Ingest.RecordOf(s.intake, c)) && j !in s.db.incidents && o !in s.db.outbox
    requires forall p :: p in s.db.outbox ==> s.db.outbox[p].incident in s.db.incidents
    ensures Enabled(s, IngestRead(c))
    ensures var t := Apply(env, s, IngestRead(c));
            Enabled(t, IngestInsert(c, j, o)) && j in Apply(env, t, IngestInsert(c, j, o)).db.incidents
  {
    ReadMoves(env, s, c);
    InsertsIff(env, Apply(env, s, IngestRead(c)), c, j, o);
  }

  /** An open incident with the record's key suppresses it. */
  lemma Suppressed(env: Env, s: Sys, c: Id, i: Id)
    requires Ingest.HasRecord(s.intake, c) && s.intake.consumers[c].phase.Ready?
    requires Ingest.RecordOf(s.intake, c).Anomaly?
    requires i in s.db.incidents && Active(s.db.incidents[i].status)
    requires s.db.incidents[i].dedupKey == Ingest.RecordOf(s.intake, c).dedupKey
    ensures Ingest.OpenExists(s.db.incidents, Ingest.RecordOf(s.intake, c).dedupKey)
    ensures Apply(env, s, IngestRead(c)).intake.consumers[c].phase.Handled?
  {
  }

  lemma ReadMoves(env: Env, s: Sys, c: Id)
    requires Ingest.HasRecord(s.intake, c) && s.intake.consumers[c].phase.Ready?
    requires Ingest.RecordOf(s.intake, c).Anomaly?
    requires var rec := Ingest.RecordOf(s.intake, c);
             !Ingest.EventSeen(s.db.events, rec.eventId) && !Ingest.OpenExists(s.db.incidents, rec.dedupKey)
    ensures var t := Apply(env, s, IngestRead(c));
            && t.db == s.db && Ingest.HasRecord(t.intake, c)
            && Ingest.RecordOf(t.intake, c) == Ingest.RecordOf(s.intake, c)
            && t.intake.consumers[c].phase == Ingest.Checked(s.now)
  {
  }

  /** A consumer's insert goes through if and only if the record is not settled at that moment. */
  lemma InsertsIff(env: Env, s: Sys, c: Id, j: Id, o: Id)
    requires Enabled(s, IngestInsert(c, j, o))
    requires forall p :: p in s.db.outbox ==> s.db.outbox[p].incident in s.db.incidents
    ensures j in Apply(env, s, IngestInsert(c, j, o)).db.incidents <==> !Settled(s.db, Ingest.RecordOf(s.intake, c))
  {
    assert !KeyTaken(s.db.outbox, j, 0);
  }

  lemma ResolveFreesKey(db: Db, seen: Escalation.Seen, now: Time, rec: Ingest.Record)
    requires rec.Anomaly? && seen.incident in db.incidents && seen.action.HttpResolve? && Active(seen.status)
    requires Active(db.incidents[seen.incident].status) && db.incidents[seen.incident].dedupKey == rec.dedupKey
    requires Ingest.OpenKeysOk(db.incidents) && !Ingest.EventSeen(db.events, rec.eventId)
    ensures var d := Escalation.CloseWrite(db, seen, now);
            !Ingest.OpenExists(d.incidents, rec.dedupKey) && !Ingest.EventSeen(d.events, rec.eventId)
  {
    var d := Escalation.CloseWrite(db, seen, now);
    assert forall k :: 0 <= k < |db.events| ==> d.events[k] == db.events[k];
  }
}
