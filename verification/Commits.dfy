/** The protocol and the live view together: what the processes do to the incident table is a sequence of the
    committed changes that the mirror is about, up to the claim columns, which no view shows. */
module Commits {
  import opened Model
  import opened Protocol
  import opened Live
  import opened Mirror
  import Convergence
  import Escalation
  import Guarantees
  import Ingest

  predicate SameButClaims(a: map<Id, Incident>, b: map<Id, Incident>) {
    && a.Keys == b.Keys
    && forall i :: i in a ==> b[i] == a[i].(claimedBy := b[i].claimedBy, claimedUntil := b[i].claimedUntil)
  }

  // ----- one step -----

  /** What a step commits, if it changes more than claims. */
  ghost function CommitOf(s: Sys, st: Step, env: Env): Option<Commit>
    requires Enabled(s, st)
  {
    match st
    case Fire(_, i, _) =>
      var row := s.db.incidents[i];
      if !Escalation.PassesRecheck(row) then None
      else (match Escalation.TransitionFor(row.status, row.currentTier)
            case None => None
            case Some(tr) => Some(Advance(i, tr, s.now)))
    case Close(r) =>
      var seen := s.looks[r];
      (match Escalation.Decide(seen.action, seen.status)
       case NoClose => None
       case ToAcknowledged => Some(Ack(seen.incident, seen.at))
       case ToResolved => Some(Resolve(seen.incident, seen.at)))
    case IngestInsert(c, i, o) =>
      var rec, at := Ingest.RecordOf(s.intake, c), s.intake.consumers[c].phase.at;
      if Ingest.Insert(env, s.db, rec, i, o, at).Some? then Some(Create(i, Ingest.NewIncident(env, rec, at))) else None
    case _ => None
  }

  ghost predicate Committed(env: Env, rows: map<Id, Incident>, c: Option<Commit>, rows': map<Id, Incident>) {
    match c
    case None => SameButClaims(rows, rows')
    case Some(c) => Possible(rows, c) && Convergence.Changes(c) && rows' == After(env, rows, c)
  }

  lemma FireCommits(env: Env, s: Sys, st: Step)
    requires Escalation.EscalationOk(s.db) && Escalation.PagesOk(s.db) && Enabled(s, st) && st.Fire?
    ensures Committed(env, s.db.incidents, CommitOf(s, st, env), Apply(env, s, st).db.incidents)
  {
    FireStepKeeps(env, s, st);
    Escalation.FireAdvances(env, s.db, st.i, st.outboxId, s.now);
    if Escalation.PassesRecheck(s.db.incidents[st.i]) {
      Escalation.FireEffect(env, s.db, st.i, st.outboxId, s.now);
    }
  }

  /** A close that finds the status it read commits what it decided. */
  lemma CloseCommits(env: Env, s: Sys, st: Step)
    requires Escalation.EscalationOk(s.db) && LooksOk(s.db, s.looks)
    requires Enabled(s, st) && st.Close? && Guarantees.Unraced(s, st)
    ensures Committed(env, s.db.incidents, CommitOf(s, st, env), Apply(env, s, st).db.incidents)
  {
    var seen := s.looks[st.r];
    var row := s.db.incidents[seen.incident];
    assert Escalation.RowOk(row);
    match Escalation.Decide(seen.action, seen.status)
    case NoClose =>
      assert Escalation.CloseWrite(s.db, seen, s.now).incidents == s.db.incidents;
    case ToAcknowledged =>
      assert Escalation.ClosedRow(row, seen)
          == Escalation.ClosedRow(row, Escalation.Look(seen.incident, row, Escalation.HttpAck, seen.at));
    case ToResolved =>
      assert Escalation.ClosedRow(row, seen)
          == Escalation.ClosedRow(row, Escalation.Look(seen.incident, row, Escalation.HttpResolve, seen.at));
  }

  lemma InsertCommits(env: Env, s: Sys, st: Step)
    requires Enabled(s, st) && st.IngestInsert?
    ensures Committed(env, s.db.incidents, CommitOf(s, st, env), Apply(env, s, st).db.incidents)
  {
    var rec, at := Ingest.RecordOf(s.intake, st.c), s.intake.consumers[st.c].phase.at;
    var r := Ingest.Insert(env, s.db, rec, st.i, st.outboxId, at);
    NewIncidentCommits(env, s.db.incidents, rec, st.i, at);
    assert Apply(env, s, st).db.incidents == if r.Some? then r.value.incidents else s.db.incidents;
  }

  lemma NewIncidentCommits(env: Env, rows: map<Id, Incident>, rec: Ingest.Record, i: Id, at: Time)
    requires rec.Anomaly? && i !in rows
    ensures var row := Ingest.NewIncident(env, rec, at);
            Possible(rows, Create(i, row)) && After(env, rows, Create(i, row)) == rows[i := row]
  {
  }

  /** Every unraced step commits one change, or none but claims. */
  lemma StepCommits(env: Env, s: Sys, st: Step)
    requires Escalation.EscalationOk(s.db) && Escalation.PagesOk(s.db) && LooksOk(s.db, s.looks)
    requires Enabled(s, st) && Guarantees.Unraced(s, st)
    ensures Committed(env, s.db.incidents, CommitOf(s, st, env), Apply(env, s, st).db.incidents)
  {
    if st.Fire? {
      FireCommits(env, s, st);
    } else if st.Close? {
      CloseCommits(env, s, st);
    } else if st.IngestInsert? {
      InsertCommits(env, s, st);
    } else {
      OnlyClaimsMove(env, s, st);
    }
  }

  // ----- whole runs -----

  ghost function CommitsOf(env: Env, s: Sys, steps: seq<Step>): seq<Commit>
    requires Feasible(env, s, steps)
    decreases |steps|
  {
    if steps == [] then []
    else
      var front := steps[..|steps| - 1];
      CommitsOf(env, s, front)
      + (match CommitOf(Run(env, s, front), steps[|steps| - 1], env)
         case None => []
         case Some(c) => [c])
  }

  lemma CommitAlike(env: Env, a: map<Id, Incident>, b: map<Id, Incident>, c: Commit)
    requires SameButClaims(a, b) && Possible(b, c)
    ensures Possible(a, c) && SameButClaims(After(env, a, c), After(env, b, c))
  {
  }

  lemma OneMoreCommit(env: Env, rows: map<Id, Incident>, commits: seq<Commit>, c: Commit)
    requires AllPossible(env, rows, commits) && Possible(AfterAll(env, rows, commits), c)
    ensures AllPossible(env, rows, commits + [c])
    ensures AfterAll(env, rows, commits + [c]) == After(env, AfterAll(env, rows, commits), c)
  {
    assert (commits + [c])[..|commits|] == commits;
  }

  /** The incidents after any unraced run are what its commits make of an empty table, up to claims. */
  lemma {:induction false} RunIsCommits(env: Env, s: Sys, steps: seq<Step>)
    requires Init(s) && Feasible(env, s, steps) && Guarantees.UnracedRun(env, s, steps)
    ensures AllPossible(env, map[], CommitsOf(env, s, steps))
    ensures SameButClaims(AfterAll(env, map[], CommitsOf(env, s, steps)), Run(env, s, steps).db.incidents)
    decreases |steps|
  {
    if steps != [] {
      var front, st := steps[..|steps| - 1], steps[|steps| - 1];
      RunIsCommits(env, s, front);
      ReachableInv(env, s, front);
      EscalationPart(Run(env, s, front));
      StepCommits(env, Run(env, s, front), st);
      var c := CommitOf(Run(env, s, front), st, env);
      if c.Some? {
        CommitAlike(env, AfterAll(env, map[], CommitsOf(env, s, front)), Run(env, s, front).db.incidents, c.value);
        OneMoreCommit(env, map[], CommitsOf(env, s, front), c.value);
      } else {
        assert CommitsOf(env, s, front) + [] == CommitsOf(env, s, front);
      }
    }
  }

  /** After every unraced run the two sides print the same tier label for every incident. */
  lemma LabelsAgreeAfterRuns(env: Env, s: Sys, steps: seq<Step>, i: Id)
    requires Init(s) && Feasible(env, s, steps) && Guarantees.UnracedRun(env, s, steps)
    requires i in Run(env, s, steps).db.incidents
    ensures var inc := Run(env, s, steps).db.incidents[i];
            TierLabelFor(inc.status, inc.currentTier) == TierLabelFromIncident(inc.currentTier, inc.status)
  {
    Guarantees.AuditIsPath(env, s, steps, i);
    EscalationHolds(env, s, steps);
    assert Escalation.RowOk(Run(env, s, steps).db.incidents[i]);
    var inc := Run(env, s, steps).db.incidents[i];
    LabelsAgreeIff(inc.status, inc.currentTier);
  }

  /** End to end: a browser told of every commit of an unraced run, however late the rows were read, and by harmless
      timer snapshots, shows every incident it knows as the tables have it. */
  lemma BrowserShowsTables(env: Env, s: Sys, steps: seq<Step>, told: nat, items: seq<Convergence.Item>,
                           state: LiveState, envs: seq<Envelope>, i: Id)
    requires Init(s) && Feasible(env, s, steps) && Guarantees.UnracedRun(env, s, steps) && state.lastSeq >= 1
    requires var commits := CommitsOf(env, s, steps);
             && AllPossible(env, map[], commits)
             && Convergence.Settling(env, map[], commits, told, state.incidents)
             && Convergence.Plays(env, map[], commits, told, items, state.lastSeq, envs)
             && Convergence.HarmlessAlong(env, map[], commits, told, items, state, envs)
             && told + Convergence.Told(items) == |commits|
    requires i in ReduceAll(state, envs).incidents
    ensures var rows, shown := Run(env, s, steps).db.incidents, ReduceAll(state, envs).incidents[i];
            && i in rows && rows[i].currentTier <= 3
            && shown.id == i
            && shown.camera == rows[i].facts.camera && shown.zone == rows[i].facts.zone
            && shown.rule == rows[i].facts.rule && shown.anomaly == rows[i].facts.anomaly
            && shown.severity == rows[i].facts.severity && shown.objectClass == rows[i].facts.objectClass
            && shown.status == rows[i].status && shown.currentTier == rows[i].currentTier
            && shown.deadlineAt == rows[i].deadlineAt && shown.openedAt == rows[i].createdAt
            && shown.snapshotUrl == (if rows[i].facts.snapshotUrl == Some("") then None else rows[i].facts.snapshotUrl)
            && shown.tierLabel == ["Operator", "Floor Manager", "Plant Director", "CRITICAL"][rows[i].currentTier]
  {
    var commits := CommitsOf(env, s, steps);
    RunIsCommits(env, s, steps);
    Convergence.Converges(env, map[], commits, told, items, state, envs);
    ShownAlike(AfterAll(env, map[], commits), Run(env, s, steps).db.incidents, ReduceAll(state, envs).incidents, i);
    Guarantees.AuditIsPath(env, s, steps, i);
    EscalationHolds(env, s, steps);
    LabelIsTheTiers(Run(env, s, steps).db.incidents[i]);
  }

  lemma LabelIsTheTiers(row: Incident)
    requires Escalation.RowOk(row) && (row.currentTier >= 3 ==> row.status.CriticalUnresolved?)
    ensures row.currentTier <= 3
    ensures LabelInWords(row) == ["Operator", "Floor Manager", "Plant Director", "CRITICAL"][row.currentTier]
  {
  }

  /** Every incident of the tables was there at the start or has been created by a commit. */
  lemma {:induction false} CreatedByCommit(env: Env, rows: map<Id, Incident>, commits: seq<Commit>, i: Id)
    requires AllPossible(env, rows, commits) && i in AfterAll(env, rows, commits) && i !in rows
    ensures exists k :: 0 <= k < |commits| && commits[k].Create? && commits[k].i == i
    decreases |commits|
  {
    var n := |commits| - 1;
    if i in AfterAll(env, rows, commits[..n]) {
      CreatedByCommit(env, rows, commits[..n], i);
      var k :| 0 <= k < n && commits[..n][k].Create? && commits[..n][k].i == i;
      assert commits[k] == commits[..n][k];
    } else {
      assert commits[n].Create? && commits[n].i == i;
    }
  }

  /** And it knows them all: told of every commit from the first on, it shows exactly the incidents of the tables. */
  lemma BrowserKnowsAll(env: Env, s: Sys, steps: seq<Step>, items: seq<Convergence.Item>, state: LiveState,
                        envs: seq<Envelope>, i: Id)
    requires Init(s) && Feasible(env, s, steps) && Guarantees.UnracedRun(env, s, steps)
    requires state.lastSeq >= 1 && state.incidents == map[]
    requires var commits := CommitsOf(env, s, steps);
             && AllPossible(env, map[], commits)
             && Convergence.Plays(env, map[], commits, 0, items, state.lastSeq, envs)
             && Convergence.Told(items) == |commits|
    ensures i in Run(env, s, steps).db.incidents ==> i in ReduceAll(state, envs).incidents
  {
    var commits := CommitsOf(env, s, steps);
    RunIsCommits(env, s, steps);
    Convergence.LateStreamLearns(env, map[], commits, 0, items, state, envs);
    if i in Run(env, s, steps).db.incidents {
      CreatedByCommit(env, map[], commits, i);
      var k :| 0 <= k < |commits| && commits[k].Create? && commits[k].i == i;
      assert i in Learned(commits[k]);
    }
  }

  lemma ShownAlike(a: map<Id, Incident>, b: map<Id, Incident>, known: map<Id, View>, i: Id)
    requires SameButClaims(a, b) && ShowsRows(a, known) && i in known
    ensures i in b && ShowsRow(known[i], i, b[i])
  {
  }
}
