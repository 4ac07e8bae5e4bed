/** Deltas against full views: on a gap-free stream in commit order the browser holds, for every incident
    it knows, exactly the view the server would build. */
module Mirror {
  import opened Model
  import opened Live
  import Escalation

  /** A committed row change with the announcement its writer publishes, or a periodic re-anchor. */
  datatype Commit =
    | Create(i: Id, row: Incident)
    | Advance(i: Id, tr: Escalation.Transition, now: Time)
    | Ack(i: Id, now: Time)
    | Resolve(i: Id, now: Time)
    | Timers(listed: seq<Id>)
    | Beat

  /** Statuses listed by the connect snapshot and by timer snapshots. */
  predicate Listed(s: Status) {
    Active(s) || s.CriticalUnresolved?
  }

  ghost predicate Possible(rows: map<Id, Incident>, c: Commit) {
    match c
    case Create(i, row) => i !in rows && Escalation.RowOk(row) && row.status.AwaitingOperator?
    case Advance(i, tr, _) =>
      i in rows && Escalation.TransitionFor(rows[i].status, rows[i].currentTier) == Some(tr)
    case Ack(i, _) => i in rows && Active(rows[i].status)
    case Resolve(i, _) => i in rows && (Active(rows[i].status) || rows[i].status.Acknowledged?)
    case Timers(listed) => forall k :: 0 <= k < |listed| ==> listed[k] in rows && Listed(rows[listed[k]].status)
    case Beat => true
  }

  function After(env: Env, rows: map<Id, Incident>, c: Commit): map<Id, Incident>
    requires Possible(rows, c)
  {
    match c
    case Create(i, row) => rows[i := row]
    case Advance(i, tr, now) => rows[i := Escalation.AdvancedRow(env, rows[i], tr, now)]
    case Ack(i, now) =>
      rows[i := Escalation.ClosedRow(rows[i], Escalation.Look(i, rows[i], Escalation.HttpAck, now))]
    case Resolve(i, now) =>
      rows[i := Escalation.ClosedRow(rows[i], Escalation.Look(i, rows[i], Escalation.HttpResolve, now))]
    case Timers(_) => rows
    case Beat => rows
  }

  function TimerRows(rows: map<Id, Incident>, listed: seq<Id>): seq<TimerRow>
    requires forall k :: 0 <= k < |listed| ==> listed[k] in rows
  {
    seq(|listed|, k requires 0 <= k < |listed| =>
      TimerRow(listed[k], rows[listed[k]].deadlineAt, rows[listed[k]].currentTier))
  }

  /** What is broadcast, from the row as committed. */
  function Announced(env: Env, rows: map<Id, Incident>, c: Commit): Payload
    requires Possible(rows, c)
  {
    match c
    case Create(i, row) => BuildData(ChangeCreated, i, row)
    case Advance(i, _, _) => BuildData(ChangeTierAdvanced, i, After(env, rows, c)[i])
    case Ack(i, _) => BuildData(ChangeUpdated, i, After(env, rows, c)[i])
    case Resolve(i, _) => BuildData(ChangeResolved, i, After(env, rows, c)[i])
    case Timers(listed) => TimerSnapshot(TimerRows(rows, listed))
    case Beat => Heartbeat
  }

  /** Row invariant of unraced runs: the tables' own, and tier 3 only when critical. */
  ghost predicate RowsOk(rows: map<Id, Incident>) {
    forall i :: i in rows ==>
      Escalation.RowOk(rows[i]) && (rows[i].currentTier >= 3 ==> rows[i].status.CriticalUnresolved?)
  }

  ghost predicate Mirrors(rows: map<Id, Incident>, known: map<Id, View>) {
    forall i :: i in known ==> i in rows && known[i] == BuildView(i, rows[i])
  }

  /** Every known incident is shown as its row has it, column by column. */
  ghost predicate ShowsRows(rows: map<Id, Incident>, known: map<Id, View>) {
    forall i :: i in known ==> i in rows && ShowsRow(known[i], i, rows[i])
  }

  lemma MirrorsShow(rows: map<Id, Incident>, known: map<Id, View>)
    ensures Mirrors(rows, known) <==> ShowsRows(rows, known)
  {
    forall i | i in known && i in rows ensures known[i] == BuildView(i, rows[i]) <==> ShowsRow(known[i], i, rows[i]) {
      ViewShowsRow(known[i], i, rows[i]);
    }
  }

  // ----- each delta, exactly -----

  /** The columns no delta carries. */
  predicate SameFixed(v: View, i: Id, row: Incident) {
    v.(status := row.status, currentTier := row.currentTier, deadlineAt := row.deadlineAt,
       tierLabel := TierLabelFor(row.status, row.currentTier)) == BuildView(i, row)
  }

  /** A tier_advanced delta brings a known entry up to date exactly when the labels agree. */
  lemma AdvancedDeltaSyncsIff(known: map<Id, View>, i: Id, row: Incident)
    requires i in known && SameFixed(known[i], i, row)
    ensures ApplyPayload(known, BuildData(ChangeTierAdvanced, i, row))[i] == BuildView(i, row)
            <==> row.status.CriticalUnresolved? || row.currentTier <= 2
  {
    LabelsAgreeIff(row.status, row.currentTier);
  }

  /** A resolved delta does exactly when the row is resolved without deadline, at the tier already known,
      and that tier is at most 2. */
  lemma ResolvedDeltaSyncsIff(known: map<Id, View>, i: Id, row: Incident)
    requires i in known && SameFixed(known[i], i, row)
    ensures ApplyPayload(known, BuildData(ChangeResolved, i, row))[i] == BuildView(i, row)
            <==> row.status.Resolved? && row.deadlineAt.None? && known[i].currentTier == row.currentTier
                 && row.currentTier <= 2
  {
    LabelsAgreeIff(Resolved, row.currentTier);
  }

  // ----- timers and snapshots -----

  lemma {:induction false} TimersChangeNothing(rows: map<Id, Incident>, known: map<Id, View>, listed: seq<Id>)
    requires Mirrors(rows, known) && (forall k :: 0 <= k < |listed| ==> listed[k] in rows)
    ensures PatchTimers(known, TimerRows(rows, listed)) == known
    decreases |listed|
  {
    if listed != [] {
      var n := |listed| - 1;
      assert TimerRows(rows, listed)[..n] == TimerRows(rows, listed[..n]);
      TimersChangeNothing(rows, known, listed[..n]);
    }
  }

  /** A connect snapshot makes the listed incidents known, at their views. */
  lemma {:induction false} SnapshotMirrors(rows: map<Id, Incident>, listed: seq<Id>)
    requires forall k :: 0 <= k < |listed| ==> listed[k] in rows
    ensures Mirrors(rows, FromSnapshot(ViewsOf(rows, listed)))
    ensures forall i :: i in FromSnapshot(ViewsOf(rows, listed)) <==> i in listed
    decreases |listed|
  {
    if listed != [] {
      var n := |listed| - 1;
      assert ViewsOf(rows, listed)[..n] == ViewsOf(rows, listed[..n]);
      SnapshotMirrors(rows, listed[..n]);
    }
  }

  /** The connect snapshot lists the incidents that are open or CRITICAL_UNRESOLVED: a browser that connects knows
      exactly these, as their rows are. */
  lemma ConnectShowsOpen(rows: map<Id, Incident>, listed: seq<Id>)
    requires forall i :: i in listed <==> i in rows && Listed(rows[i].status)
    ensures var known := FromSnapshot(ViewsOf(rows, listed));
            && ShowsRows(rows, known)
            && forall i :: i in known
                 <==> i in rows && rows[i].status in {AwaitingOperator, Tier1, Tier2, CriticalUnresolved}
  {
    SnapshotMirrors(rows, listed);
    MirrorsShow(rows, FromSnapshot(ViewsOf(rows, listed)));
  }

  /** A timer snapshot gives every listed entry the tier and deadline of the rows read, and leaves the others alone. */
  lemma {:induction false} TimersPatch(read: map<Id, Incident>, known: map<Id, View>, listed: seq<Id>)
    requires forall k :: 0 <= k < |listed| ==> listed[k] in read
    ensures var known' := PatchTimers(known, TimerRows(read, listed));
            && known'.Keys == known.Keys
            && forall i :: i in known ==>
                 known'[i] == if i in listed
                              then known[i].(deadlineAt := read[i].deadlineAt, currentTier := read[i].currentTier)
                              else known[i]
    decreases |listed|
  {
    if listed != [] {
      var n := |listed| - 1;
      assert TimerRows(read, listed)[..n] == TimerRows(read, listed[..n]);
      TimersPatch(read, known, listed[..n]);
    }
  }

  /** A timer snapshot, too, is read before it is sent: it keeps a browser that mirrors the rows if and only if every
      listed incident it knows still has the deadline and the tier that were read. */
  lemma StaleTimersKeepIff(read: map<Id, Incident>, rows: map<Id, Incident>, known: map<Id, View>, listed: seq<Id>)
    requires Mirrors(rows, known) && forall k :: 0 <= k < |listed| ==> listed[k] in read
    ensures Mirrors(rows, PatchTimers(known, TimerRows(read, listed)))
            <==> forall i :: i in listed && i in known ==>
                   read[i].deadlineAt == rows[i].deadlineAt && read[i].currentTier == rows[i].currentTier
  {
    TimersPatch(read, known, listed);
    var known' := PatchTimers(known, TimerRows(read, listed));
    forall i | i in listed && i in known
      ensures known'[i] == BuildView(i, rows[i])
              <==> read[i].deadlineAt == rows[i].deadlineAt && read[i].currentTier == rows[i].currentTier
    {
      assert known[i] == BuildView(i, rows[i]);
    }
  }

  /** The case: a snapshot of a running incident, sent after its resolution has been announced, leaves a resolved
      entry with a deadline. */
  lemma StaleTimerAfterResolve(env: Env, rows: map<Id, Incident>, known: map<Id, View>, i: Id, now: Time)
    requires RowsOk(rows) && Mirrors(rows, known) && i in known && Active(rows[i].status) && rows[i].deadlineAt.Some?
    ensures Possible(rows, Resolve(i, now))
    ensures var c := Resolve(i, now);
            var told := ApplyPayload(known, Announced(env, rows, c));
            var shown := PatchTimers(told, TimerRows(rows, [i]));
            && Mirrors(After(env, rows, c), told) && !Mirrors(After(env, rows, c), shown)
            && i in shown && shown[i].status.Resolved? && shown[i].deadlineAt == rows[i].deadlineAt
  {
    var c := Resolve(i, now);
    assert Escalation.RowOk(rows[i]);
    ResolvedRow(rows[i], i, now, After(env, rows, c)[i]);
    ResolvedPatch(known, i, After(env, rows, c)[i]);
    CommitMirrors(env, rows, known, c);
    StaleTimerSpoils(rows, After(env, rows, c), ApplyPayload(known, Announced(env, rows, c)), i);
  }

  lemma StaleTimerSpoils(read: map<Id, Incident>, rows: map<Id, Incident>, known: map<Id, View>, i: Id)
    requires Mirrors(rows, known) && i in known && i in read && read[i].deadlineAt != rows[i].deadlineAt
    ensures var shown := PatchTimers(known, TimerRows(read, [i]));
            && !Mirrors(rows, shown)
            && i in shown && shown[i].status == rows[i].status && shown[i].deadlineAt == read[i].deadlineAt
  {
    TimersPatch(read, known, [i]);
    StaleTimersKeepIff(read, rows, known, [i]);
    assert i in [i] && known[i] == BuildView(i, rows[i]);
  }

  /** The connect snapshot is read before it is sent, and rows may change in between: it mirrors the rows as
      they stand when it is sent exactly when no listed incident's view has changed since the read. */
  lemma SnapshotIsCurrentIff(read: map<Id, Incident>, sent: map<Id, Incident>, listed: seq<Id>)
    requires forall k :: 0 <= k < |listed| ==> listed[k] in read
    ensures Mirrors(sent, FromSnapshot(ViewsOf(read, listed)))
            <==> forall i :: i in listed ==> i in sent && BuildView(i, sent[i]) == BuildView(i, read[i])
  {
    SnapshotMirrors(read, listed);
    var known := FromSnapshot(ViewsOf(read, listed));
    assert forall i :: i in listed ==> i in known && known[i] == BuildView(i, read[i]);
  }

  // ----- one commit -----

  lemma CommitKeepsRows(env: Env, rows: map<Id, Incident>, c: Commit)
    requires RowsOk(rows) && Possible(rows, c)
    ensures RowsOk(After(env, rows, c))
  {
  }

  function Learned(c: Commit): set<Id> {
    match c
    case Create(i, _) => {i}
    case Ack(i, _) => {i}
    case _ => {}
  }

  lemma AdvanceMirrors(env: Env, rows: map<Id, Incident>, known: map<Id, View>, c: Commit)
    requires RowsOk(rows) && Possible(rows, c) && Mirrors(rows, known) && c.Advance?
    ensures Mirrors(After(env, rows, c), ApplyPayload(known, Announced(env, rows, c)))
  {
    if c.i in known {
      assert known[c.i] == BuildView(c.i, rows[c.i]);
      AdvancedDeltaSyncsIff(known, c.i, After(env, rows, c)[c.i]);
    }
  }

  lemma ResolveMirrors(env: Env, rows: map<Id, Incident>, known: map<Id, View>, c: Commit)
    requires RowsOk(rows) && Possible(rows, c) && Mirrors(rows, known) && c.Resolve?
    ensures Mirrors(After(env, rows, c), ApplyPayload(known, Announced(env, rows, c)))
  {
    assert Escalation.RowOk(rows[c.i]);
    var row := After(env, rows, c)[c.i];
    ResolvedRow(rows[c.i], c.i, c.now, row);
    if c.i in known {
      assert known[c.i] == BuildView(c.i, rows[c.i]);
      ResolvedDeltaSyncsIff(known, c.i, row);
    }
    ResolvedPatch(known, c.i, row);
    OneEntryChanges(rows, After(env, rows, c), known, ApplyPayload(known, BuildData(ChangeResolved, c.i, row)), c.i);
  }

  lemma ResolvedRow(was: Incident, i: Id, now: Time, row: Incident)
    requires Escalation.RowOk(was) && (was.currentTier >= 3 ==> was.status.CriticalUnresolved?)
    requires Active(was.status) || was.status.Acknowledged?
    requires row == Escalation.ClosedRow(was, Escalation.Look(i, was, Escalation.HttpResolve, now))
    ensures row.status.Resolved? && row.deadlineAt.None? && row.currentTier == was.currentTier <= 2
    ensures SameFixed(BuildView(i, was), i, row)
  {
  }

  lemma ResolvedPatch(known: map<Id, View>, i: Id, row: Incident)
    ensures var known' := ApplyPayload(known, BuildData(ChangeResolved, i, row));
            known'.Keys == known.Keys && forall j :: j in known && j != i ==> known'[j] == known[j]
  {
  }

  lemma OneEntryChanges(rows: map<Id, Incident>, rows': map<Id, Incident>, known: map<Id, View>, known': map<Id, View>,
                        i: Id)
    requires Mirrors(rows, known) && i in rows' && known'.Keys == known.Keys
    requires i in known ==> known'[i] == BuildView(i, rows'[i])
    requires forall j :: j in rows && j != i ==> j in rows' && rows'[j] == rows[j]
    requires forall j :: j in known && j != i ==> known'[j] == known[j]
    ensures Mirrors(rows', known')
  {
  }

  lemma RestMirrors(env: Env, rows: map<Id, Incident>, known: map<Id, View>, c: Commit)
    requires Possible(rows, c) && Mirrors(rows, known) && !c.Advance? && !c.Resolve?
    ensures Mirrors(After(env, rows, c), ApplyPayload(known, Announced(env, rows, c)))
  {
    if c.Timers? {
      TimersChangeNothing(rows, known, c.listed);
    }
  }

  lemma CommitLearns(env: Env, rows: map<Id, Incident>, known: map<Id, View>, c: Commit)
    requires Possible(rows, c) && Mirrors(rows, known)
    ensures ApplyPayload(known, Announced(env, rows, c)).Keys == known.Keys + Learned(c)
  {
    if c.Timers? {
      TimersChangeNothing(rows, known, c.listed);
    }
  }

  /** Any change announced from the row as committed keeps a browser that shows the rows showing them. */
  lemma CommitMirrors(env: Env, rows: map<Id, Incident>, known: map<Id, View>, c: Commit)
    requires RowsOk(rows) && Possible(rows, c) && Mirrors(rows, known)
    ensures Mirrors(After(env, rows, c), ApplyPayload(known, Announced(env, rows, c)))
    ensures ShowsRows(After(env, rows, c), ApplyPayload(known, Announced(env, rows, c)))
  {
    MirrorsShow(After(env, rows, c), ApplyPayload(known, Announced(env, rows, c)));
    if c.Advance? {
      AdvanceMirrors(env, rows, known, c);
    } else if c.Resolve? {
      ResolveMirrors(env, rows, known, c);
    } else {
      RestMirrors(env, rows, known, c);
    }
  }

  // ----- whole streams -----

  ghost predicate AllPossible(env: Env, rows: map<Id, Incident>, commits: seq<Commit>)
    decreases |commits|, 0
  {
    commits != [] ==>
      AllPossible(env, rows, commits[..|commits| - 1])
      && Possible(AfterAll(env, rows, commits[..|commits| - 1]), commits[|commits| - 1])
  }

  ghost function AfterAll(env: Env, rows: map<Id, Incident>, commits: seq<Commit>): map<Id, Incident>
    requires AllPossible(env, rows, commits)
    decreases |commits|, 1
  {
    if commits == [] then rows
    else After(env, AfterAll(env, rows, commits[..|commits| - 1]), commits[|commits| - 1])
  }

  ghost function LearnedAll(commits: seq<Commit>): set<Id> {
    if commits == [] then {} else LearnedAll(commits[..|commits| - 1]) + Learned(commits[|commits| - 1])
  }

  /** The stream a connection sees: one envelope per commit, numbered on from `last`. */
  ghost predicate Streams(env: Env, rows: map<Id, Incident>, commits: seq<Commit>, last: nat, envs: seq<Envelope>)
    requires AllPossible(env, rows, commits)
    decreases |commits|
  {
    |envs| == |commits| &&
    (commits != [] ==>
       var n := |commits| - 1;
       && Streams(env, rows, commits[..n], last, envs[..n])
       && envs[n].seqNo == last + n + 1
       && envs[n].payload == Announced(env, AfterAll(env, rows, commits[..n]), commits[n]))
  }

  lemma TakesNext(state: LiveState, e: Envelope)
    requires state.lastSeq >= 1 && e.seqNo == state.lastSeq + 1 && !e.payload.Snapshot?
    ensures var r := Reduce(state, e);
            && r.applied && !r.gap && r.state.lastSeq == e.seqNo
            && r.state.incidents == ApplyPayload(state.incidents, e.payload)
  {
  }

  lemma {:induction false} StreamEnds(env: Env, rows: map<Id, Incident>, commits: seq<Commit>,
                                      state: LiveState, envs: seq<Envelope>)
    requires AllPossible(env, rows, commits) && state.lastSeq >= 1
    requires Streams(env, rows, commits, state.lastSeq, envs)
    ensures ReduceAll(state, envs).lastSeq == state.lastSeq + |commits|
    decreases |commits|
  {
    if commits != [] {
      var n := |commits| - 1;
      StreamEnds(env, rows, commits[..n], state, envs[..n]);
      TakesNext(ReduceAll(state, envs[..n]), envs[n]);
    }
  }

  lemma {:induction false} StreamIsGapFree(env: Env, rows: map<Id, Incident>, commits: seq<Commit>,
                                           state: LiveState, envs: seq<Envelope>, k: nat)
    requires AllPossible(env, rows, commits) && state.lastSeq >= 1 && k < |envs|
    requires Streams(env, rows, commits, state.lastSeq, envs)
    ensures var r := Reduce(ReduceAll(state, envs[..k]), envs[k]); r.applied && !r.gap
    decreases |commits|
  {
    var n := |commits| - 1;
    if k < n {
      assert envs[..n][..k] == envs[..k];
      StreamIsGapFree(env, rows, commits[..n], state, envs[..n], k);
    } else {
      StreamEnds(env, rows, commits[..n], state, envs[..n]);
      TakesNext(ReduceAll(state, envs[..n]), envs[n]);
    }
  }

  /** The last envelope is applied to what the others left. */
  lemma LastIsApplied(env: Env, rows: map<Id, Incident>, commits: seq<Commit>, state: LiveState, envs: seq<Envelope>)
    requires AllPossible(env, rows, commits) && state.lastSeq >= 1 && commits != []
    requires Streams(env, rows, commits, state.lastSeq, envs)
    ensures var n := |commits| - 1;
            ReduceAll(state, envs).incidents
            == ApplyPayload(ReduceAll(state, envs[..n]).incidents,
                            Announced(env, AfterAll(env, rows, commits[..n]), commits[n]))
  {
    StreamEnds(env, rows, commits[..|commits| - 1], state, envs[..|commits| - 1]);
  }

  /** Over any stream of commits announced once each and in order, the browser's entries are exactly the
      server's views. */
  lemma {:induction false} StreamMirrors(env: Env, rows: map<Id, Incident>, commits: seq<Commit>,
                                         state: LiveState, envs: seq<Envelope>)
    requires RowsOk(rows) && AllPossible(env, rows, commits) && state.lastSeq >= 1
    requires Mirrors(rows, state.incidents) && Streams(env, rows, commits, state.lastSeq, envs)
    ensures RowsOk(AfterAll(env, rows, commits))
    ensures Mirrors(AfterAll(env, rows, commits), ReduceAll(state, envs).incidents)
    ensures ShowsRows(AfterAll(env, rows, commits), ReduceAll(state, envs).incidents)
    decreases |commits|
  {
    MirrorsShow(AfterAll(env, rows, commits), ReduceAll(state, envs).incidents);
    if commits != [] {
      var n := |commits| - 1;
      StreamMirrors(env, rows, commits[..n], state, envs[..n]);
      LastIsApplied(env, rows, commits, state, envs);
      CommitKeepsRows(env, AfterAll(env, rows, commits[..n]), commits[n]);
      CommitMirrors(env, AfterAll(env, rows, commits[..n]), ReduceAll(state, envs[..n]).incidents, commits[n]);
    }
  }

  /** It knows what it knew before and what was created or acknowledged since. */
  lemma {:induction false} StreamLearns(env: Env, rows: map<Id, Incident>, commits: seq<Commit>,
                                        state: LiveState, envs: seq<Envelope>)
    requires RowsOk(rows) && AllPossible(env, rows, commits) && state.lastSeq >= 1
    requires Mirrors(rows, state.incidents) && Streams(env, rows, commits, state.lastSeq, envs)
    ensures ReduceAll(state, envs).incidents.Keys == state.incidents.Keys + LearnedAll(commits)
    decreases |commits|
  {
    if commits != [] {
      var n := |commits| - 1;
      StreamLearns(env, rows, commits[..n], state, envs[..n]);
      StreamMirrors(env, rows, commits[..n], state, envs[..n]);
      LastIsApplied(env, rows, commits, state, envs);
      CommitLearns(env, AfterAll(env, rows, commits[..n]), ReduceAll(state, envs[..n]).incidents, commits[n]);
    }
  }
}
