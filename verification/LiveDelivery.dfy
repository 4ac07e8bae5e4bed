/** Channel and mirror together: what a browser shows after a lossy stretch of its stream. */
module LiveDelivery {
  import opened Model
  import opened Escalation
  import opened Live
  import opened Mirror
  import opened Channel
  import opened Convergence

  lemma {:induction false} StreamsPrefix(env: Env, rows: map<Id, Incident>, commits: seq<Commit>, last: nat,
                                         envs: seq<Envelope>, m: nat)
    requires AllPossible(env, rows, commits) && Streams(env, rows, commits, last, envs) && m <= |commits|
    ensures AllPossible(env, rows, commits[..m]) && Streams(env, rows, commits[..m], last, envs[..m])
    decreases |commits|
  {
    var n := |commits| - 1;
    if m == |commits| {
      assert commits[..m] == commits && envs[..m] == envs;
    } else {
      StreamsPrefix(env, rows, commits[..n], last, envs[..n], m);
      assert commits[..n][..m] == commits[..m] && envs[..n][..m] == envs[..m];
    }
  }

  /** A browser anchored at number s and shown no gap holds exactly the server's views as of some commit it
      has been told about, however its arrivals were dropped, repeated or reordered after that commit. */
  lemma UnflaggedMirrors(env: Env, rows: map<Id, Incident>, commits: seq<Commit>, wire: seq<Envelope>,
                         state: LiveState, arrived: seq<Envelope>)
      returns (m: nat)
    requires RowsOk(rows) && AllPossible(env, rows, commits)
    requires Numbered(wire) && 1 <= state.lastSeq <= |wire|
    requires Streams(env, rows, commits, state.lastSeq, wire[state.lastSeq..])
    requires Mirrors(rows, state.incidents)
    requires FromWire(wire, arrived) && NoSnapshot(arrived) && !GapFlagged(state, arrived)
    ensures m <= |commits| && ReduceAll(state, arrived).lastSeq == state.lastSeq + m
    ensures AllPossible(env, rows, commits[..m])
    ensures Mirrors(AfterAll(env, rows, commits[..m]), ReduceAll(state, arrived).incidents)
    ensures ShowsRows(AfterAll(env, rows, commits[..m]), ReduceAll(state, arrived).incidents)
  {
    m := AppliedStretch(wire, state, arrived);
    PrefixMirrors(env, rows, commits, state, wire[state.lastSeq..], m);
    MirrorsShow(AfterAll(env, rows, commits[..m]), ReduceAll(state, arrived).incidents);
  }

  lemma AppliedStretch(wire: seq<Envelope>, state: LiveState, arrived: seq<Envelope>) returns (m: nat)
    requires Numbered(wire) && 1 <= state.lastSeq <= |wire|
    requires FromWire(wire, arrived) && NoSnapshot(arrived) && !GapFlagged(state, arrived)
    ensures m <= |wire[state.lastSeq..]| && ReduceAll(state, arrived).lastSeq == state.lastSeq + m
    ensures ReduceAll(state, arrived) == ReduceAll(state, wire[state.lastSeq..][..m])
  {
    NoFlagNoLoss(wire, state, arrived);
    m := ReduceAll(state, arrived).lastSeq - state.lastSeq;
    StretchOfRest(wire, state.lastSeq, m);
  }

  lemma StretchOfRest(wire: seq<Envelope>, s: nat, m: nat)
    requires s + m <= |wire|
    ensures wire[s..][..m] == wire[s..s + m]
  {
  }

  lemma PrefixMirrors(env: Env, rows: map<Id, Incident>, commits: seq<Commit>, state: LiveState, envs: seq<Envelope>,
                      m: nat)
    requires RowsOk(rows) && AllPossible(env, rows, commits) && state.lastSeq >= 1 && m <= |envs|
    requires Streams(env, rows, commits, state.lastSeq, envs) && Mirrors(rows, state.incidents)
    ensures m <= |commits| && AllPossible(env, rows, commits[..m])
    ensures Mirrors(AfterAll(env, rows, commits[..m]), ReduceAll(state, envs[..m]).incidents)
  {
    StreamsPrefix(env, rows, commits, state.lastSeq, envs, m);
    StreamMirrors(env, rows, commits[..m], state, envs[..m]);
  }

  // ----- with rows read late -----

  lemma {:induction false} PlaysPrefix(env: Env, rows: map<Id, Incident>, commits: seq<Commit>, told: nat,
                                       items: seq<Item>, state: LiveState, envs: seq<Envelope>, m: nat)
    requires AllPossible(env, rows, commits) && m <= |items|
    requires Plays(env, rows, commits, told, items, state.lastSeq, envs)
    requires KeepsSettling(env, rows, commits, told, items, state, envs)
    ensures m <= |envs| && KeepsSettling(env, rows, commits, told, items[..m], state, envs[..m])
    decreases |items|
  {
    var n := |items| - 1;
    if m == |items| {
      assert items[..m] == items && envs[..m] == envs;
    } else {
      PlaysPrefix(env, rows, commits, told, items[..n], state, envs[..n], m);
      assert items[..n][..m] == items[..m] && envs[..n][..m] == envs[..m];
    }
  }

  /** A lossy, repeating, reordering channel and announcements that read the row late: a browser that was shown no gap
      is in the settling state after some stretch of the stream, and mirrors the rows if that announced every change. */
  lemma UnflaggedSettles(env: Env, rows: map<Id, Incident>, commits: seq<Commit>, told: nat, items: seq<Item>,
                         wire: seq<Envelope>, state: LiveState, arrived: seq<Envelope>)
      returns (m: nat)
    requires AllPossible(env, rows, commits) && RowsOk(rows)
    requires Numbered(wire) && 1 <= state.lastSeq <= |wire|
    requires Plays(env, rows, commits, told, items, state.lastSeq, wire[state.lastSeq..])
    requires HarmlessAlong(env, rows, commits, told, items, state, wire[state.lastSeq..])
    requires Settling(env, rows, commits, told, state.incidents)
    requires FromWire(wire, arrived) && NoSnapshot(arrived) && !GapFlagged(state, arrived)
    ensures m <= |items| && ReduceAll(state, arrived).lastSeq == state.lastSeq + m
    ensures Settling(env, rows, commits, told + Told(items[..m]), ReduceAll(state, arrived).incidents)
    ensures told + Told(items[..m]) == |commits| ==>
              ShowsRows(AfterAll(env, rows, commits), ReduceAll(state, arrived).incidents)
  {
    m := AppliedStretch(wire, state, arrived);
    SettlesAfter(env, rows, commits, told, items, state, wire[state.lastSeq..], m);
    if told + Told(items[..m]) == |commits| {
      SettledMirrors(env, rows, commits, ReduceAll(state, arrived).incidents);
      MirrorsShow(AfterAll(env, rows, commits), ReduceAll(state, arrived).incidents);
    }
  }

  lemma SettlesAfter(env: Env, rows: map<Id, Incident>, commits: seq<Commit>, told: nat, items: seq<Item>,
                     state: LiveState, envs: seq<Envelope>, m: nat)
    requires AllPossible(env, rows, commits) && RowsOk(rows) && state.lastSeq >= 1 && m <= |envs|
    requires Plays(env, rows, commits, told, items, state.lastSeq, envs)
    requires HarmlessAlong(env, rows, commits, told, items, state, envs)
    requires Settling(env, rows, commits, told, state.incidents)
    ensures m <= |items|
    ensures Settling(env, rows, commits, told + Told(items[..m]), ReduceAll(state, envs[..m]).incidents)
  {
    StreamSettlesIff(env, rows, commits, told, items, state, envs);
    PlaysPrefix(env, rows, commits, told, items, state, envs, m);
  }
}
