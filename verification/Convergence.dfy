/** Late announcements: the row is read again when its change is delivered, possibly after later commits.
    The browser may then be ahead in some columns for a while, but once every change has been announced it
    shows exactly the server's views. */
module Convergence {
  import opened Model
  import opened Live
  import opened Mirror
  import Escalation

  // ----- the rows at each version -----

  lemma {:induction false} PrefixPossible(env: Env, rows: map<Id, Incident>, commits: seq<Commit>, v: nat)
    requires AllPossible(env, rows, commits) && v <= |commits|
    ensures AllPossible(env, rows, commits[..v])
    decreases |commits|
  {
    if v == |commits| {
      assert commits[..v] == commits;
    } else {
      var front := commits[..|commits| - 1];
      PrefixPossible(env, rows, front, v);
      assert front[..v] == commits[..v];
    }
  }

  /** The rows after the first v commits. */
  ghost function RowsAt(env: Env, rows: map<Id, Incident>, commits: seq<Commit>, v: nat): map<Id, Incident>
    requires AllPossible(env, rows, commits) && v <= |commits|
  {
    PrefixPossible(env, rows, commits, v);
    AfterAll(env, rows, commits[..v])
  }

  lemma NextVersion(env: Env, rows: map<Id, Incident>, commits: seq<Commit>, v: nat)
    requires AllPossible(env, rows, commits) && v < |commits|
    ensures Possible(RowsAt(env, rows, commits, v), commits[v])
    ensures RowsAt(env, rows, commits, v + 1) == After(env, RowsAt(env, rows, commits, v), commits[v])
  {
    PrefixPossible(env, rows, commits, v);
    PrefixPossible(env, rows, commits, v + 1);
    assert commits[..v + 1][..v] == commits[..v] && commits[..v + 1][v] == commits[v];
  }

  lemma LastVersion(env: Env, rows: map<Id, Incident>, commits: seq<Commit>)
    requires AllPossible(env, rows, commits)
    ensures RowsAt(env, rows, commits, |commits|) == AfterAll(env, rows, commits)
  {
    assert commits[..|commits|] == commits;
  }

  lemma {:induction false} RowsStayOk(env: Env, rows: map<Id, Incident>, commits: seq<Commit>, v: nat)
    requires AllPossible(env, rows, commits) && v <= |commits| && RowsOk(rows)
    ensures RowsOk(RowsAt(env, rows, commits, v))
    decreases v
  {
    if v > 0 {
      RowsStayOk(env, rows, commits, v - 1);
      NextVersion(env, rows, commits, v - 1);
      CommitKeepsRows(env, RowsAt(env, rows, commits, v - 1), commits[v - 1]);
    }
  }

  predicate Changes(c: Commit) {
    c.Create? || c.Advance? || c.Ack? || c.Resolve?
  }

  predicate Touches(c: Commit, i: Id) {
    Changes(c) && c.i == i
  }

  predicate QuietFrom(commits: seq<Commit>, v: nat, i: Id) {
    forall k :: v <= k < |commits| ==> !Touches(commits[k], i)
  }

  predicate NoAdvanceFrom(commits: seq<Commit>, v: nat, i: Id) {
    forall k :: v <= k < |commits| ==> !(commits[k].Advance? && commits[k].i == i)
  }

  /** How a row may differ between two versions. */
  predicate RowGoesTo(a: Incident, b: Incident, quiet: bool, noAdvance: bool) {
    && b.facts == a.facts && b.createdAt == a.createdAt
    && (quiet ==> b == a)
    && (noAdvance ==> b.currentTier == a.currentTier)
  }

  lemma CommitMoves(env: Env, rows: map<Id, Incident>, c: Commit, i: Id)
    requires Possible(rows, c) && i in rows
    ensures i in After(env, rows, c)
    ensures RowGoesTo(rows[i], After(env, rows, c)[i], !Touches(c, i), !(c.Advance? && c.i == i))
  {
  }

  lemma {:induction false} RowLater(env: Env, rows: map<Id, Incident>, commits: seq<Commit>, v: nat, i: Id)
    requires AllPossible(env, rows, commits) && v <= |commits| && i in RowsAt(env, rows, commits, v)
    ensures var last := RowsAt(env, rows, commits, |commits|);
            i in last && RowGoesTo(RowsAt(env, rows, commits, v)[i], last[i],
                                   QuietFrom(commits, v, i), NoAdvanceFrom(commits, v, i))
    decreases |commits| - v
  {
    if v < |commits| {
      NextVersion(env, rows, commits, v);
      CommitMoves(env, RowsAt(env, rows, commits, v), commits[v], i);
      RowLater(env, rows, commits, v + 1, i);
    }
  }

  // ----- what is delivered -----

  /** Tell announces the next change from the rows at version `read`; Show is a timer snapshot of listed incidents
      from the rows at version `read`; a heartbeat carries nothing. */
  datatype Item = Tell(read: nat) | Show(read: nat, listed: seq<Id>) | Pulse

  function TheId(c: Commit): Id
    requires Changes(c)
  {
    c.i
  }

  function ChangeOf(c: Commit): ChangeType
    requires Changes(c)
  {
    match c
    case Create(_, _) => ChangeCreated
    case Advance(_, _, _) => ChangeTierAdvanced
    case Ack(_, _) => ChangeUpdated
    case Resolve(_, _) => ChangeResolved
  }

  /** After `told` announcements: a change is announced from a version that includes it; a timer snapshot may have been
      read at any version. */
  ghost predicate ItemOk(env: Env, rows: map<Id, Incident>, commits: seq<Commit>, told: nat, item: Item)
    requires AllPossible(env, rows, commits)
  {
    match item
    case Tell(read) => told < read <= |commits| && Changes(commits[told])
                       && TheId(commits[told]) in RowsAt(env, rows, commits, read)
    case Show(read, listed) =>
      read <= |commits| && forall k :: 0 <= k < |listed| ==> listed[k] in RowsAt(env, rows, commits, read)
    case Pulse => true
  }

  ghost function PayloadOf(env: Env, rows: map<Id, Incident>, commits: seq<Commit>, told: nat, item: Item): Payload
    requires AllPossible(env, rows, commits) && ItemOk(env, rows, commits, told, item)
  {
    match item
    case Tell(read) =>
      var i := TheId(commits[told]);
      BuildData(ChangeOf(commits[told]), i, RowsAt(env, rows, commits, read)[i])
    case Show(read, listed) => TimerSnapshot(TimerRows(RowsAt(env, rows, commits, read), listed))
    case Pulse => Heartbeat
  }

  // ----- what the browser holds meanwhile -----

  /** What is already right of incident i when the changes from `told` on are still to be announced. */
  predicate EntrySettles(v: View, i: Id, row: Incident, quiet: bool, noAdvance: bool) {
    && SameFixed(v, i, row)
    && (noAdvance ==> v.currentTier == row.currentTier)
    && (quiet ==> v == BuildView(i, row))
  }

  ghost predicate Settling(env: Env, rows: map<Id, Incident>, commits: seq<Commit>, told: nat, known: map<Id, View>)
    requires AllPossible(env, rows, commits)
  {
    var last := RowsAt(env, rows, commits, |commits|);
    forall i :: i in known ==>
      i in last && EntrySettles(known[i], i, last[i], QuietFrom(commits, told, i), NoAdvanceFrom(commits, told, i))
  }

  /** The view of a row read at any version from `told` on settles. */
  lemma FullViewSettles(env: Env, rows: map<Id, Incident>, commits: seq<Commit>, told: nat, read: nat, i: Id)
    requires AllPossible(env, rows, commits) && told <= read <= |commits| && i in RowsAt(env, rows, commits, read)
    ensures var last := RowsAt(env, rows, commits, |commits|);
            i in last && EntrySettles(BuildView(i, RowsAt(env, rows, commits, read)[i]), i, last[i],
                                      QuietFrom(commits, told, i), NoAdvanceFrom(commits, told, i))
  {
    RowLater(env, rows, commits, read, i);
  }

  lemma OneLessToTell(commits: seq<Commit>, told: nat, i: Id)
    requires told < |commits|
    ensures QuietFrom(commits, told, i) <==> !Touches(commits[told], i) && QuietFrom(commits, told + 1, i)
    ensures NoAdvanceFrom(commits, told, i)
            <==> !(commits[told].Advance? && commits[told].i == i) && NoAdvanceFrom(commits, told + 1, i)
  {
  }

  /** A tier_advanced delta from a row read at version `read` settles the entry as the full view would. */
  lemma AdvanceSettles(known: map<Id, View>, i: Id, row: Incident, last: Incident, quiet: bool, noAdvance: bool)
    requires i in known && SameFixed(known[i], i, last) && RowGoesTo(row, last, quiet, noAdvance)
    requires last.currentTier <= 2 || last.status.CriticalUnresolved?
    ensures EntrySettles(ApplyPayload(known, BuildData(ChangeTierAdvanced, i, row))[i], i, last, quiet, noAdvance)
  {
    if quiet {
      AdvancedDeltaSyncsIff(known, i, last);
    }
  }

  /** A resolved delta settles the entry when no advance is pending and the resolve was the last change. */
  lemma ResolveSettles(known: map<Id, View>, i: Id, row: Incident, last: Incident, quiet: bool, noAdvance: bool)
    requires i in known && SameFixed(known[i], i, last) && RowGoesTo(row, last, quiet, noAdvance)
    requires noAdvance ==> known[i].currentTier == last.currentTier
    requires quiet ==> noAdvance && last.status.Resolved? && last.deadlineAt.None? && last.currentTier <= 2
    ensures EntrySettles(ApplyPayload(known, BuildData(ChangeResolved, i, row))[i], i, last, quiet, noAdvance)
  {
    if quiet {
      ResolvedDeltaSyncsIff(known, i, last);
    }
  }

  lemma QuietIsNoAdvance(commits: seq<Commit>, told: nat, i: Id)
    requires QuietFrom(commits, told, i)
    ensures NoAdvanceFrom(commits, told, i)
  {
  }

  /** The entry of the incident just announced. */
  lemma TellSettlesOne(env: Env, rows: map<Id, Incident>, commits: seq<Commit>, told: nat, item: Item, known: map<Id,
                       View>)
    requires AllPossible(env, rows, commits) && RowsOk(rows) && Settling(env, rows, commits, told, known)
    requires item.Tell? && ItemOk(env, rows, commits, told, item)
    ensures var i := TheId(commits[told]);
            var known' := ApplyPayload(known, PayloadOf(env, rows, commits, told, item));
            var last := RowsAt(env, rows, commits, |commits|);
            i in known' ==> i in last && EntrySettles(known'[i], i, last[i], QuietFrom(commits, told + 1, i),
                                                      NoAdvanceFrom(commits, told + 1, i))
  {
    var c, i := commits[told], TheId(commits[told]);
    if c.Create? || c.Ack? {
      FullViewSettles(env, rows, commits, told + 1, item.read, i);
    } else if i in known {
      DeltaSettlesOne(env, rows, commits, told, item.read, known);
    }
  }

  lemma DeltaSettlesOne(env: Env, rows: map<Id, Incident>, commits: seq<Commit>, told: nat, read: nat,
                        known: map<Id, View>)
    requires AllPossible(env, rows, commits) && RowsOk(rows) && Settling(env, rows, commits, told, known)
    requires told < read <= |commits| && (commits[told].Advance? || commits[told].Resolve?)
    requires commits[told].i in known && commits[told].i in RowsAt(env, rows, commits, read)
    ensures var i := commits[told].i;
            var row := RowsAt(env, rows, commits, read)[i];
            var known' := ApplyPayload(known, BuildData(ChangeOf(commits[told]), i, row));
            var last := RowsAt(env, rows, commits, |commits|);
            i in last && EntrySettles(known'[i], i, last[i], QuietFrom(commits, told + 1, i),
                                      NoAdvanceFrom(commits, told + 1, i))
  {
    var c, i := commits[told], commits[told].i;
    var row, last := RowsAt(env, rows, commits, read)[i], RowsAt(env, rows, commits, |commits|);
    var quiet, noAdvance := QuietFrom(commits, told + 1, i), NoAdvanceFrom(commits, told + 1, i);
    LaterGoesTo(env, rows, commits, told + 1, read, i);
    if c.Advance? {
      RowsStayOk(env, rows, commits, |commits|);
      AdvanceSettles(known, i, row, last[i], quiet, noAdvance);
    } else {
      OneLessToTell(commits, told, i);
      if quiet {
        QuietIsNoAdvance(commits, told + 1, i);
        ResolvedAtLast(env, rows, commits, told, i);
      }
      ResolveSettles(known, i, row, last[i], quiet, noAdvance);
    }
  }

  lemma LaterGoesTo(env: Env, rows: map<Id, Incident>, commits: seq<Commit>, told: nat, read: nat, i: Id)
    requires AllPossible(env, rows, commits) && told <= read <= |commits| && i in RowsAt(env, rows, commits, read)
    ensures var last := RowsAt(env, rows, commits, |commits|);
            i in last && RowGoesTo(RowsAt(env, rows, commits, read)[i], last[i],
                                   QuietFrom(commits, told, i), NoAdvanceFrom(commits, told, i))
  {
    RowLater(env, rows, commits, read, i);
  }

  lemma ResolvedAtLast(env: Env, rows: map<Id, Incident>, commits: seq<Commit>, told: nat, i: Id)
    requires AllPossible(env, rows, commits) && RowsOk(rows) && told < |commits|
    requires commits[told].Resolve? && commits[told].i == i && QuietFrom(commits, told + 1, i)
    ensures var last := RowsAt(env, rows, commits, |commits|);
            i in last && last[i].status.Resolved? && last[i].deadlineAt.None? && last[i].currentTier <= 2
  {
    NextVersion(env, rows, commits, told);
    RowLater(env, rows, commits, told + 1, i);
    RowsStayOk(env, rows, commits, told);
    RowsStayOk(env, rows, commits, |commits|);
    assert Escalation.RowOk(RowsAt(env, rows, commits, told)[i]);
  }

  lemma OthersUntold(known: map<Id, View>, c: Commit, row: Incident, j: Id)
    requires Changes(c) && j != TheId(c)
    ensures var known' := ApplyPayload(known, BuildData(ChangeOf(c), TheId(c), row));
            (j in known' <==> j in known) && (j in known ==> known'[j] == known[j])
  {
  }

  lemma TellSettles(env: Env, rows: map<Id, Incident>, commits: seq<Commit>, told: nat, item: Item, known: map<Id,
                    View>)
    requires AllPossible(env, rows, commits) && RowsOk(rows) && Settling(env, rows, commits, told, known)
    requires item.Tell? && ItemOk(env, rows, commits, told, item)
    ensures Settling(env, rows, commits, told + 1, ApplyPayload(known, PayloadOf(env, rows, commits, told, item)))
  {
    var i := TheId(commits[told]);
    var known' := ApplyPayload(known, PayloadOf(env, rows, commits, told, item));
    var last := RowsAt(env, rows, commits, |commits|);
    TellSettlesOne(env, rows, commits, told, item, known);
    forall j | j in known'
      ensures j in last && EntrySettles(known'[j], j, last[j], QuietFrom(commits, told + 1, j),
                                        NoAdvanceFrom(commits, told + 1, j))
    {
      if j != i {
        OthersUntold(known, commits[told], RowsAt(env, rows, commits, item.read)[i], j);
        OneLessToTell(commits, told, j);
      }
    }
  }

  lemma PatchSettlesIff(v: View, i: Id, row: Incident, last: Incident, quiet: bool, noAdvance: bool)
    requires EntrySettles(v, i, last, quiet, noAdvance) && (quiet ==> noAdvance)
    ensures EntrySettles(v.(deadlineAt := row.deadlineAt, currentTier := row.currentTier), i, last, quiet, noAdvance)
            <==> (quiet ==> row.deadlineAt == last.deadlineAt) && (noAdvance ==> row.currentTier == last.currentTier)
  {
  }

  predicate SaysRight(commits: seq<Commit>, told: nat, i: Id, row: Incident, last: Incident) {
    && (QuietFrom(commits, told, i) ==> row.deadlineAt == last.deadlineAt)
    && (NoAdvanceFrom(commits, told, i) ==> row.currentTier == last.currentTier)
  }

  /** What the snapshot says of the listed incidents the browser knows is right as far as no pending change can
      touch it: the deadline when none is pending, the tier when no advance is. */
  ghost predicate Harmless(env: Env, rows: map<Id, Incident>, commits: seq<Commit>, told: nat, item: Item,
                           known: map<Id, View>)
    requires AllPossible(env, rows, commits) && ItemOk(env, rows, commits, told, item)
  {
    item.Show? ==>
      var read, last := RowsAt(env, rows, commits, item.read), RowsAt(env, rows, commits, |commits|);
      forall i :: i in item.listed && i in known && i in last ==> SaysRight(commits, told, i, read[i], last[i])
  }

  /** A timer snapshot, however old, keeps the browser settling if and only if it is harmless. */
  lemma ShowSettlesIff(env: Env, rows: map<Id, Incident>, commits: seq<Commit>, told: nat, item: Item,
                       known: map<Id, View>)
    requires AllPossible(env, rows, commits) && Settling(env, rows, commits, told, known)
    requires item.Show? && ItemOk(env, rows, commits, told, item)
    ensures Settling(env, rows, commits, told, ApplyPayload(known, PayloadOf(env, rows, commits, told, item)))
            <==> Harmless(env, rows, commits, told, item, known)
  {
    var read, last := RowsAt(env, rows, commits, item.read), RowsAt(env, rows, commits, |commits|);
    var known' := PatchTimers(known, TimerRows(read, item.listed));
    TimersPatch(read, known, item.listed);
    assert known' == ApplyPayload(known, PayloadOf(env, rows, commits, told, item));
    forall i | i in known
      ensures i in last
      ensures EntrySettles(known'[i], i, last[i], QuietFrom(commits, told, i), NoAdvanceFrom(commits, told, i))
              <==> (i in item.listed ==> SaysRight(commits, told, i, read[i], last[i]))
    {
      ShowEntryIff(commits, told, i, known[i], known'[i], i in item.listed,
                   if i in item.listed then read[i] else last[i], last[i]);
    }
  }

  lemma ShowEntryIff(commits: seq<Commit>, told: nat, i: Id, v: View, v': View, listed: bool, row: Incident,
                     last: Incident)
    requires EntrySettles(v, i, last, QuietFrom(commits, told, i), NoAdvanceFrom(commits, told, i))
    requires v' == if listed then v.(deadlineAt := row.deadlineAt, currentTier := row.currentTier) else v
    ensures EntrySettles(v', i, last, QuietFrom(commits, told, i), NoAdvanceFrom(commits, told, i))
            <==> (listed ==> SaysRight(commits, told, i, row, last))
  {
    if QuietFrom(commits, told, i) { QuietIsNoAdvance(commits, told, i); }
    if listed {
      PatchSettlesIff(v, i, row, last, QuietFrom(commits, told, i), NoAdvanceFrom(commits, told, i));
    }
  }

  /** Every snapshot read no earlier than the changes already announced is. */
  lemma FreshIsHarmless(env: Env, rows: map<Id, Incident>, commits: seq<Commit>, told: nat, item: Item,
                        known: map<Id, View>)
    requires AllPossible(env, rows, commits) && ItemOk(env, rows, commits, told, item)
    requires item.Show? && told <= item.read
    ensures Harmless(env, rows, commits, told, item, known)
  {
    forall i | i in item.listed
      ensures var read, last := RowsAt(env, rows, commits, item.read), RowsAt(env, rows, commits, |commits|);
              i in last && SaysRight(commits, told, i, read[i], last[i])
    {
      LaterGoesTo(env, rows, commits, told, item.read, i);
    }
  }

  /** A connect snapshot read no earlier than the changes already announced settles. */
  lemma SnapshotSettles(env: Env, rows: map<Id, Incident>, commits: seq<Commit>, told: nat, read: nat, listed: seq<Id>)
    requires AllPossible(env, rows, commits) && told <= read <= |commits|
    requires forall k :: 0 <= k < |listed| ==> listed[k] in RowsAt(env, rows, commits, read)
    ensures Settling(env, rows, commits, told, FromSnapshot(ViewsOf(RowsAt(env, rows, commits, read), listed)))
  {
    var at := RowsAt(env, rows, commits, read);
    SnapshotMirrors(at, listed);
    var known := FromSnapshot(ViewsOf(at, listed));
    forall i | i in known
      ensures var last := RowsAt(env, rows, commits, |commits|);
              i in last && EntrySettles(known[i], i, last[i], QuietFrom(commits, told, i),
                                        NoAdvanceFrom(commits, told, i))
    {
      FullViewSettles(env, rows, commits, told, read, i);
    }
  }

  // ----- whole streams -----

  function Told(items: seq<Item>): nat {
    if items == [] then 0 else Told(items[..|items| - 1]) + (if items[|items| - 1].Tell? then 1 else 0)
  }

  /** Consecutively numbered envelopes that carry the items, the first change announced being number `told`. */
  ghost predicate Plays(env: Env, rows: map<Id, Incident>, commits: seq<Commit>, told: nat, items: seq<Item>, last: nat,
                        envs: seq<Envelope>)
    requires AllPossible(env, rows, commits)
    decreases |items|
  {
    && |envs| == |items|
    && (items != [] ==>
          var n := |items| - 1;
          && Plays(env, rows, commits, told, items[..n], last, envs[..n])
          && ItemOk(env, rows, commits, told + Told(items[..n]), items[n])
          && envs[n].seqNo == last + n + 1
          && envs[n].payload == PayloadOf(env, rows, commits, told + Told(items[..n]), items[n]))
  }

  /** Every timer snapshot of the stream is harmless when it arrives. */
  ghost predicate HarmlessAlong(env: Env, rows: map<Id, Incident>, commits: seq<Commit>, told: nat, items: seq<Item>,
                                state: LiveState, envs: seq<Envelope>)
    requires AllPossible(env, rows, commits) && Plays(env, rows, commits, told, items, state.lastSeq, envs)
    decreases |items|
  {
    items != [] ==>
      var n := |items| - 1;
      && HarmlessAlong(env, rows, commits, told, items[..n], state, envs[..n])
      && Harmless(env, rows, commits, told + Told(items[..n]), items[n], ReduceAll(state, envs[..n]).incidents)
  }

  /** The browser is settling after every envelope of the stream. */
  ghost predicate KeepsSettling(env: Env, rows: map<Id, Incident>, commits: seq<Commit>, told: nat, items: seq<Item>,
                                state: LiveState, envs: seq<Envelope>)
    requires AllPossible(env, rows, commits) && |envs| == |items|
    decreases |items|
  {
    && Settling(env, rows, commits, told + Told(items), ReduceAll(state, envs).incidents)
    && (items != [] ==>
          KeepsSettling(env, rows, commits, told, items[..|items| - 1], state, envs[..|items| - 1]))
  }

  lemma ItemSettlesIff(env: Env, rows: map<Id, Incident>, commits: seq<Commit>, told: nat, item: Item,
                       known: map<Id, View>)
    requires AllPossible(env, rows, commits) && RowsOk(rows) && Settling(env, rows, commits, told, known)
    requires ItemOk(env, rows, commits, told, item)
    ensures Settling(env, rows, commits, told + (if item.Tell? then 1 else 0),
                     ApplyPayload(known, PayloadOf(env, rows, commits, told, item)))
            <==> Harmless(env, rows, commits, told, item, known)
  {
    match item
    case Tell(_) => TellSettles(env, rows, commits, told, item, known);
    case Show(_, _) => ShowSettlesIff(env, rows, commits, told, item, known);
    case Pulse =>
  }

  /** The envelope carries the item and is the browser's next. */
  ghost predicate Carries(env: Env, rows: map<Id, Incident>, commits: seq<Commit>, told: nat, item: Item,
                          before: LiveState, e: Envelope)
    requires AllPossible(env, rows, commits)
  {
    && before.lastSeq >= 1 && e.seqNo == before.lastSeq + 1
    && ItemOk(env, rows, commits, told, item) && e.payload == PayloadOf(env, rows, commits, told, item)
  }

  /** One envelope more. */
  lemma NextSettlesIff(env: Env, rows: map<Id, Incident>, commits: seq<Commit>, told: nat, item: Item,
                       before: LiveState,
                       e: Envelope, toldAfter: nat, after: LiveState)
    requires AllPossible(env, rows, commits) && RowsOk(rows) && Carries(env, rows, commits, told, item, before, e)
    requires Settling(env, rows, commits, told, before.incidents)
    requires toldAfter == told + (if item.Tell? then 1 else 0) && after == Reduce(before, e).state
    ensures Settling(env, rows, commits, toldAfter, after.incidents)
            <==> Harmless(env, rows, commits, told, item, before.incidents)
  {
    TakesNext(before, e);
    ItemSettlesIff(env, rows, commits, told, item, before.incidents);
  }

  /** What the last envelope of a stream is and does. */
  lemma LastOfStream(env: Env, rows: map<Id, Incident>, commits: seq<Commit>, told: nat, items: seq<Item>,
                     state: LiveState, envs: seq<Envelope>)
      returns (sofar: nat, before: LiveState)
    requires AllPossible(env, rows, commits) && state.lastSeq >= 1 && items != []
    requires Plays(env, rows, commits, told, items, state.lastSeq, envs)
    ensures var n := |items| - 1;
            && |envs| == |items| && Plays(env, rows, commits, told, items[..n], state.lastSeq, envs[..n])
            && sofar == told + Told(items[..n]) && before == ReduceAll(state, envs[..n])
            && told + Told(items) == sofar + (if items[n].Tell? then 1 else 0)
            && ReduceAll(state, envs) == Reduce(before, envs[n]).state
            && Carries(env, rows, commits, sofar, items[n], before, envs[n])
  {
    var n := |items| - 1;
    sofar, before := told + Told(items[..n]), ReduceAll(state, envs[..n]);
    StreamAdvances(env, rows, commits, told, items[..n], state, envs[..n]);
  }

  lemma {:induction false} StreamAdvances(env: Env, rows: map<Id, Incident>, commits: seq<Commit>, told: nat,
                                          items: seq<Item>, state: LiveState, envs: seq<Envelope>)
    requires AllPossible(env, rows, commits) && state.lastSeq >= 1
    requires Plays(env, rows, commits, told, items, state.lastSeq, envs)
    ensures ReduceAll(state, envs).lastSeq == state.lastSeq + |items|
    decreases |items|
  {
    if items != [] {
      var n := |items| - 1;
      StreamAdvances(env, rows, commits, told, items[..n], state, envs[..n]);
      TakesNext(ReduceAll(state, envs[..n]), envs[n]);
    }
  }

  /** From a settling state, the browser is settling after every envelope if and only if every timer snapshot is
      harmless when it arrives. */
  lemma {:induction false} StreamSettlesIff(env: Env, rows: map<Id, Incident>, commits: seq<Commit>, told: nat,
                                            items: seq<Item>, state: LiveState, envs: seq<Envelope>)
    requires AllPossible(env, rows, commits) && RowsOk(rows) && state.lastSeq >= 1
    requires Settling(env, rows, commits, told, state.incidents)
    requires Plays(env, rows, commits, told, items, state.lastSeq, envs)
    ensures KeepsSettling(env, rows, commits, told, items, state, envs)
            <==> HarmlessAlong(env, rows, commits, told, items, state, envs)
    decreases |items|
  {
    if items != [] {
      var n := |items| - 1;
      StreamSettlesIff(env, rows, commits, told, items[..n], state, envs[..n]);
      var sofar, before := LastOfStream(env, rows, commits, told, items, state, envs);
      var toldAfter, after := told + Told(items), ReduceAll(state, envs);
      KeepsUnfolds(env, rows, commits, told, items, state, envs, toldAfter, after);
      HarmlessUnfolds(env, rows, commits, told, items, state, envs, sofar, before);
      if KeepsSettling(env, rows, commits, told, items[..n], state, envs[..n]) {
        FrontSettles(env, rows, commits, told, items[..n], state, envs[..n], sofar, before);
        NextSettlesIff(env, rows, commits, sofar, items[n], before, envs[n], toldAfter, after);
      }
    }
  }

  lemma KeepsUnfolds(env: Env, rows: map<Id, Incident>, commits: seq<Commit>, told: nat, items: seq<Item>,
                     state: LiveState, envs: seq<Envelope>, toldAfter: nat, after: LiveState)
    requires AllPossible(env, rows, commits) && |envs| == |items| && items != []
    requires toldAfter == told + Told(items) && after == ReduceAll(state, envs)
    ensures KeepsSettling(env, rows, commits, told, items, state, envs)
            <==> KeepsSettling(env, rows, commits, told, items[..|items| - 1], state, envs[..|items| - 1])
                 && Settling(env, rows, commits, toldAfter, after.incidents)
  {
  }

  lemma HarmlessUnfolds(env: Env, rows: map<Id, Incident>, commits: seq<Commit>, told: nat, items: seq<Item>,
                        state: LiveState, envs: seq<Envelope>, sofar: nat, before: LiveState)
    requires AllPossible(env, rows, commits) && items != []
    requires Plays(env, rows, commits, told, items, state.lastSeq, envs)
    requires var n := |items| - 1; sofar == told + Told(items[..n]) && before == ReduceAll(state, envs[..n])
    ensures HarmlessAlong(env, rows, commits, told, items, state, envs)
            <==> HarmlessAlong(env, rows, commits, told, items[..|items| - 1], state, envs[..|items| - 1])
                 && Harmless(env, rows, commits, sofar, items[|items| - 1], before.incidents)
  {
  }

  lemma FrontSettles(env: Env, rows: map<Id, Incident>, commits: seq<Commit>, told: nat, items: seq<Item>,
                     state: LiveState, envs: seq<Envelope>, toldAfter: nat, after: LiveState)
    requires AllPossible(env, rows, commits) && |envs| == |items|
    requires KeepsSettling(env, rows, commits, told, items, state, envs)
    requires toldAfter == told + Told(items) && after == ReduceAll(state, envs)
    ensures Settling(env, rows, commits, toldAfter, after.incidents)
  {
  }

  /** However late the rows are read for announcements, once every change has been announced, in order and without a
      gap, and no timer snapshot has done harm, each incident the browser knows is shown as the server would. */
  lemma Converges(env: Env, rows: map<Id, Incident>, commits: seq<Commit>, told: nat, items: seq<Item>,
                  state: LiveState, envs: seq<Envelope>)
    requires AllPossible(env, rows, commits) && RowsOk(rows) && state.lastSeq >= 1
    requires Settling(env, rows, commits, told, state.incidents)
    requires Plays(env, rows, commits, told, items, state.lastSeq, envs)
    requires HarmlessAlong(env, rows, commits, told, items, state, envs)
    requires told + Told(items) == |commits|
    ensures Mirrors(AfterAll(env, rows, commits), ReduceAll(state, envs).incidents)
    ensures ShowsRows(AfterAll(env, rows, commits), ReduceAll(state, envs).incidents)
  {
    StreamSettlesIff(env, rows, commits, told, items, state, envs);
    SettledMirrors(env, rows, commits, ReduceAll(state, envs).incidents);
    MirrorsShow(AfterAll(env, rows, commits), ReduceAll(state, envs).incidents);
  }

  lemma SettledMirrors(env: Env, rows: map<Id, Incident>, commits: seq<Commit>, known: map<Id, View>)
    requires AllPossible(env, rows, commits) && Settling(env, rows, commits, |commits|, known)
    ensures Mirrors(AfterAll(env, rows, commits), known)
  {
    LastVersion(env, rows, commits);
    assert forall i :: i in known ==> QuietFrom(commits, |commits|, i);
  }

  // ----- what the browser comes to know -----

  lemma ItemLearns(env: Env, rows: map<Id, Incident>, commits: seq<Commit>, told: nat, item: Item, known: map<Id, View>)
    requires AllPossible(env, rows, commits) && ItemOk(env, rows, commits, told, item)
    ensures item.Tell? ==> told < |commits|
    ensures ApplyPayload(known, PayloadOf(env, rows, commits, told, item)).Keys
         == known.Keys + (if item.Tell? then Learned(commits[told]) else {})
  {
    if item.Show? {
      TimersPatch(RowsAt(env, rows, commits, item.read), known, item.listed);
    }
  }

  /** An incident is known that was known before, or whose creation or acknowledgement has been announced. */
  ghost predicate Knows(commits: seq<Commit>, told: nat, upTo: nat, was: map<Id, View>, known: map<Id, View>) {
    && told <= upTo <= |commits|
    && forall i :: i in known <==> i in was || exists k :: told <= k < upTo && i in Learned(commits[k])
  }

  lemma KnowsMore(commits: seq<Commit>, told: nat, upTo: nat, was: map<Id, View>, known: map<Id, View>, tells: bool,
                  known': map<Id, View>)
    requires Knows(commits, told, upTo, was, known) && (tells ==> upTo < |commits|)
    requires known'.Keys == known.Keys + (if tells then Learned(commits[upTo]) else {})
    ensures Knows(commits, told, upTo + (if tells then 1 else 0), was, known')
  {
    var next := upTo + (if tells then 1 else 0);
    forall i ensures i in known' <==> i in was || exists k :: told <= k < next && i in Learned(commits[k]) {
      if tells && i in Learned(commits[upTo]) {
        assert i in known';
      } else {
        assert i in known' <==> i in known;
      }
    }
  }

  /** However late the rows are read, the browser knows exactly what it knew and what was announced as created or
      acknowledged since. */
  lemma {:induction false} LateStreamLearns(env: Env, rows: map<Id, Incident>, commits: seq<Commit>, told: nat,
                                            items: seq<Item>, state: LiveState, envs: seq<Envelope>)
    requires AllPossible(env, rows, commits) && state.lastSeq >= 1 && told <= |commits|
    requires Plays(env, rows, commits, told, items, state.lastSeq, envs)
    ensures Knows(commits, told, told + Told(items), state.incidents, ReduceAll(state, envs).incidents)
    decreases |items|
  {
    if items != [] {
      var n := |items| - 1;
      LateStreamLearns(env, rows, commits, told, items[..n], state, envs[..n]);
      var sofar, before := LastOfStream(env, rows, commits, told, items, state, envs);
      NextLearns(env, rows, commits, told, sofar, items[n], state.incidents, before, envs[n]);
    }
  }

  lemma NextLearns(env: Env, rows: map<Id, Incident>, commits: seq<Commit>, told: nat, upTo: nat, item: Item,
                   was: map<Id, View>, before: LiveState, e: Envelope)
    requires AllPossible(env, rows, commits) && Carries(env, rows, commits, upTo, item, before, e)
    requires Knows(commits, told, upTo, was, before.incidents)
    ensures Knows(commits, told, upTo + (if item.Tell? then 1 else 0), was, Reduce(before, e).state.incidents)
  {
    TakesNext(before, e);
    ItemLearns(env, rows, commits, upTo, item, before.incidents);
    KnowsMore(commits, told, upTo, was, before.incidents, item.Tell?, Reduce(before, e).state.incidents);
  }

  // ----- harm that stays -----

  /** A timer snapshot as the server takes it now: of incidents it lists, read no earlier than the changes announced. */
  ghost predicate FreshShow(env: Env, rows: map<Id, Incident>, commits: seq<Commit>, told: nat, item: Item)
    requires AllPossible(env, rows, commits) && ItemOk(env, rows, commits, told, item)
  {
    item.Show? ==>
      && told <= item.read
      && forall k :: 0 <= k < |item.listed| ==>
           Listed(RowsAt(env, rows, commits, item.read)[item.listed[k]].status)
  }

  lemma ItemLeavesResolved(env: Env, rows: map<Id, Incident>, commits: seq<Commit>, told: nat, item: Item,
                           known: map<Id, View>, i: Id)
    requires AllPossible(env, rows, commits) && told <= |commits| && ItemOk(env, rows, commits, told, item)
    requires FreshShow(env, rows, commits, told, item) && QuietFrom(commits, told, i) && i in known
    requires var last := RowsAt(env, rows, commits, |commits|); i in last && last[i].status.Resolved?
    ensures var known' := ApplyPayload(known, PayloadOf(env, rows, commits, told, item));
            i in known' && known'[i] == known[i]
  {
    match item
    case Tell(read) =>
      OthersUntold(known, commits[told], RowsAt(env, rows, commits, read)[TheId(commits[told])], i);
    case Show(read, listed) =>
      TimersPatch(RowsAt(env, rows, commits, read), known, listed);
      if i in listed {
        LaterGoesTo(env, rows, commits, told, read, i);
      }
    case Pulse =>
  }

  /** Snapshots taken as the server takes them and announcements of other incidents. */
  ghost predicate AllFresh(env: Env, rows: map<Id, Incident>, commits: seq<Commit>, told: nat, items: seq<Item>,
                           last: nat, envs: seq<Envelope>)
    requires AllPossible(env, rows, commits) && Plays(env, rows, commits, told, items, last, envs)
    decreases |items|
  {
    items != [] ==>
      var n := |items| - 1;
      && AllFresh(env, rows, commits, told, items[..n], last, envs[..n])
      && FreshShow(env, rows, commits, told + Told(items[..n]), items[n])
  }

  lemma QuietLater(commits: seq<Commit>, told: nat, more: nat, i: Id)
    requires QuietFrom(commits, told, i)
    ensures QuietFrom(commits, told + more, i)
  {
  }

  /** Whatever the browser shows of an incident whose resolution has been announced, it shows for good: no later
      announcement is about it and no later timer snapshot lists it. */
  lemma {:induction false} ResolvedIsNotRepaired(env: Env, rows: map<Id, Incident>, commits: seq<Commit>, told: nat,
                                                 items: seq<Item>, state: LiveState, envs: seq<Envelope>, i: Id)
    requires AllPossible(env, rows, commits) && state.lastSeq >= 1 && told + Told(items) <= |commits|
    requires Plays(env, rows, commits, told, items, state.lastSeq, envs)
    requires AllFresh(env, rows, commits, told, items, state.lastSeq, envs)
    requires QuietFrom(commits, told, i) && i in state.incidents
    requires var last := RowsAt(env, rows, commits, |commits|); i in last && last[i].status.Resolved?
    ensures i in ReduceAll(state, envs).incidents && ReduceAll(state, envs).incidents[i] == state.incidents[i]
    decreases |items|
  {
    if items != [] {
      var n := |items| - 1;
      ResolvedIsNotRepaired(env, rows, commits, told, items[..n], state, envs[..n], i);
      var sofar, before := LastOfStream(env, rows, commits, told, items, state, envs);
      TakesNext(before, envs[n]);
      QuietLater(commits, told, sofar - told, i);
      ItemLeavesResolved(env, rows, commits, sofar, items[n], before.incidents, i);
    }
  }
}
