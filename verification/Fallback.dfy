/** The database-polling fallback of the live view: pages of changed incidents behind a two-part cursor. */
module Fallback {
  import opened Model
  import opened Live
  import opened Batching

  /** A position in (updated_at, id) order; also the key of a row. */
  datatype Cursor = Cursor(since: Time, sinceId: Id)

  const MAX_UUID: Id := 0xFFFF_FFFF_FFFF_FFFF_FFFF_FFFF_FFFF_FFFF

  type Table = map<Id, Incident>

  predicate Less(a: Cursor, b: Cursor) {
    a.since < b.since || (a.since == b.since && a.sinceId < b.sinceId)
  }

  function KeyOf(table: Table, i: Id): Cursor
    requires i in table
  {
    Cursor(table[i].updatedAt, i)
  }

  predicate Above(table: Table, c: Cursor, i: Id) {
    i in table && Less(c, KeyOf(table, i))
  }

  function RowsAbove(table: Table, c: Cursor): set<Id> {
    set i | i in table && Above(table, c, i)
  }

  // ----- the order the query asks for -----

  ghost predicate IsNext(table: Table, c: Cursor, i: Id) {
    Above(table, c, i) && forall j :: Above(table, c, j) && j != i ==> Less(KeyOf(table, i), KeyOf(table, j))
  }

  lemma {:induction false} NextExists(table: Table, c: Cursor, among: set<Id>)
    requires among != {} && among <= table.Keys && forall i :: i in among ==> Above(table, c, i)
    ensures exists i :: i in among && forall j :: j in among && j != i ==> Less(KeyOf(table, i), KeyOf(table, j))
  {
    var x :| x in among;
    var rest := among - {x};
    if rest == {} {
      assert among == {x};
    } else {
      NextExists(table, c, rest);
      var y :| y in rest && forall j :: j in rest && j != y ==> Less(KeyOf(table, y), KeyOf(table, j));
      var best := if Less(KeyOf(table, x), KeyOf(table, y)) then x else y;
      assert forall j :: j in among && j != best ==> Less(KeyOf(table, best), KeyOf(table, j));
    }
  }

  ghost function Next(table: Table, c: Cursor): (r: Option<Id>)
    ensures r == None ==> RowsAbove(table, c) == {}
    ensures r.Some? ==> IsNext(table, c, r.value)
  {
    if RowsAbove(table, c) == {} then None
    else
      NextExists(table, c, RowsAbove(table, c));
      var i :| i in RowsAbove(table, c)
               && forall j :: j in RowsAbove(table, c) && j != i ==> Less(KeyOf(table, i), KeyOf(table, j));
      assert forall j :: Above(table, c, j) ==> j in RowsAbove(table, c);
      Some(i)
  }

  lemma FewerAbove(table: Table, c: Cursor, i: Id)
    requires Above(table, c, i)
    ensures |RowsAbove(table, KeyOf(table, i))| < |RowsAbove(table, c)|
  {
    var rows, rest := RowsAbove(table, c), RowsAbove(table, KeyOf(table, i));
    assert i in rows && i !in rest;
    assert rest <= rows - {i};
    SubsetIsSmaller(rest, rows - {i});
  }

  lemma {:induction false} SubsetIsSmaller(a: set<Id>, b: set<Id>)
    requires a <= b
    ensures |a| <= |b|
  {
    if a != {} {
      var x :| x in a;
      SubsetIsSmaller(a - {x}, b - {x});
    }
  }

  /** The rows after c, in order. */
  ghost function Sorted(table: Table, c: Cursor): seq<Id>
    decreases |RowsAbove(table, c)|
  {
    match Next(table, c)
    case None => []
    case Some(i) => FewerAbove(table, c, i); [i] + Sorted(table, KeyOf(table, i))
  }

  predicate Ascending(table: Table, ids: seq<Id>) {
    && (forall k :: 0 <= k < |ids| ==> ids[k] in table)
    && (forall k, l :: 0 <= k < l < |ids| ==> Less(KeyOf(table, ids[k]), KeyOf(table, ids[l])))
  }

  lemma {:induction false} SortedAscends(table: Table, c: Cursor)
    ensures Ascending(table, Sorted(table, c))
    ensures forall i :: i in Sorted(table, c) <==> Above(table, c, i)
    decreases |RowsAbove(table, c)|
  {
    var next := Next(table, c);
    if next == None {
      forall i ensures !Above(table, c, i) {
        assert Above(table, c, i) <==> i in RowsAbove(table, c);
      }
    } else {
      var i := next.value;
      FewerAbove(table, c, i);
      SortedAscends(table, KeyOf(table, i));
      var rest := Sorted(table, KeyOf(table, i));
      forall k, l | 0 <= k < l < |[i] + rest|
        ensures Less(KeyOf(table, ([i] + rest)[k]), KeyOf(table, ([i] + rest)[l]))
      {
        if k == 0 { assert rest[l - 1] in rest; }
      }
    }
  }

  /** Sorted is the table after the cursor: every row with a later stamp, or the same stamp and a larger id, nothing
      else, by stamp and among equal stamps by id, so each once. */
  lemma SortedIsTheTable(table: Table, c: Cursor)
    ensures forall i ::
      i in Sorted(table, c)
      <==> i in table && (table[i].updatedAt > c.since || (table[i].updatedAt == c.since && i > c.sinceId))
    ensures forall k, l :: 0 <= k < l < |Sorted(table, c)| ==>
      var i, j := Sorted(table, c)[k], Sorted(table, c)[l];
      i in table && j in table
      && (table[i].updatedAt < table[j].updatedAt || (table[i].updatedAt == table[j].updatedAt && i < j))
  {
    SortedAscends(table, c);
    forall i: Id ensures Above(table, c, i)
      <==> i in table && (table[i].updatedAt > c.since || (table[i].updatedAt == c.since && i > c.sinceId))
    {
    }
    forall k, l | 0 <= k < l < |Sorted(table, c)|
      ensures var i, j := Sorted(table, c)[k], Sorted(table, c)[l];
              i in table && j in table
              && (table[i].updatedAt < table[j].updatedAt || (table[i].updatedAt == table[j].updatedAt && i < j))
    {
      assert Less(KeyOf(table, Sorted(table, c)[k]), KeyOf(table, Sorted(table, c)[l]));
    }
  }

  // ----- one poll -----

  ghost function Page(table: Table, c: Cursor, batch: nat): seq<Id> {
    Sorted(table, c)[..Min(batch, |Sorted(table, c)|)]
  }

  function EndOf(table: Table, c: Cursor, page: seq<Id>): Cursor
    requires forall k :: 0 <= k < |page| ==> page[k] in table
  {
    if page == [] then c else KeyOf(table, page[|page| - 1])
  }

  lemma PageInTable(table: Table, c: Cursor, batch: nat)
    ensures forall k :: 0 <= k < |Page(table, c, batch)| ==> Page(table, c, batch)[k] in table
  {
    SortedAscends(table, c);
  }

  method SelectNext(table: Table, c: Cursor) returns (r: Option<Id>)
    ensures r == Next(table, c)
  {
    r := None;
    var todo := table.Keys;
    while todo != {}
      invariant todo <= table.Keys
      invariant r == None ==> forall j :: j in table && j !in todo ==> !Above(table, c, j)
      invariant r.Some? ==> Above(table, c, r.value) && r.value !in todo
      invariant r.Some? ==> forall j :: j in table && j !in todo && j != r.value && Above(table, c, j)
                                        ==> Less(KeyOf(table, r.value), KeyOf(table, j))
      decreases |todo|
    {
      var i :| i in todo;
      todo := todo - {i};
      if Less(c, KeyOf(table, i)) && (r == None || Less(KeyOf(table, i), KeyOf(table, r.value))) {
        r := Some(i);
      }
    }
    if r.Some? {
      assert IsNext(table, c, r.value);
      assert r.value in RowsAbove(table, c);
    }
  }

  /** Of the rows stamped after the cursor, or at it with a larger id, the first by stamp and then by id; all of
      them if they fit. */
  predicate FirstInOrder(table: Table, c: Cursor, batch: nat, page: seq<Id>) {
    && |page| <= batch
    && (forall i :: i in page ==>
          i in table && (table[i].updatedAt > c.since || (table[i].updatedAt == c.since && i > c.sinceId)))
    && (forall k, l :: 0 <= k < l < |page| ==>
          table[page[k]].updatedAt < table[page[l]].updatedAt
          || (table[page[k]].updatedAt == table[page[l]].updatedAt && page[k] < page[l]))
    && (forall j ::
          (j in table && j !in page
           && (table[j].updatedAt > c.since || (table[j].updatedAt == c.since && j > c.sinceId))) ==>
          && |page| == batch
          && forall k :: 0 <= k < batch ==>
               table[page[k]].updatedAt < table[j].updatedAt
               || (table[page[k]].updatedAt == table[j].updatedAt && page[k] < j))
  }

  lemma PageInOrder(table: Table, c: Cursor, batch: nat)
    ensures FirstInOrder(table, c, batch, Page(table, c, batch))
  {
    SortedIsTheTable(table, c);
    var all, page := Sorted(table, c), Page(table, c, batch);
    forall j |
      j in table && j !in page
      && (table[j].updatedAt > c.since || (table[j].updatedAt == c.since && j > c.sinceId))
      ensures |page| == batch
      ensures forall k :: 0 <= k < batch ==>
        table[page[k]].updatedAt < table[j].updatedAt
        || (table[page[k]].updatedAt == table[j].updatedAt && page[k] < j)
    {
      var l := OffThePage(all, batch, j);
    }
  }

  lemma OffThePage(all: seq<Id>, batch: nat, j: Id) returns (l: nat)
    requires j in all && j !in all[..Min(batch, |all|)]
    ensures Min(batch, |all|) == batch <= l < |all| && all[l] == j
  {
    l :| 0 <= l < |all| && all[l] == j;
    assert all == all[..Min(batch, |all|)] + all[Min(batch, |all|)..];
  }

  /** The keyset query: rows after the cursor in order, at most batch of them. */
  method SelectPage(table: Table, c: Cursor, batch: nat) returns (page: seq<Id>)
    ensures page == Page(table, c, batch) && FirstInOrder(table, c, batch, page)
  {
    page := [];
    var at, more := c, true;
    while more && |page| < batch
      invariant |page| <= batch
      invariant page + Sorted(table, at) == Sorted(table, c)
      invariant !more ==> Sorted(table, at) == []
      decreases more, batch - |page|
    {
      var next := SelectNext(table, at);
      if next == None {
        more := false;
      } else {
        TakeNext(page, next.value, Sorted(table, KeyOf(table, next.value)));
        page := page + [next.value];
        at := KeyOf(table, next.value);
      }
    }
    TakenIsPrefix(page, Sorted(table, at), batch);
    PageInOrder(table, c, batch);
  }

  lemma TakeNext(page: seq<Id>, i: Id, rest: seq<Id>)
    ensures page + ([i] + rest) == page + [i] + rest
  {
  }

  lemma TakenIsPrefix(page: seq<Id>, rest: seq<Id>, batch: nat)
    requires |page| == batch || (|page| < batch && rest == [])
    ensures (page + rest)[..Min(batch, |page + rest|)] == page
  {
  }

  lemma OneMoreView(table: Table, page: seq<Id>, k: nat)
    requires k < |page| && forall j :: 0 <= j < |page| ==> page[j] in table
    ensures ViewsOf(table, page[..k + 1]) == ViewsOf(table, page[..k]) + [BuildView(page[k], table[page[k]])]
    ensures page[..k + 1][k] == page[k]
  {
  }

  class PostgresPollFallback {
    const batch: nat
    var watermark: Time
    var watermarkId: Id
    /** Every incident.updated payload handed to the manager, in order. */
    var broadcast: seq<View>

    function At(): Cursor
      reads this
    {
      Cursor(watermark, watermarkId)
    }

    constructor (batch: nat, now: Time)
      ensures this.batch == batch && At() == Cursor(now, MAX_UUID) && broadcast == []
    {
      this.batch := batch;
      watermark, watermarkId := now, MAX_UUID;
      broadcast := [];
    }

    method PollChangesOnce(table: Table) returns (count: nat)
      modifies this
      ensures var page := Page(table, old(At()), batch);
              && FirstInOrder(table, old(At()), batch, page) && count == |page|
              && (forall k :: 0 <= k < |page| ==> page[k] in table)
              && broadcast == old(broadcast) + ViewsOf(table, page)
              && At() == EndOf(table, old(At()), page)
    {
      PageInTable(table, At(), batch);
      var page := SelectPage(table, At(), batch);
      SendPage(table, page);
      count := |page|;
    }

    /** Broadcasts the page row by row; the last row's key becomes the cursor. */
    method SendPage(table: Table, page: seq<Id>)
      requires forall k :: 0 <= k < |page| ==> page[k] in table
      modifies this
      ensures broadcast == old(broadcast) + ViewsOf(table, page)
      ensures At() == EndOf(table, old(At()), page)
    {
      ghost var c := At();
      assert broadcast + ViewsOf(table, page[..0]) == broadcast;
      for k := 0 to |page|
        invariant broadcast == old(broadcast) + ViewsOf(table, page[..k])
        invariant At() == EndOf(table, c, page[..k])
      {
        var i := page[k];
        OneMoreView(table, page, k);
        assert old(broadcast) + ViewsOf(table, page[..k + 1]) == broadcast + [BuildView(i, table[i])];
        broadcast := broadcast + [BuildView(i, table[i])];
        watermark, watermarkId := table[i].updatedAt, i;
      }
      assert page[..|page|] == page;
    }
  }

  // ----- many polls over a quiet table -----

  lemma {:induction false} SortedFromPage(table: Table, c: Cursor, n: nat)
    requires n <= |Sorted(table, c)|
    ensures forall k :: 0 <= k < n ==> Sorted(table, c)[..n][k] in table
    ensures Sorted(table, EndOf(table, c, Sorted(table, c)[..n])) == Sorted(table, c)[n..]
    decreases n
  {
    SortedAscends(table, c);
    if n > 0 {
      var i := Next(table, c).value;
      FewerAbove(table, c, i);
      var rest := Sorted(table, KeyOf(table, i));
      ConsSlices(i, rest, n);
      SortedFromPage(table, KeyOf(table, i), n - 1);
    }
  }

  lemma ConsSlices(i: Id, rest: seq<Id>, n: nat)
    requires 0 < n <= |rest| + 1
    ensures ([i] + rest)[..n] == [i] + rest[..n - 1] && ([i] + rest)[n..] == rest[n - 1..]
    ensures ([i] + rest)[..n][n - 1] == if n == 1 then i else rest[..n - 1][n - 2]
  {
  }

  /** The ids broadcast by successive polls. */
  ghost function Polled(table: Table, c: Cursor, batch: nat, polls: nat): seq<Id>
    decreases polls
  {
    if polls == 0 then []
    else PageInTable(table, c, batch);
         var page := Page(table, c, batch);
         page + Polled(table, EndOf(table, c, page), batch, polls - 1)
  }

  /** Successive polls broadcast the sorted list, in order and without repeats. */
  lemma {:induction false} PollsAreThePrefix(table: Table, c: Cursor, batch: nat, polls: nat)
    ensures Polled(table, c, batch, polls) == Sorted(table, c)[..Min(polls * batch, |Sorted(table, c)|)]
    decreases polls
  {
    if polls > 0 {
      var all := Sorted(table, c);
      var n := Min(batch, |all|);
      SortedFromPage(table, c, n);
      var end := EndOf(table, c, all[..n]);
      PollsAreThePrefix(table, end, batch, polls - 1);
      OneMoreBatch(polls, batch, |all|);
      Joined(all, n, Min((polls - 1) * batch, |all| - n));
    }
  }

  lemma Joined(all: seq<Id>, n: nat, m: nat)
    requires n + m <= |all|
    ensures all[..n] + all[n..][..m] == all[..n + m]
  {
  }

  /** What polls take is what the first takes and the others do. */
  lemma OneMoreBatch(polls: nat, batch: nat, left: nat)
    requires polls > 0
    ensures Min(polls * batch, left)
         == Min(batch, left) + Min((polls - 1) * batch, left - Min(batch, left))
  {
    assert polls * batch == batch + (polls - 1) * batch;
    assert (polls - 1) * batch >= 0;
  }

  /** A quiet table is paged out exactly once ceil(n / batch) polls have run, not before. */
  lemma PagedOutIff(table: Table, c: Cursor, batch: nat, polls: nat)
    requires batch >= 1
    ensures Polled(table, c, batch, polls) == Sorted(table, c) <==> polls >= PollsFor(|Sorted(table, c)|, batch)
  {
    PollsAreThePrefix(table, c, batch, polls);
    CeilingIff(|Sorted(table, c)|, batch, polls);
  }

  /** A row written now reaches the screens through later polls exactly when its key lies above the cursor. */
  lemma WriteIsSeenIff(table: Table, c: Cursor, i: Id, row: Incident, batch: nat, polls: nat)
    requires batch >= 1 && polls >= PollsFor(|Sorted(table[i := row], c)|, batch)
    ensures i in Polled(table[i := row], c, batch, polls)
            <==> row.updatedAt > c.since || (row.updatedAt == c.since && i > c.sinceId)
  {
    PagedOutIff(table[i := row], c, batch, polls);
    SortedAscends(table[i := row], c);
  }

  // ----- polls with writes in between -----

  /** table now, the cursor of the last query, the page read and not yet sent, and what each screen last got. */
  datatype State = State(table: Table, cursor: Cursor, unsent: seq<(Id, View)>, shown: map<Id, View>)

  datatype Step = Write(id: Id, row: Incident) | Query(batch: nat) | SendNext

  /** A write either stamps the row above the cursor, or leaves its stamp and its view alone (a claim does). */
  predicate Enabled(s: State, step: Step) {
    match step
    case Write(i, row) =>
      || row.updatedAt > s.cursor.since || (row.updatedAt == s.cursor.since && i > s.cursor.sinceId)
      || (i in s.table && row.updatedAt == s.table[i].updatedAt && BuildView(i, row) == BuildView(i, s.table[i]))
    case Query(_) => s.unsent == []
    case SendNext => s.unsent != []
  }

  ghost function Apply(s: State, step: Step): State
    requires Enabled(s, step)
  {
    match step
    case Write(i, row) => s.(table := s.table[i := row])
    case Query(batch) =>
      PageInTable(s.table, s.cursor, batch);
      var page := Page(s.table, s.cursor, batch);
      s.(cursor := EndOf(s.table, s.cursor, page), unsent := Tagged(page, ViewsOf(s.table, page)))
    case SendNext => s.(shown := s.shown[s.unsent[0].0 := s.unsent[0].1], unsent := s.unsent[1..])
  }

  function Tagged(ids: seq<Id>, views: seq<View>): seq<(Id, View)>
    requires |ids| == |views|
  {
    seq(|ids|, k requires 0 <= k < |ids| => (ids[k], views[k]))
  }

  ghost predicate Feasible(s: State, steps: seq<Step>)
    decreases |steps|
  {
    steps != [] ==> Enabled(s, steps[0]) && Feasible(Apply(s, steps[0]), steps[1..])
  }

  ghost function Run(s: State, steps: seq<Step>): State
    requires Feasible(s, steps)
    decreases |steps|
  {
    if steps == [] then s else Run(Apply(s, steps[0]), steps[1..])
  }

  predicate Waiting(s: State, i: Id) {
    exists k :: 0 <= k < |s.unsent| && s.unsent[k].0 == i
  }

  /** The screens have, or are about to get, the current view of every row in (start, cursor]. */
  ghost predicate Covered(s: State, start: Cursor) {
    && (forall k, l :: 0 <= k < l < |s.unsent| ==> s.unsent[k].0 != s.unsent[l].0)
    && (forall i :: i in s.table && !Less(s.cursor, KeyOf(s.table, i)) && Less(start, KeyOf(s.table, i)) ==>
          && (forall k :: 0 <= k < |s.unsent| && s.unsent[k].0 == i ==> s.unsent[k].1 == BuildView(i, s.table[i]))
          && (!Waiting(s, i) ==> i in s.shown && s.shown[i] == BuildView(i, s.table[i])))
  }

  lemma WriteKeepsCovered(s: State, start: Cursor, step: Step)
    requires Covered(s, start) && step.Write? && Enabled(s, step)
    ensures Covered(Apply(s, step), start)
  {
    var t := Apply(s, step);
    forall i | i in t.table && !Less(t.cursor, KeyOf(t.table, i)) && Less(start, KeyOf(t.table, i))
      ensures forall k :: 0 <= k < |t.unsent| && t.unsent[k].0 == i ==> t.unsent[k].1 == BuildView(i, t.table[i])
      ensures !Waiting(t, i) ==> i in t.shown && t.shown[i] == BuildView(i, t.table[i])
    {
      assert i in s.table && KeyOf(s.table, i) == KeyOf(t.table, i);
      assert Waiting(s, i) <==> Waiting(t, i);
    }
  }

  /** Rows up to the end of a page are the rows up to the old cursor and the page itself. */
  lemma PageReaches(table: Table, c: Cursor, batch: nat, i: Id)
    requires i in table
    ensures forall k :: 0 <= k < |Page(table, c, batch)| ==> Page(table, c, batch)[k] in table
    ensures !Less(EndOf(table, c, Page(table, c, batch)), KeyOf(table, i))
            ==> !Less(c, KeyOf(table, i)) || i in Page(table, c, batch)
  {
    PageInTable(table, c, batch);
    SortedAscends(table, c);
    var page, all := Page(table, c, batch), Sorted(table, c);
    if Less(c, KeyOf(table, i)) && !Less(EndOf(table, c, page), KeyOf(table, i)) {
      assert i in all;
      var k :| 0 <= k < |all| && all[k] == i;
      assert page != [];
      assert page[|page| - 1] == all[|page| - 1];
      assert k < |page|;
      assert page[k] == i;
    }
  }

  lemma PageDistinct(table: Table, c: Cursor, batch: nat, k: nat, l: nat)
    requires k < l < |Page(table, c, batch)|
    ensures Page(table, c, batch)[k] != Page(table, c, batch)[l]
  {
    SortedAscends(table, c);
    var all := Sorted(table, c);
    assert Less(KeyOf(table, all[k]), KeyOf(table, all[l]));
  }

  lemma QueryKeepsCovered(s: State, start: Cursor, step: Step)
    requires Covered(s, start) && step.Query? && Enabled(s, step)
    ensures Covered(Apply(s, step), start)
  {
    var t := Apply(s, step);
    PageInTable(s.table, s.cursor, step.batch);
    var page := Page(s.table, s.cursor, step.batch);
    forall k, l | 0 <= k < l < |t.unsent| ensures t.unsent[k].0 != t.unsent[l].0 {
      PageDistinct(s.table, s.cursor, step.batch, k, l);
    }
    forall i | i in t.table && !Less(t.cursor, KeyOf(t.table, i)) && Less(start, KeyOf(t.table, i))
      ensures forall k :: 0 <= k < |t.unsent| && t.unsent[k].0 == i ==> t.unsent[k].1 == BuildView(i, t.table[i])
      ensures !Waiting(t, i) ==> i in t.shown && t.shown[i] == BuildView(i, t.table[i])
    {
      PageReaches(s.table, s.cursor, step.batch, i);
      if i in page {
        var k :| 0 <= k < |page| && page[k] == i;
        assert t.unsent[k].0 == i;
      } else {
        assert !Waiting(s, i);
      }
    }
  }

  lemma SendKeepsCovered(s: State, start: Cursor, step: Step)
    requires Covered(s, start) && step.SendNext? && Enabled(s, step)
    ensures Covered(Apply(s, step), start)
  {
    var t := Apply(s, step);
    forall i | i in t.table && !Less(t.cursor, KeyOf(t.table, i)) && Less(start, KeyOf(t.table, i))
      ensures forall k :: 0 <= k < |t.unsent| && t.unsent[k].0 == i ==> t.unsent[k].1 == BuildView(i, t.table[i])
      ensures !Waiting(t, i) ==> i in t.shown && t.shown[i] == BuildView(i, t.table[i])
    {
      if i == s.unsent[0].0 {
        assert !Waiting(t, i);
      } else if Waiting(s, i) {
        var k :| 0 <= k < |s.unsent| && s.unsent[k].0 == i;
        assert t.unsent[k - 1].0 == i;
      }
    }
  }

  lemma {:induction false} RunKeepsCovered(s: State, start: Cursor, steps: seq<Step>)
    requires Covered(s, start) && Feasible(s, steps)
    ensures Covered(Run(s, steps), start)
    decreases |steps|
  {
    if steps != [] {
      match steps[0] {
        case Write(_, _) => WriteKeepsCovered(s, start, steps[0]);
        case Query(_) => QueryKeepsCovered(s, start, steps[0]);
        case SendNext => SendKeepsCovered(s, start, steps[0]);
      }
      RunKeepsCovered(Apply(s, steps[0]), start, steps[1..]);
    }
  }

  /** Once a run has gone quiet, what was last sent of every incident changed since the start is its current view. */
  lemma QuietMeansCurrent(table: Table, start: Cursor, shown: map<Id, View>, steps: seq<Step>, i: Id)
    requires Feasible(State(table, start, [], shown), steps)
    requires var end := Run(State(table, start, [], shown), steps);
             && end.unsent == [] && Drained(end)
             && i in end.table
             && (end.table[i].updatedAt > start.since
                 || (end.table[i].updatedAt == start.since && i > start.sinceId))
    ensures var end := Run(State(table, start, [], shown), steps);
            i in end.shown
            && var v, row := end.shown[i], end.table[i];
               && v.id == i && v.camera == row.facts.camera && v.zone == row.facts.zone && v.rule == row.facts.rule
               && v.anomaly == row.facts.anomaly && v.severity == row.facts.severity
               && v.objectClass == row.facts.objectClass && v.status == row.status
               && v.currentTier == row.currentTier && v.deadlineAt == row.deadlineAt
               && v.openedAt == row.createdAt
               && v.snapshotUrl == (if row.facts.snapshotUrl == Some("") then None else row.facts.snapshotUrl)
               && v.tierLabel == LabelInWords(row)
  {
    var first := State(table, start, [], shown);
    RunKeepsCovered(first, start, steps);
    var end := Run(first, steps);
    ViewShowsRow(BuildView(i, end.table[i]), i, end.table[i]);
  }

  /** A further query would find nothing: no row is stamped after the cursor. */
  predicate Drained(s: State) {
    forall j :: j in s.table ==>
      s.table[j].updatedAt < s.cursor.since || (s.table[j].updatedAt == s.cursor.since && j <= s.cursor.sinceId)
  }

  /** And that is so exactly when the next page is empty. */
  lemma DrainedIff(s: State, batch: nat)
    requires batch >= 1
    ensures Drained(s) <==> Page(s.table, s.cursor, batch) == []
  {
    SortedIsTheTable(s.table, s.cursor);
    var all := Sorted(s.table, s.cursor);
    assert Page(s.table, s.cursor, batch) == [] <==> all == [];
    if all != [] {
      var i := all[0];
      assert i in all;
    }
  }

  /** The fallback as it is started, at (now, the largest id): whatever is stamped after that moment is shown
      as it is once the polls have caught up. */
  lemma ShownSinceStart(table: Table, now: Time, steps: seq<Step>, i: Id)
    requires Feasible(State(table, Cursor(now, MAX_UUID), [], map[]), steps)
    requires var end := Run(State(table, Cursor(now, MAX_UUID), [], map[]), steps);
             end.unsent == [] && Drained(end) && i in end.table && end.table[i].updatedAt > now
    ensures var end := Run(State(table, Cursor(now, MAX_UUID), [], map[]), steps);
            i in end.shown && ShowsRow(end.shown[i], i, end.table[i])
  {
    QuietMeansCurrent(table, Cursor(now, MAX_UUID), map[], steps, i);
  }
}
