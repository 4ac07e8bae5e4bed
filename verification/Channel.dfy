/** One numbered stream per browser, and what the browser can tell from the numbers. */
module Channel {
  import opened Model
  import opened Live

  // ----- the server's end -----

  /** The k-th message carries number k + 1. */
  predicate Numbered(wire: seq<Envelope>) {
    forall k :: 0 <= k < |wire| ==> wire[k].seqNo == k + 1
  }

  predicate Increasing(wire: seq<Envelope>) {
    forall k, l :: 0 <= k < l < |wire| ==> wire[k].seqNo < wire[l].seqNo
  }

  /** What may be on the wire of a connection that has handed out n numbers: they only go up, and as long
      as no send has failed there is no hole. */
  predicate WireOk(wire: seq<Envelope>, n: nat, failed: bool) {
    && Increasing(wire)
    && (forall k :: 0 <= k < |wire| ==> 1 <= wire[k].seqNo <= n)
    && (!failed ==> |wire| == n && Numbered(wire))
  }

  lemma PutKeepsWireOk(wire: seq<Envelope>, n: nat, failed: bool, e: Envelope)
    requires WireOk(wire, n, failed) && e.seqNo == n + 1
    ensures WireOk(wire + [e], n + 1, failed) && WireOk(wire, n + 1, true)
  {
  }

  class Connection {
    var seqNo: nat
    /** What the socket accepted. */
    var wire: seq<Envelope>
    /** Some send on this connection has raised. */
    ghost var failed: bool

    ghost predicate Valid()
      reads this
    {
      WireOk(wire, seqNo, failed)
    }

    constructor ()
      ensures Valid() && seqNo == 0 && wire == [] && !failed
    {
      seqNo, wire, failed := 0, [], false;
    }

    method NextSeq() returns (n: nat)
      modifies this`seqNo
      ensures n == seqNo == old(seqNo) + 1
    {
      seqNo := seqNo + 1;
      n := seqNo;
    }

    /** The connection has used one more number and, if its socket was up, got the message with it. */
    ghost predicate Served(was: nat, wireWas: seq<Envelope>, failedWas: bool, now: Time, payload: Payload, up: bool)
      reads this
    {
      && seqNo == was + 1 && failed == (failedWas || !up)
      && wire == wireWas + (if up then [Envelope(seqNo, now, payload)] else [])
    }

    lemma ServedIsValid(was: nat, wireWas: seq<Envelope>, failedWas: bool, now: Time, payload: Payload, up: bool)
      requires WireOk(wireWas, was, failedWas) && Served(was, wireWas, failedWas, now, payload, up)
      ensures Valid()
    {
      PutKeepsWireOk(wireWas, was, failedWas, Envelope(was + 1, now, payload));
      assert wireWas + [] == wireWas;
    }

    /** Number an envelope and hand it to the socket; a socket that is down raises after the number is taken. */
    method Put(now: Time, payload: Payload, up: bool)
      modifies this
      ensures Served(old(seqNo), old(wire), old(failed), now, payload, up)
    {
      var n := NextSeq();
      if up {
        wire := wire + [Envelope(n, now, payload)];
      } else {
        failed := true;
      }
    }
  }

  class ConnectionManager {
    var conns: set<Connection>

    /** Every registered connection is numbered 1, 2, 3, ... with no hole. */
    ghost predicate Healthy()
      reads this, conns
    {
      forall c :: c in conns ==> c.Valid() && !c.failed
    }

    constructor ()
      ensures Healthy() && conns == {}
    {
      conns := {};
    }

    method Connect() returns (c: Connection)
      requires Healthy()
      modifies this
      ensures fresh(c) && conns == old(conns) + {c} && Healthy()
      ensures c.seqNo == 0 && c.wire == []
    {
      c := new Connection();
      conns := conns + {c};
    }

    method Disconnect(c: Connection)
      modifies this
      ensures conns == old(conns) - {c}
    {
      conns := conns - {c};
    }

    /** Send to one connection and, as every caller does, disconnect it when the send raises. */
    method Send(c: Connection, now: Time, payload: Payload, up: bool)
      requires Healthy() && c.Valid()
      modifies this, c
      ensures Healthy() && c.Valid()
      ensures conns == if up then old(conns) else old(conns) - {c}
      ensures c.Served(old(c.seqNo), old(c.wire), old(c.failed), now, payload, up)
    {
      c.Put(now, payload, up);
      c.ServedIsValid(old(c.seqNo), old(c.wire), old(c.failed), now, payload, up);
      if !up {
        Disconnect(c);
      }
    }

    /** Fan a message out: every connection uses up a number, those whose socket is up get the message, the
        others are dropped, and the survivors are counted. */
    method Broadcast(now: Time, payload: Payload, up: set<Connection>) returns (sent: nat)
      requires Healthy()
      modifies this, conns
      ensures Healthy()
      ensures conns == old(conns) * up && sent == |conns|
      ensures forall c :: c in old(conns) ==>
        c.Valid() && c.Served(old(c.seqNo), old(c.wire), false, now, payload, c in up)
    {
      var dead: set<Connection>;
      sent, dead := FanOut(conns, now, payload, up);
      forall c | c in conns ensures c.Valid() {
        c.ServedIsValid(old(c.seqNo), old(c.wire), false, now, payload, c in up);
      }
      assert conns - dead == conns * up;
      conns := conns - dead;
    }
  }

  method FanOut(conns: set<Connection>, now: Time, payload: Payload, up: set<Connection>)
      returns (sent: nat, dead: set<Connection>)
    modifies conns
    ensures forall c :: c in conns ==> c.Served(old(c.seqNo), old(c.wire), old(c.failed), now, payload, c in up)
    ensures dead == conns - up && sent == |conns - dead|
  {
    sent, dead := 0, {};
    var todo := conns;
    while todo != {}
      invariant Counted(conns, up, todo, sent, dead)
      invariant forall c :: c in todo ==> unchanged(c)
      invariant forall c :: c in conns && c !in todo ==>
                  c.Served(old(c.seqNo), old(c.wire), old(c.failed), now, payload, c in up)
      decreases |todo|
    {
      var c :| c in todo;
      CountOne(conns, up, todo, sent, dead, c);
      todo := todo - {c};
      c.Put(now, payload, c in up);
      if c in up {
        sent := sent + 1;
      } else {
        dead := dead + {c};
      }
    }
  }

  /** Of the connections already served, `sent` took the message and `dead` are those whose socket is down. */
  ghost predicate Counted(conns: set<Connection>, up: set<Connection>, todo: set<Connection>, sent: nat,
                          dead: set<Connection>) {
    && todo <= conns && dead <= conns - todo
    && (forall c :: c in conns && c !in todo ==> (c in dead <==> c !in up))
    && sent == |conns| - |todo| - |dead|
  }

  lemma CountOne(conns: set<Connection>, up: set<Connection>, todo: set<Connection>, sent: nat, dead: set<Connection>,
                 c: Connection)
    requires Counted(conns, up, todo, sent, dead) && c in todo
    ensures Counted(conns, up, todo - {c}, if c in up then sent + 1 else sent, if c in up then dead else dead + {c})
  {
  }

  // ----- the browser's end -----

  /** The envelopes the reducer took, in order of arrival. */
  function AppliedOf(st: LiveState, arrived: seq<Envelope>): seq<Envelope> {
    if arrived == [] then []
    else var front, last := arrived[..|arrived| - 1], arrived[|arrived| - 1];
         AppliedOf(st, front) + (if Reduce(ReduceAll(st, front), last).applied then [last] else [])
  }

  /** Some arrival raised the gap flag. */
  predicate GapFlagged(st: LiveState, arrived: seq<Envelope>) {
    arrived != []
    && (GapFlagged(st, arrived[..|arrived| - 1])
        || Reduce(ReduceAll(st, arrived[..|arrived| - 1]), arrived[|arrived| - 1]).gap)
  }

  predicate NoSnapshot(arrived: seq<Envelope>) {
    forall k :: 0 <= k < |arrived| ==> !arrived[k].payload.Snapshot?
  }

  function NumbersOf(envs: seq<Envelope>): set<nat> {
    set k | 0 <= k < |envs| :: envs[k].seqNo
  }

  /** Numbers passed over: above the anchor, up to the last one seen, and never applied. */
  function Missed(st: LiveState, arrived: seq<Envelope>): set<nat> {
    Gaps(st.lastSeq, ReduceAll(st, arrived).lastSeq, NumbersOf(AppliedOf(st, arrived)))
  }

  function Between(a: nat, b: nat): (r: set<nat>)
    ensures forall n :: n in r <==> a < n < b
    decreases b
  {
    if b <= a + 1 then {} else Between(a, b - 1) + {b - 1}
  }

  lemma {:induction false} BetweenSize(a: nat, b: nat)
    requires a < b
    ensures |Between(a, b)| == b - a - 1
    decreases b
  {
    if a + 1 < b { BetweenSize(a, b - 1); }
  }

  lemma NumbersSnoc(envs: seq<Envelope>, e: Envelope)
    ensures NumbersOf(envs + [e]) == NumbersOf(envs) + {e.seqNo}
  {
    var all := envs + [e];
    forall n ensures n in NumbersOf(all) <==> n in NumbersOf(envs) + {e.seqNo} {
      if n in NumbersOf(envs) {
        var k :| 0 <= k < |envs| && envs[k].seqNo == n;
        assert all[k].seqNo == n;
      }
      if n == e.seqNo { assert all[|envs|].seqNo == n; }
    }
  }

  lemma OneMoreArrival(st: LiveState, arrived: seq<Envelope>, e: Envelope)
    ensures ReduceAll(st, arrived + [e]) == Reduce(ReduceAll(st, arrived), e).state
    ensures AppliedOf(st, arrived + [e])
            == if Reduce(ReduceAll(st, arrived), e).applied then AppliedOf(st, arrived) + [e]
               else AppliedOf(st, arrived)
    ensures GapFlagged(st, arrived + [e]) <==> GapFlagged(st, arrived) || Reduce(ReduceAll(st, arrived), e).gap
  {
    assert (arrived + [e])[..|arrived|] == arrived;
    assert AppliedOf(st, arrived) + [] == AppliedOf(st, arrived);
  }

  /** The server time a browser goes by, and the number it has seen last, are those of the last envelope it took. */
  lemma {:induction false} MarkIsLastApplied(st: LiveState, arrived: seq<Envelope>)
    ensures var now, taken := ReduceAll(st, arrived), AppliedOf(st, arrived);
            if taken == [] then now == st
            else now.lastServerNow == Some(taken[|taken| - 1].serverNow) && now.lastSeq == taken[|taken| - 1].seqNo
  {
    if arrived != [] {
      var front, last := arrived[..|arrived| - 1], arrived[|arrived| - 1];
      MarkIsLastApplied(st, front);
      assert arrived == front + [last];
      OneMoreArrival(st, front, last);
    }
  }

  /** The reducer only moves forward: all it applied lies above the anchor and at or below the mark. */
  lemma {:induction false} AppliedAbove(st: LiveState, arrived: seq<Envelope>)
    requires st.lastSeq >= 1 && NoSnapshot(arrived)
    ensures ReduceAll(st, arrived).lastSeq >= st.lastSeq
    ensures forall n :: n in NumbersOf(AppliedOf(st, arrived)) ==> st.lastSeq < n <= ReduceAll(st, arrived).lastSeq
    ensures forall k :: 0 <= k < |arrived| ==> arrived[k].seqNo <= ReduceAll(st, arrived).lastSeq
  {
    if arrived != [] {
      var front, last := arrived[..|arrived| - 1], arrived[|arrived| - 1];
      AppliedAbove(st, front);
      assert arrived == front + [last];
      OneMoreArrival(st, front, last);
      NumbersSnoc(AppliedOf(st, front), last);
      forall k | 0 <= k < |arrived| ensures arrived[k].seqNo <= ReduceAll(st, arrived).lastSeq {
        if k < |front| { assert front[k] == arrived[k]; }
      }
    }
  }

  /** An envelope that has arrived before changes nothing, however late or often it comes again. */
  lemma DuplicatesAreIdentities(st: LiveState, arrived: seq<Envelope>, e: Envelope)
    requires st.lastSeq >= 1 && NoSnapshot(arrived) && e in arrived
    ensures ReduceAll(st, arrived + [e]) == ReduceAll(st, arrived)
    ensures AppliedOf(st, arrived + [e]) == AppliedOf(st, arrived)
    ensures GapFlagged(st, arrived + [e]) == GapFlagged(st, arrived)
  {
    AppliedAbove(st, arrived);
    OneMoreArrival(st, arrived, e);
  }

  lemma MissedStep(st: LiveState, arrived: seq<Envelope>, e: Envelope)
    requires st.lastSeq >= 1 && NoSnapshot(arrived) && !e.payload.Snapshot?
    ensures var mark := ReduceAll(st, arrived).lastSeq;
            if e.seqNo <= mark
            then Missed(st, arrived + [e]) == Missed(st, arrived)
            else Missed(st, arrived + [e]) == Missed(st, arrived) + Between(mark, e.seqNo)
                 && Missed(st, arrived) !! Between(mark, e.seqNo)
  {
    AppliedAbove(st, arrived);
    OneMoreArrival(st, arrived, e);
    var mark, numbers := ReduceAll(st, arrived).lastSeq, NumbersOf(AppliedOf(st, arrived));
    if e.seqNo > mark {
      NumbersSnoc(AppliedOf(st, arrived), e);
      MissedBelow(st.lastSeq, mark, e.seqNo, numbers);
    }
  }

  /** The numbers in (low, high] that are not in `numbers`. */
  function Gaps(low: nat, high: nat, numbers: set<nat>): set<nat> {
    set n | low < n <= high && n !in numbers
  }

  lemma MissedBelow(low: nat, mark: nat, next: nat, numbers: set<nat>)
    requires low <= mark < next && forall n :: n in numbers ==> low < n <= mark
    ensures Gaps(low, next, numbers + {next}) == Gaps(low, mark, numbers) + Between(mark, next)
    ensures Gaps(low, mark, numbers) !! Between(mark, next)
  {
  }

  /** The distance travelled from the anchor is what was applied plus what was missed. */
  lemma {:induction false} GapAccounting(st: LiveState, arrived: seq<Envelope>)
    requires st.lastSeq >= 1 && NoSnapshot(arrived)
    ensures ReduceAll(st, arrived).lastSeq - st.lastSeq == |AppliedOf(st, arrived)| + |Missed(st, arrived)|
  {
    if arrived == [] {
      assert Missed(st, []) == {};
    } else {
      var front, last := arrived[..|arrived| - 1], arrived[|arrived| - 1];
      GapAccounting(st, front);
      assert arrived == front + [last];
      AppliedAbove(st, front);
      OneMoreArrival(st, front, last);
      MissedStep(st, front, last);
      if last.seqNo > ReduceAll(st, front).lastSeq {
        BetweenSize(ReduceAll(st, front).lastSeq, last.seqNo);
      }
    }
  }

  /** A gap is flagged exactly when some number has been missed. */
  lemma {:induction false} FlaggedIffMissed(st: LiveState, arrived: seq<Envelope>)
    requires st.lastSeq >= 1 && NoSnapshot(arrived)
    ensures GapFlagged(st, arrived) <==> Missed(st, arrived) != {}
  {
    if arrived == [] {
      assert Missed(st, []) == {};
    } else {
      var front, last := arrived[..|arrived| - 1], arrived[|arrived| - 1];
      FlaggedIffMissed(st, front);
      assert arrived == front + [last];
      AppliedAbove(st, front);
      OneMoreArrival(st, front, last);
      MissedStep(st, front, last);
      var mark := ReduceAll(st, front).lastSeq;
      if IsForwardGap(mark, last.seqNo) {
        assert mark + 1 in Between(mark, last.seqNo);
      } else if last.seqNo > mark {
        assert Between(mark, last.seqNo) == {};
      }
    }
  }

  // ----- both ends together -----

  predicate FromWire(wire: seq<Envelope>, arrived: seq<Envelope>) {
    forall k :: 0 <= k < |arrived| ==> arrived[k] in wire
  }

  lemma WireIndex(wire: seq<Envelope>, e: Envelope)
    requires Numbered(wire) && e in wire
    ensures 1 <= e.seqNo <= |wire| && wire[e.seqNo - 1] == e
  {
    var k :| 0 <= k < |wire| && wire[k] == e;
  }

  /** What the browser has applied is the sent stream from its anchor to its mark. */
  predicate ExactSoFar(wire: seq<Envelope>, st: LiveState, arrived: seq<Envelope>) {
    var mark := ReduceAll(st, arrived).lastSeq;
    st.lastSeq <= mark <= |wire| && AppliedOf(st, arrived) == wire[st.lastSeq..mark]
  }

  /** The envelopes not applied leave no trace: the state is the fold of the applied ones. */
  lemma {:induction false} StateIsFoldOfApplied(st: LiveState, arrived: seq<Envelope>)
    ensures ReduceAll(st, arrived) == ReduceAll(st, AppliedOf(st, arrived))
  {
    if arrived != [] {
      var front, last := arrived[..|arrived| - 1], arrived[|arrived| - 1];
      assert arrived == front + [last];
      StateIsFoldOfApplied(st, front);
      OneMoreArrival(st, front, last);
      OneMoreArrival(st, AppliedOf(st, front), last);
    }
  }

  lemma ReduceAtMark(cur: LiveState, e: Envelope)
    requires cur.lastSeq >= 1 && !e.payload.Snapshot? && !Reduce(cur, e).gap
    ensures if e.seqNo <= cur.lastSeq then Reduce(cur, e).state == cur && !Reduce(cur, e).applied
            else Reduce(cur, e).applied && e.seqNo == Reduce(cur, e).state.lastSeq == cur.lastSeq + 1
  {
  }

  lemma NoFlagStep(wire: seq<Envelope>, st: LiveState, arrived: seq<Envelope>, e: Envelope)
    requires Numbered(wire) && e in wire && !e.payload.Snapshot? && st.lastSeq >= 1
    requires ExactSoFar(wire, st, arrived) && !Reduce(ReduceAll(st, arrived), e).gap
    ensures ExactSoFar(wire, st, arrived + [e])
  {
    ReduceAtMark(ReduceAll(st, arrived), e);
    OneMoreArrival(st, arrived, e);
    if e.seqNo > ReduceAll(st, arrived).lastSeq {
      TakeNext(wire, st.lastSeq, ReduceAll(st, arrived).lastSeq, e);
    }
  }

  lemma TakeNext(wire: seq<Envelope>, from: nat, mark: nat, e: Envelope)
    requires Numbered(wire) && e in wire && from <= mark && e.seqNo == mark + 1
    ensures mark < |wire| && wire[from..mark + 1] == wire[from..mark] + [e]
  {
    WireIndex(wire, e);
  }

  /** With no flag raised, whatever was dropped, repeated or overtaken on the way, the browser has applied
      exactly the stretch of the sent stream after its anchor, in order. */
  lemma {:induction false} NoFlagNoLoss(wire: seq<Envelope>, st: LiveState, arrived: seq<Envelope>)
    requires Numbered(wire) && FromWire(wire, arrived) && NoSnapshot(arrived)
    requires 1 <= st.lastSeq <= |wire| && !GapFlagged(st, arrived)
    ensures ExactSoFar(wire, st, arrived)
    ensures ReduceAll(st, arrived) == ReduceAll(st, wire[st.lastSeq..ReduceAll(st, arrived).lastSeq])
  {
    StateIsFoldOfApplied(st, arrived);
    if arrived != [] {
      var front, last := arrived[..|arrived| - 1], arrived[|arrived| - 1];
      assert arrived == front + [last];
      OneMoreArrival(st, front, last);
      NoFlagNoLoss(wire, st, front);
      NoFlagStep(wire, st, front, last);
    }
  }

  /** A message of the stretch that never arrived always shows: once anything later is applied, a gap is flagged. */
  lemma LossIsFlagged(wire: seq<Envelope>, st: LiveState, arrived: seq<Envelope>, n: nat)
    requires Numbered(wire) && FromWire(wire, arrived) && NoSnapshot(arrived) && st.lastSeq >= 1
    requires st.lastSeq < n <= ReduceAll(st, arrived).lastSeq && n <= |wire| && wire[n - 1] !in arrived
    ensures GapFlagged(st, arrived)
  {
    FlaggedIffMissed(st, arrived);
    AppliedArrived(st, arrived);
    if n in NumbersOf(AppliedOf(st, arrived)) {
      var k :| 0 <= k < |AppliedOf(st, arrived)| && AppliedOf(st, arrived)[k].seqNo == n;
      WireIndex(wire, AppliedOf(st, arrived)[k]);
      assert false;
    }
    assert n in Missed(st, arrived);
  }

  lemma {:induction false} AppliedArrived(st: LiveState, arrived: seq<Envelope>)
    ensures forall k :: 0 <= k < |AppliedOf(st, arrived)| ==> AppliedOf(st, arrived)[k] in arrived
  {
    if arrived != [] {
      AppliedArrived(st, arrived[..|arrived| - 1]);
    }
  }
}
