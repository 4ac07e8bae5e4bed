/** What every sequence of healthy polls achieves, at whatever times they come, in whatever order the claimed
    rows are fired, and whatever delays are configured. */
module Fairness {
  import opened Model
  import opened Protocol
  import opened Recovery
  import opened Batching
  import Escalation

  // ----- a healthy poll, its rows fired in any order -----

  /** The worker fires incidents it holds tickets on, each once. */
  ghost predicate FiresOnce(steps: seq<Step>, w: Id) {
    && AllFire(steps, w)
    && forall j, k :: 0 <= j < k < |steps| ==> steps[j].i != steps[k].i
  }

  ghost function FiredIds(steps: seq<Step>): set<Id>
    requires forall k :: 0 <= k < |steps| ==> steps[k].Fire?
  {
    set k | 0 <= k < |steps| :: steps[k].i
  }

  ghost predicate ReadyToFire(s: Sys, w: Id, i: Id) {
    (w, i) in s.tickets && i in s.db.incidents && Escalation.PassesRecheck(s.db.incidents[i])
  }

  lemma LastFired(steps: seq<Step>, w: Id)
    requires steps != [] && FiresOnce(steps, w)
    ensures var front := steps[..|steps| - 1];
            && FiresOnce(front, w) && steps[|steps| - 1].i !in FiredIds(front)
            && FiredIds(steps) == FiredIds(front) + {steps[|steps| - 1].i}
  {
    var n := |steps| - 1;
    forall i ensures i in FiredIds(steps) <==> i in FiredIds(steps[..n]) + {steps[n].i} {
      if i in FiredIds(steps) {
        var k :| 0 <= k < |steps| && steps[k].i == i;
        if k < n { assert steps[..n][k].i == i; }
      }
      if i in FiredIds(steps[..n]) {
        var k :| 0 <= k < n && steps[..n][k].i == i;
        assert steps[k].i == i;
      }
    }
  }

  /** Firing held rows once each advances exactly these, whatever the order. */
  lemma {:induction false} FiresInAnyOrder(env: Env, s: Sys, w: Id, steps: seq<Step>)
    requires Sound(s) && Feasible(env, s, steps) && FiresOnce(steps, w)
    requires forall i :: i in FiredIds(steps) ==> ReadyToFire(s, w, i)
    ensures Sound(Run(env, s, steps)) && AdvancedAll(env, s, Run(env, s, steps), FiredIds(steps))
    decreases |steps|
  {
    if steps != [] {
      var front, st := steps[..|steps| - 1], steps[|steps| - 1];
      LastFired(steps, w);
      FiresInAnyOrder(env, s, w, front);
      var m := Run(env, s, front);
      assert ReadyToFire(s, w, st.i) && m.db.incidents[st.i] == s.db.incidents[st.i];
      FireOne(env, m, w, st.i, st.outboxId);
      AdvancedTwice(env, s, m, Apply(env, m, st), FiredIds(front), {st.i});
    }
  }

  /** The worker claims the incidents and fires each of them once. */
  ghost predicate HealthyPoll(steps: seq<Step>, w: Id, ids: set<Id>) {
    && |steps| >= 1 && steps[0].Claim? && steps[0].w == w && steps[0].ids == ids
    && FiresOnce(steps[1..], w) && FiredIds(steps[1..]) == ids
  }

  /** Every healthy poll advances exactly the incidents it claimed by one tier each. */
  lemma HealthyPollAdvances(env: Env, s: Sys, steps: seq<Step>, w: Id, ids: set<Id>)
    requires Sound(s) && Feasible(env, s, steps) && HealthyPoll(steps, w, ids)
    ensures ids <= Due(s)
    ensures Sound(Run(env, s, steps)) && AdvancedAll(env, s, Run(env, s, steps), ids)
  {
    var st, fires := steps[0], steps[1..];
    assert [st] + fires == steps;
    RunsSplit(env, s, [st], fires);
    RunsCompose(env, s, [st], fires);
    FirstStep(env, s, st);
    ClaimLeavesSound(env, s, st);
    ClaimGrants(env, s, w, ids, st.lease);
    var m := Apply(env, s, st);
    assert forall i :: i in ids ==> ReadyToFire(m, w, i);
    FiresInAnyOrder(env, m, w, fires);
    ClaimThenAdvance(env, s, m, Run(env, s, steps), w, ids, st.lease);
  }

  lemma FirstStep(env: Env, s: Sys, st: Step)
    requires Feasible(env, s, [st])
    ensures Enabled(s, st) && Run(env, s, [st]) == Apply(env, s, st)
  {
    assert [st][..0] == [];
  }

  lemma ClaimLeavesSound(env: Env, s: Sys, st: Step)
    requires Sound(s) && Enabled(s, st) && st.Claim?
    ensures Sound(Apply(env, s, st)) && st.ids <= Due(s)
  {
    QuietStepKeepsEscalation(env, s, st);
    QuietStepKeepsPages(env, s, st);
  }

  // ----- rounds: wait, then poll -----

  datatype Round = Round(wait: nat, ids: set<Id>)

  ghost function Waited(s: Sys, r: Round): Sys {
    s.(now := s.now + r.wait)
  }

  /** After the wait the poll takes a batch in timer order and advances it. */
  ghost predicate RoundOk(env: Env, batch: nat, s: Sys, r: Round, f: Sys) {
    && IsBatch(s.db.incidents, Due(Waited(s, r)), r.ids, batch)
    && AdvancedAll(env, Waited(s, r), f, r.ids)
  }

  /** Successive rounds, from each state to the next. */
  ghost predicate RoundsOk(env: Env, batch: nat, states: seq<Sys>, rounds: seq<Round>) {
    && |states| == |rounds| + 1
    && forall k :: 0 <= k < |rounds| ==> RoundOk(env, batch, states[k], rounds[k], states[k + 1])
  }

  /** A tick and a healthy poll that takes its batch in timer order are a round, whatever the firing order. */
  lemma RunIsRound(env: Env, s: Sys, r: Round, poll: seq<Step>, w: Id, batch: nat)
    requires Sound(s) && Feasible(env, Waited(s, r), poll) && HealthyPoll(poll, w, r.ids)
    requires IsBatch(s.db.incidents, Due(Waited(s, r)), r.ids, batch)
    ensures RoundOk(env, batch, s, r, Run(env, Waited(s, r), poll)) && Sound(Run(env, Waited(s, r), poll))
  {
    HealthyPollAdvances(env, Waited(s, r), poll, w, r.ids);
  }

  // ----- potential -----

  /** Fires an incident has left. */
  function Room(rows: map<Id, Incident>, i: Id): nat {
    if i in rows && rows[i].currentTier < 3 then 3 - rows[i].currentTier else 0
  }

  ghost function Potential(rows: map<Id, Incident>, ids: set<Id>): nat {
    if ids == {} then 0 else var i :| i in ids; Room(rows, i) + Potential(rows, ids - {i})
  }

  lemma {:induction false} PotentialRemove(rows: map<Id, Incident>, ids: set<Id>, j: Id)
    requires j in ids
    ensures Potential(rows, ids) == Room(rows, j) + Potential(rows, ids - {j})
    decreases |ids|
  {
    var i :| i in ids && Potential(rows, ids) == Room(rows, i) + Potential(rows, ids - {i});
    if i != j {
      PotentialRemove(rows, ids - {i}, j);
      PotentialRemove(rows, ids - {j}, i);
      assert ids - {i} - {j} == ids - {j} - {i};
    }
  }

  lemma {:induction false} PotentialSubset(rows: map<Id, Incident>, a: set<Id>, b: set<Id>)
    requires a <= b
    ensures Potential(rows, a) <= Potential(rows, b)
    decreases |b|
  {
    if b != {} {
      var i :| i in b;
      PotentialRemove(rows, b, i);
      if i in a {
        PotentialRemove(rows, a, i);
        PotentialSubset(rows, a - {i}, b - {i});
      } else {
        PotentialSubset(rows, a, b - {i});
      }
    }
  }

  /** A fire of each of some of the incidents takes one from each of them. */
  lemma {:induction false} PotentialFalls(rows: map<Id, Incident>, rows': map<Id, Incident>, ids: set<Id>,
                                          fired: set<Id>)
    requires fired <= ids
    requires forall i :: i in ids ==> Room(rows', i) + (if i in fired then 1 else 0) == Room(rows, i)
    ensures Potential(rows', ids) + |fired| == Potential(rows, ids)
    decreases |ids|
  {
    if ids == {} {
      assert fired == {};
    } else {
      var i :| i in ids;
      PotentialRemove(rows, ids, i);
      PotentialRemove(rows', ids, i);
      PotentialFalls(rows, rows', ids - {i}, fired - {i});
      assert |fired| == |fired - {i}| + if i in fired then 1 else 0;
    }
  }

  lemma {:induction false} PotentialBound(rows: map<Id, Incident>, ids: set<Id>)
    ensures Potential(rows, ids) <= 3 * |ids|
    decreases |ids|
  {
    if ids != {} {
      var i :| i in ids;
      PotentialRemove(rows, ids, i);
      PotentialBound(rows, ids - {i});
    }
  }

  // ----- nobody waits for ever -----

  predicate Armed(rows: map<Id, Incident>, i: Id) {
    i in rows && Active(rows[i].status) && rows[i].nextFireAt.Some?
  }

  /** The incident and all that a poll may prefer to it: those whose timers are no later, leased ones included. */
  ghost function Ahead(rows: map<Id, Incident>, i: Id): set<Id>
    requires Armed(rows, i)
  {
    set j | j in rows && Armed(rows, j) && rows[j].nextFireAt.value <= rows[i].nextFireAt.value
  }

  /** A round that passes i over is a full batch of incidents ahead of it. */
  lemma PassedOver(env: Env, batch: nat, s: Sys, r: Round, f: Sys, i: Id)
    requires RoundOk(env, batch, s, r, f) && i in Due(Waited(s, r)) && i !in r.ids
    ensures i in f.db.incidents && f.db.incidents[i] == s.db.incidents[i]
    ensures |r.ids| == batch && r.ids <= Ahead(s.db.incidents, i)
    ensures Ahead(f.db.incidents, i) <= Ahead(s.db.incidents, i)
  {
    var due := Due(Waited(s, r));
    if |due| <= batch {
      SameSize(r.ids, due);
      assert false;
    }
    forall j | j in r.ids ensures j in Ahead(s.db.incidents, i) {
      assert j in due && i in due - r.ids;
    }
    forall j | j in Ahead(f.db.incidents, i) ensures j in Ahead(s.db.incidents, i) {
      if j !in r.ids {
        assert f.db.incidents[j] == s.db.incidents[j];
      }
    }
  }

  lemma SameSize(a: set<Id>, b: set<Id>)
    requires a <= b && |a| == |b|
    ensures a == b
  {
    assert |b - a| == |b| - |a|;
  }

  lemma PassedOverCosts(env: Env, batch: nat, s: Sys, r: Round, f: Sys, i: Id)
    requires RoundOk(env, batch, s, r, f) && i in Due(Waited(s, r)) && i !in r.ids
    ensures i in f.db.incidents && Armed(f.db.incidents, i)
    ensures Potential(f.db.incidents, Ahead(f.db.incidents, i)) + batch
            <= Potential(s.db.incidents, Ahead(s.db.incidents, i))
  {
    PassedOver(env, batch, s, r, f, i);
    var ahead := Ahead(s.db.incidents, i);
    forall j | j in ahead
      ensures Room(f.db.incidents, j) + (if j in r.ids then 1 else 0) == Room(s.db.incidents, j)
    {
      OneFireLess(env, s, r, f, j);
    }
    PotentialFalls(s.db.incidents, f.db.incidents, ahead, r.ids);
    PotentialSubset(f.db.incidents, Ahead(f.db.incidents, i), ahead);
  }

  lemma OneFireLess(env: Env, s: Sys, r: Round, f: Sys, j: Id)
    requires AdvancedAll(env, Waited(s, r), f, r.ids) && j in s.db.incidents
    ensures Room(f.db.incidents, j) + (if j in r.ids then 1 else 0) == Room(s.db.incidents, j)
  {
    if j in r.ids {
      assert Advanced(env, Waited(s, r).now, s.db.incidents[j], f.db.incidents[j]);
    }
  }

  /** Round k is the first to take i: until then the row is untouched, and then it is one tier further. */
  ghost predicate FirstTaken(env: Env, states: seq<Sys>, rounds: seq<Round>, i: Id, k: nat)
    requires |states| == |rounds| + 1
  {
    && k < |rounds| && i in rounds[k].ids && (forall j :: 0 <= j < k ==> i !in rounds[j].ids)
    && i in states[0].db.incidents && i in states[k].db.incidents && i in states[k + 1].db.incidents
    && states[k].db.incidents[i] == states[0].db.incidents[i]
    && Advanced(env, states[k + 1].now, states[0].db.incidents[i], states[k + 1].db.incidents[i])
  }

  lemma TakenLater(env: Env, states: seq<Sys>, rounds: seq<Round>, i: Id, k: nat)
    requires |states| == |rounds| + 1 && rounds != [] && i !in rounds[0].ids
    requires i in states[0].db.incidents && i in states[1].db.incidents
    requires states[1].db.incidents[i] == states[0].db.incidents[i]
    requires FirstTaken(env, states[1..], rounds[1..], i, k)
    ensures FirstTaken(env, states, rounds, i, k + 1)
  {
    assert states[1..][k] == states[k + 1] && states[1..][k + 1] == states[k + 2];
    assert forall j :: 0 < j < k + 1 ==> rounds[j] == rounds[1..][j - 1];
  }

  lemma RestOfRounds(env: Env, batch: nat, states: seq<Sys>, rounds: seq<Round>)
    requires RoundsOk(env, batch, states, rounds) && rounds != []
    ensures RoundsOk(env, batch, states[1..], rounds[1..])
  {
    forall k | 0 <= k < |rounds| - 1 ensures RoundOk(env, batch, states[1..][k], rounds[1..][k], states[1..][k + 1]) {
      assert RoundOk(env, batch, states[k + 1], rounds[k + 1], states[k + 2]);
    }
  }

  lemma FirstRound(env: Env, batch: nat, states: seq<Sys>, rounds: seq<Round>, i: Id)
    requires RoundsOk(env, batch, states, rounds) && rounds != [] && i in Due(Waited(states[0], rounds[0]))
    ensures RoundOk(env, batch, states[0], rounds[0], states[1])
    ensures i in rounds[0].ids ==> FirstTaken(env, states, rounds, i, 0)
    ensures i !in rounds[0].ids ==>
              && i in states[1].db.incidents && states[1].db.incidents[i] == states[0].db.incidents[i]
              && (|rounds| > 1 ==> i in Due(Waited(states[1], rounds[1])))
  {
    assert RoundOk(env, batch, states[0], rounds[0], states[0 + 1]);
    if i in rounds[0].ids {
      assert Advanced(env, Waited(states[0], rounds[0]).now, states[0].db.incidents[i], states[1].db.incidents[i]);
    }
  }

  /** Whatever the delays, and however late the polls come: a due incident is advanced as soon as the batches add up
      to the fires left in the incidents ahead of it, at most three each. */
  lemma {:induction false} WaitingEnds(env: Env, batch: nat, states: seq<Sys>, rounds: seq<Round>, i: Id)
      returns (k: nat)
    requires RoundsOk(env, batch, states, rounds) && rounds != [] && i in Due(Waited(states[0], rounds[0]))
    requires states[0].db.incidents[i].currentTier <= 2
    requires |rounds| * batch >= Potential(states[0].db.incidents, Ahead(states[0].db.incidents, i))
    ensures FirstTaken(env, states, rounds, i, k)
    decreases |rounds|
  {
    FirstRound(env, batch, states, rounds, i);
    if i in rounds[0].ids {
      k := 0;
    } else {
      PassedOverCosts(env, batch, states[0], rounds[0], states[1], i);
      OneRoundLess(|rounds|, batch);
      var rows := states[1].db.incidents;
      PotentialRemove(rows, Ahead(rows, i), i);
      assert |rounds| > 1;
      RestOfRounds(env, batch, states, rounds);
      k := WaitingEnds(env, batch, states[1..], rounds[1..], i);
      TakenLater(env, states, rounds, i, k);
      k := k + 1;
    }
  }

  lemma OneRoundLess(n: nat, batch: nat)
    requires n > 0
    ensures n * batch == (n - 1) * batch + batch
  {
  }

  // ----- who cuts in -----

  /** The incidents fired in the round whose new timers are no later than i's. */
  ghost function CutIns(env: Env, s: Sys, r: Round, i: Id): set<Id>
    requires Armed(s.db.incidents, i) && r.ids <= s.db.incidents.Keys
  {
    set j | j in r.ids && Rearms(env, s.db.incidents[j], Waited(s, r).now, s.db.incidents[i].nextFireAt.value)
  }

  lemma RearmedIff(env: Env, a: Incident, b: Incident, now: Time, limit: Time)
    requires Advanced(env, now, a, b)
    ensures Active(b.status) && b.nextFireAt.Some? && b.nextFireAt.value <= limit <==> Rearms(env, a, now, limit)
  {
  }

  /** In a round that passes i over, an incident fired is ahead of i again if and only if its new timer is no later. */
  lemma CutsInIff(env: Env, batch: nat, s: Sys, r: Round, f: Sys, i: Id, j: Id)
    requires RoundOk(env, batch, s, r, f) && i in Due(Waited(s, r)) && i !in r.ids && j in r.ids
    ensures Armed(f.db.incidents, i) && f.db.incidents[i] == s.db.incidents[i]
    ensures j in Ahead(f.db.incidents, i)
            <==> Rearms(env, s.db.incidents[j], Waited(s, r).now, s.db.incidents[i].nextFireAt.value)
  {
    PassedOver(env, batch, s, r, f, i);
    assert Advanced(env, Waited(s, r).now, s.db.incidents[j], f.db.incidents[j]);
    RearmedIff(env, s.db.incidents[j], f.db.incidents[j], Waited(s, r).now, s.db.incidents[i].nextFireAt.value);
  }

  /** Exactly: the queue ahead of i gets a batch shorter, and as much longer as incidents cut in. */
  lemma PassedOverExactly(env: Env, batch: nat, s: Sys, r: Round, f: Sys, i: Id)
    requires RoundOk(env, batch, s, r, f) && i in Due(Waited(s, r)) && i !in r.ids
    ensures Armed(f.db.incidents, i)
    ensures |Ahead(f.db.incidents, i)| + batch == |Ahead(s.db.incidents, i)| + |CutIns(env, s, r, i)|
  {
    PassedOver(env, batch, s, r, f, i);
    var was, ahead, cut := Ahead(s.db.incidents, i), Ahead(f.db.incidents, i), CutIns(env, s, r, i);
    forall j ensures j in ahead <==> j in was - r.ids + cut {
      if j in r.ids {
        CutsInIff(env, batch, s, r, f, i, j);
      }
    }
    assert ahead == was - r.ids + cut;
    assert |was - r.ids| == |was| - |r.ids|;
  }

  /** How often someone cuts in before i is taken. */
  ghost function AllCutIns(env: Env, batch: nat, states: seq<Sys>, rounds: seq<Round>, i: Id): nat
    requires RoundsOk(env, batch, states, rounds) && (rounds != [] ==> i in Due(Waited(states[0], rounds[0])))
    decreases |rounds|
  {
    if rounds == [] || i in rounds[0].ids then 0
    else
      FirstRound(env, batch, states, rounds, i);
      RestOfRounds(env, batch, states, rounds);
      |CutIns(env, states[0], rounds[0], i)| + AllCutIns(env, batch, states[1..], rounds[1..], i)
  }

  /** i is due at the first of these rounds, and they are enough for the queue ahead of it, each incident of which is
      counted once more for every time it cuts in. */
  ghost predicate EnoughForQueue(env: Env, batch: nat, states: seq<Sys>, rounds: seq<Round>, i: Id)
    requires RoundsOk(env, batch, states, rounds)
  {
    && batch >= 1 && rounds != [] && i in Due(Waited(states[0], rounds[0]))
    && |rounds| >= PollsFor(|Ahead(states[0].db.incidents, i)| + AllCutIns(env, batch, states, rounds, i), batch)
  }

  /** ceil(k / batch) polls, at whatever times they come, are enough for the k incidents whose timers are no later,
      each counted once more for every time it cuts in. */
  lemma {:induction false} WaitingEndsInOrder(env: Env, batch: nat, states: seq<Sys>, rounds: seq<Round>, i: Id)
      returns (k: nat)
    requires RoundsOk(env, batch, states, rounds) && EnoughForQueue(env, batch, states, rounds, i)
    ensures FirstTaken(env, states, rounds, i, k)
    decreases |rounds|
  {
    if i in rounds[0].ids {
      FirstRound(env, batch, states, rounds, i);
      k := 0;
    } else {
      RestOfRounds(env, batch, states, rounds);
      QueueMoves(env, batch, states, rounds, i);
      k := WaitingEndsInOrder(env, batch, states[1..], rounds[1..], i);
      TakenLater(env, states, rounds, i, k);
      k := k + 1;
    }
  }

  lemma QueueMoves(env: Env, batch: nat, states: seq<Sys>, rounds: seq<Round>, i: Id)
    requires RoundsOk(env, batch, states, rounds) && EnoughForQueue(env, batch, states, rounds, i)
    requires i !in rounds[0].ids && RoundsOk(env, batch, states[1..], rounds[1..])
    ensures EnoughForQueue(env, batch, states[1..], rounds[1..], i)
    ensures i in states[0].db.incidents && i in states[1].db.incidents
    ensures states[1].db.incidents[i] == states[0].db.incidents[i]
  {
    var cut, more := OneRoundOfCutIns(env, batch, states, rounds, i);
    var now := |Ahead(states[1].db.incidents, i)|;
    QueueCount(|Ahead(states[0].db.incidents, i)|, now, cut, more, batch, |rounds|);
    EnoughFrom(env, batch, states[1..], rounds[1..], i, states[1], rounds[1], now, more);
  }

  lemma EnoughFrom(env: Env, batch: nat, states: seq<Sys>, rounds: seq<Round>, i: Id, s: Sys, r: Round,
                   now: nat, more: nat)
    requires RoundsOk(env, batch, states, rounds) && batch >= 1 && rounds != []
    requires s == states[0] && r == rounds[0] && i in Due(Waited(s, r))
    requires now == |Ahead(s.db.incidents, i)| && more == AllCutIns(env, batch, states, rounds, i)
    requires |rounds| >= PollsFor(now + more, batch)
    ensures EnoughForQueue(env, batch, states, rounds, i)
  {
  }

  lemma OneRoundOfCutIns(env: Env, batch: nat, states: seq<Sys>, rounds: seq<Round>, i: Id)
      returns (cut: nat, more: nat)
    requires RoundsOk(env, batch, states, rounds) && rounds != [] && i !in rounds[0].ids
    requires i in Due(Waited(states[0], rounds[0])) && RoundsOk(env, batch, states[1..], rounds[1..])
    ensures i in states[1].db.incidents && states[1].db.incidents[i] == states[0].db.incidents[i]
    ensures |rounds| > 1 ==> i in Due(Waited(states[1], rounds[1]))
    ensures more == AllCutIns(env, batch, states[1..], rounds[1..], i)
    ensures AllCutIns(env, batch, states, rounds, i) == cut + more
    ensures 1 <= |Ahead(states[1].db.incidents, i)|
    ensures |Ahead(states[1].db.incidents, i)| + batch == |Ahead(states[0].db.incidents, i)| + cut
  {
    FirstRound(env, batch, states, rounds, i);
    PassedOverExactly(env, batch, states[0], rounds[0], states[1], i);
    assert i in Ahead(states[1].db.incidents, i);
    cut, more := |CutIns(env, states[0], rounds[0], i)|, AllCutIns(env, batch, states[1..], rounds[1..], i);
  }

  lemma QueueCount(was: nat, now: nat, cut: nat, more: nat, batch: nat, n: nat)
    requires batch >= 1 && n >= 1 && now >= 1 && now + batch == was + cut && n >= PollsFor(was + cut + more, batch)
    ensures n > 1 && n - 1 >= PollsFor(now + more, batch)
  {
    CeilingIff(was + cut + more, batch, n);
    OneRoundLess(n, batch);
    CeilingIff(now + more, batch, n - 1);
  }

  /** No fire from `from` on arms, for any of the incidents, a timer as early as `limit`.  Positive delays are enough if
      limit <= from, and so are delays of zero if limit < from. */
  ghost predicate NobodyCutsIn(env: Env, rows: map<Id, Incident>, ids: set<Id>, from: Time, limit: Time) {
    forall j, t: nat, at :: j in ids && j in rows && at >= from && env.config(rows[j].facts, t, at).Some? ==>
      at + Seconds(env.config(rows[j].facts, t, at).value.delaySeconds) > limit
  }

  lemma DelaysKeepOrder(env: Env, rows: map<Id, Incident>, ids: set<Id>, from: Time, limit: Time, least: int)
    requires forall j, t: nat, at :: j in ids && j in rows && env.config(rows[j].facts, t, at).Some? ==>
      env.config(rows[j].facts, t, at).value.delaySeconds >= least
    requires limit < from + Seconds(least)
    ensures NobodyCutsIn(env, rows, ids, from, limit)
  {
  }

  /** Under that condition on the delays nobody does. */
  lemma {:induction false} NoCutIns(env: Env, batch: nat, states: seq<Sys>, rounds: seq<Round>, i: Id)
    requires RoundsOk(env, batch, states, rounds) && (rounds != [] ==> i in Due(Waited(states[0], rounds[0])))
    requires i in states[0].db.incidents && Armed(states[0].db.incidents, i)
    requires rounds != [] ==> var rows := states[0].db.incidents;
               NobodyCutsIn(env, rows, Ahead(rows, i), Waited(states[0], rounds[0]).now, rows[i].nextFireAt.value)
    ensures AllCutIns(env, batch, states, rounds, i) == 0
    decreases |rounds|
  {
    if rounds != [] && i !in rounds[0].ids {
      FirstRound(env, batch, states, rounds, i);
      RestOfRounds(env, batch, states, rounds);
      NoneInThisRound(env, batch, states[0], rounds[0], states[1], i);
      if |rounds| > 1 {
        StillNobody(env, states[0], rounds[0], states[1], rounds[1], i);
      }
      NoCutIns(env, batch, states[1..], rounds[1..], i);
    }
  }

  lemma NoneInThisRound(env: Env, batch: nat, s: Sys, r: Round, f: Sys, i: Id)
    requires RoundOk(env, batch, s, r, f) && i in Due(Waited(s, r)) && i !in r.ids
    requires var rows := s.db.incidents;
             NobodyCutsIn(env, rows, Ahead(rows, i), Waited(s, r).now, rows[i].nextFireAt.value)
    ensures Armed(f.db.incidents, i) && f.now == Waited(s, r).now
    ensures CutIns(env, s, r, i) == {} && Ahead(f.db.incidents, i) <= Ahead(s.db.incidents, i) - r.ids
  {
    PassedOver(env, batch, s, r, f, i);
    forall j | j in r.ids
      ensures !Rearms(env, s.db.incidents[j], Waited(s, r).now, s.db.incidents[i].nextFireAt.value)
              && j !in Ahead(f.db.incidents, i)
    {
      assert j in Ahead(s.db.incidents, i);
      CutsInIff(env, batch, s, r, f, i, j);
    }
  }

  lemma StillNobody(env: Env, s: Sys, r: Round, f: Sys, next: Round, i: Id)
    requires Armed(s.db.incidents, i) && Armed(f.db.incidents, i) && f.db.incidents[i] == s.db.incidents[i]
    requires AdvancedAll(env, Waited(s, r), f, r.ids) && Ahead(f.db.incidents, i) <= Ahead(s.db.incidents, i) - r.ids
    requires var rows := s.db.incidents;
             NobodyCutsIn(env, rows, Ahead(rows, i), Waited(s, r).now, rows[i].nextFireAt.value)
    ensures var rows := f.db.incidents;
            NobodyCutsIn(env, rows, Ahead(rows, i), Waited(f, next).now, rows[i].nextFireAt.value)
  {
    forall j | j in Ahead(f.db.incidents, i) ensures f.db.incidents[j] == s.db.incidents[j] {
      assert j in Ahead(s.db.incidents, i) && j !in r.ids;
    }
  }

  ghost function AfterFireOf(env: Env, s: Sys, a: Id): Sys
    requires a in s.db.incidents
    requires Escalation.TransitionFor(s.db.incidents[a].status, s.db.incidents[a].currentTier).Some?
  {
    var row := s.db.incidents[a];
    var tr := Escalation.TransitionFor(row.status, row.currentTier).value;
    s.(db := s.db.(incidents := s.db.incidents[a := Escalation.AdvancedRow(env, row, tr, s.now)]))
  }

  /** And with a delay of zero someone may: of two incidents that are due from this very moment on, batch after batch of
      one may take the same, so that ceil(2 / 1) polls leave the other waiting. */
  lemma ZeroDelayCutsIn(env: Env, s: Sys, a: Id, i: Id) returns (states: seq<Sys>, rounds: seq<Round>)
    requires a != i && Due(s) == {a, i}
    requires s.db.incidents[a].status.AwaitingOperator? && s.db.incidents[a].currentTier == 0
    requires s.db.incidents[a].nextFireAt == s.db.incidents[i].nextFireAt == Some(s.now)
    requires var cfg := env.config(s.db.incidents[a].facts, 1, s.now); cfg.Some? && cfg.value.delaySeconds == 0
    ensures |rounds| == PollsFor(|Due(s)|, 1) == 2 && RoundsOk(env, 1, states, rounds)
    ensures states[0] == s && i in Due(Waited(states[0], rounds[0]))
    ensures forall k :: 0 <= k < |rounds| ==> i !in rounds[k].ids
  {
    var s1 := AfterFireOf(env, s, a);
    var s2 := AfterFireOf(env, s1, a);
    var r := Round(0, {a});
    TakesOneOfTwo(env, s, a, i);
    assert Due(s1) == Due(s);
    TakesOneOfTwo(env, s1, a, i);
    states, rounds := [s, s1, s2], [r, r];
    assert Waited(s, r) == s;
  }

  /** Of two incidents due since the same time a batch of one may take either. */
  lemma TakesOneOfTwo(env: Env, s: Sys, a: Id, i: Id)
    requires a != i && Due(s) == {a, i} && s.db.incidents[a].nextFireAt == s.db.incidents[i].nextFireAt
    requires Escalation.TransitionFor(s.db.incidents[a].status, s.db.incidents[a].currentTier).Some?
    ensures |Due(s)| == 2 && RoundOk(env, 1, s, Round(0, {a}), AfterFireOf(env, s, a))
  {
    assert Due(s) - {a} == {i};
    assert Waited(s, Round(0, {a})) == s;
    assert Advanced(env, s.now, s.db.incidents[a], AfterFireOf(env, s, a).db.incidents[a]);
  }

  // ----- every sequence of healthy polls leads to CRITICAL -----

  ghost function DueRounds(states: seq<Sys>, rounds: seq<Round>, i: Id): nat
    requires |states| == |rounds| + 1
    decreases |rounds|
  {
    if rounds == [] then 0
    else (if i in Due(Waited(states[0], rounds[0])) then 1 else 0) + DueRounds(states[1..], rounds[1..], i)
  }

  /** Fires left in all incidents together. */
  ghost function TotalRoom(s: Sys): nat {
    Potential(s.db.incidents, s.db.incidents.Keys)
  }

  /** Fires are still possible, or the last one has been. */
  predicate OpenOrCritical(inc: Incident) {
    inc.currentTier <= 2 || (inc.currentTier == 3 && inc.status.CriticalUnresolved?)
  }

  /** A round in which i is due takes i, or a full batch of others. */
  lemma RoundPays(env: Env, batch: nat, s: Sys, r: Round, f: Sys, i: Id)
    requires RoundOk(env, batch, s, r, f) && i in s.db.incidents
    ensures i in f.db.incidents && TotalRoom(f) + |r.ids| == TotalRoom(s)
    ensures i in r.ids ==> i in Due(Waited(s, r)) && f.db.incidents[i].currentTier == s.db.incidents[i].currentTier + 1
    ensures i !in r.ids ==> f.db.incidents[i] == s.db.incidents[i]
    ensures i !in r.ids && i in Due(Waited(s, r)) ==> |r.ids| == batch
    ensures OpenOrCritical(s.db.incidents[i]) ==> OpenOrCritical(f.db.incidents[i])
  {
    forall j | j in s.db.incidents.Keys
      ensures Room(f.db.incidents, j) + (if j in r.ids then 1 else 0) == Room(s.db.incidents, j)
    {
      OneFireLess(env, s, r, f, j);
    }
    PotentialFalls(s.db.incidents, f.db.incidents, s.db.incidents.Keys, r.ids);
    if i in r.ids {
      assert Advanced(env, Waited(s, r).now, s.db.incidents[i], f.db.incidents[i]);
    } else if i in Due(Waited(s, r)) {
      PassedOver(env, batch, s, r, f, i);
    }
  }

  /** i was fired `fires` times; every other round in which it was due used up a batch of fires. */
  ghost predicate Paid(batch: nat, states: seq<Sys>, rounds: seq<Round>, i: Id, fires: nat)
    requires |states| == |rounds| + 1
  {
    var first, last := states[0], states[|rounds|];
    && i in first.db.incidents && i in last.db.incidents
    && last.db.incidents[i].currentTier == first.db.incidents[i].currentTier + fires
    && (OpenOrCritical(first.db.incidents[i]) ==> OpenOrCritical(last.db.incidents[i]))
    && fires <= DueRounds(states, rounds, i)
    && (DueRounds(states, rounds, i) - fires) * batch + TotalRoom(last) <= TotalRoom(first)
  }

  lemma {:induction false} DueRoundsPay(env: Env, batch: nat, states: seq<Sys>, rounds: seq<Round>, i: Id)
      returns (fires: nat)
    requires RoundsOk(env, batch, states, rounds) && i in states[0].db.incidents
    ensures Paid(batch, states, rounds, i, fires)
    decreases |rounds|
  {
    if rounds == [] {
      fires := 0;
    } else {
      RestOfRounds(env, batch, states, rounds);
      assert RoundOk(env, batch, states[0], rounds[0], states[0 + 1]);
      var later := DueRoundsPay(env, batch, states[1..], rounds[1..], i);
      OneMorePaid(env, batch, states, rounds, i, later);
      fires := later + if i in rounds[0].ids then 1 else 0;
    }
  }

  lemma {:induction false} OneMorePaid(env: Env, batch: nat, states: seq<Sys>, rounds: seq<Round>, i: Id, later: nat)
    requires |states| == |rounds| + 1 && rounds != [] && i in states[0].db.incidents
    requires RoundOk(env, batch, states[0], rounds[0], states[1]) && Paid(batch, states[1..], rounds[1..], i, later)
    ensures Paid(batch, states, rounds, i, later + if i in rounds[0].ids then 1 else 0)
  {
    RoundPays(env, batch, states[0], rounds[0], states[1], i);
    assert states[1..][|rounds| - 1] == states[|rounds|];
    OneRoundMore(DueRounds(states[1..], rounds[1..], i) - later + 1, batch);
  }

  /** In every sequence of healthy polls, at any times and whatever the delays: once an incident has been due at
      2 - current_tier + ceil(p / batch) of them, where p counts the fires left in all incidents, it is
      CRITICAL_UNRESOLVED. */
  lemma {:induction false} CriticalAfterDueRounds(env: Env, batch: nat, states: seq<Sys>, rounds: seq<Round>, i: Id)
    requires batch >= 1 && RoundsOk(env, batch, states, rounds)
    requires i in states[0].db.incidents && states[0].db.incidents[i].currentTier <= 2
    requires DueRounds(states, rounds, i) >=
             2 - states[0].db.incidents[i].currentTier + PollsFor(TotalRoom(states[0]), batch)
    ensures i in states[|rounds|].db.incidents && states[|rounds|].db.incidents[i].status.CriticalUnresolved?
  {
    var fires := DueRoundsPay(env, batch, states, rounds, i);
    CriticalIfPaid(batch, states, rounds, i, fires);
  }

  lemma {:induction false} CriticalIfPaid(batch: nat, states: seq<Sys>, rounds: seq<Round>, i: Id, fires: nat)
    requires batch >= 1 && |states| == |rounds| + 1 && Paid(batch, states, rounds, i, fires)
    requires states[0].db.incidents[i].currentTier <= 2
    requires DueRounds(states, rounds, i) >=
             2 - states[0].db.incidents[i].currentTier + PollsFor(TotalRoom(states[0]), batch)
    ensures states[|rounds|].db.incidents[i].currentTier >= 3
    ensures states[|rounds|].db.incidents[i].status.CriticalUnresolved?
  {
    PaidLeavesRoom(batch, states, rounds, i, fires);
    EnoughDueRounds(DueRounds(states, rounds, i), fires, states[0].db.incidents[i].currentTier,
                 TotalRoom(states[0]), TotalRoom(states[|rounds|]), batch);
  }

  lemma {:induction false} PaidLeavesRoom(batch: nat, states: seq<Sys>, rounds: seq<Round>, i: Id, fires: nat)
    requires |states| == |rounds| + 1 && Paid(batch, states, rounds, i, fires)
    ensures states[0].db.incidents[i].currentTier + fires <= 2 ==> TotalRoom(states[|rounds|]) >= 1
  {
    PotentialRemove(states[|rounds|].db.incidents, states[|rounds|].db.incidents.Keys, i);
  }

  lemma EnoughDueRounds(due: nat, fires: nat, tier: nat, room: nat, left: nat, batch: nat)
    requires batch >= 1 && fires <= due && (due - fires) * batch + left <= room
    requires tier + fires <= 2 ==> left >= 1
    requires due >= 2 - tier + PollsFor(room, batch)
    ensures tier + fires >= 3
  {
    CeilingIff(room, batch, due - fires);
  }

  ghost predicate Configured(env: Env, facts: Facts) {
    forall t, at :: 1 <= t <= 2 ==> env.config(facts, t, at).Some?
  }

  /** With tiers 1 and 2 configured it stays armed until then. */
  lemma StaysArmed(env: Env, batch: nat, s: Sys, r: Round, f: Sys, i: Id)
    requires RoundOk(env, batch, s, r, f) && Armed(s.db.incidents, i) && s.db.incidents[i].currentTier <= 2
    requires Configured(env, s.db.incidents[i].facts)
    ensures i in f.db.incidents && f.db.incidents[i].facts == s.db.incidents[i].facts
    ensures f.db.incidents[i].currentTier <= 2 ==> Armed(f.db.incidents, i)
  {
    if i in r.ids {
      assert Advanced(env, Waited(s, r).now, s.db.incidents[i], f.db.incidents[i]);
    }
  }

  /** No poll comes before the timer and the claim of the incident have passed. */
  ghost predicate NoPollTooEarly(states: seq<Sys>, rounds: seq<Round>, i: Id)
    requires |states| == |rounds| + 1
  {
    forall k: nat :: k < |rounds| && Armed(states[k].db.incidents, i) ==> i in Due(Waited(states[k], rounds[k]))
  }

  lemma {:induction false} DueAtEveryRound(env: Env, batch: nat, states: seq<Sys>, rounds: seq<Round>, i: Id)
    requires RoundsOk(env, batch, states, rounds)
    requires Armed(states[0].db.incidents, i) && states[0].db.incidents[i].currentTier <= 2
    requires Configured(env, states[0].db.incidents[i].facts)
    requires NoPollTooEarly(states, rounds, i)
    requires i in states[|rounds|].db.incidents && states[|rounds|].db.incidents[i].currentTier <= 2
    ensures DueRounds(states, rounds, i) == |rounds|
    decreases |rounds|
  {
    if rounds != [] {
      RestOfRounds(env, batch, states, rounds);
      assert RoundOk(env, batch, states[0], rounds[0], states[0 + 1]);
      StaysArmed(env, batch, states[0], rounds[0], states[1], i);
      var fires := DueRoundsPay(env, batch, states[1..], rounds[1..], i);
      assert states[1..][|rounds| - 1] == states[|rounds|];
      forall k: nat | k < |rounds| - 1 && Armed(states[1..][k].db.incidents, i)
        ensures i in Due(Waited(states[1..][k], rounds[1..][k]))
      {
        assert Armed(states[k + 1].db.incidents, i);
      }
      DueAtEveryRound(env, batch, states[1..], rounds[1..], i);
    }
  }

  /** In every sequence of healthy polls, none of which comes before the incident's timer and claim have passed, an
      armed incident with tiers 1 and 2 configured is CRITICAL_UNRESOLVED after 2 - current_tier + ceil(p / batch). */
  lemma {:induction false} AlwaysReachesCritical(env: Env, batch: nat, states: seq<Sys>, rounds: seq<Round>, i: Id)
    requires batch >= 1 && RoundsOk(env, batch, states, rounds)
    requires Armed(states[0].db.incidents, i) && states[0].db.incidents[i].currentTier <= 2
    requires Configured(env, states[0].db.incidents[i].facts)
    requires NoPollTooEarly(states, rounds, i)
    requires |rounds| >= 2 - states[0].db.incidents[i].currentTier + PollsFor(TotalRoom(states[0]), batch)
    ensures i in states[|rounds|].db.incidents && states[|rounds|].db.incidents[i].status.CriticalUnresolved?
  {
    var fires := DueRoundsPay(env, batch, states, rounds, i);
    if states[|rounds|].db.incidents[i].currentTier <= 2 {
      DueAtEveryRound(env, batch, states, rounds, i);
      CriticalAfterDueRounds(env, batch, states, rounds, i);
    }
  }

  // ----- and there is always such a sequence of polls -----

  /** Polls at one moment until i has been taken, with batches in timer order. */
  lemma {:induction false} PollUntilTaken(env: Env, s: Sys, i: Id, w: Id, lease: nat, batch: nat)
      returns (steps: seq<Step>, f: Sys)
    requires Sound(s) && batch >= 1 && i in Due(s)
    ensures Leads(env, s, steps, f) && Sound(f) && f.now == s.now && i in f.db.incidents
    ensures Advanced(env, s.now, s.db.incidents[i], f.db.incidents[i])
    ensures Rounds(steps) == 0 && |Claims(steps)| >= 1
    ensures (|Claims(steps)| - 1) * batch < Potential(s.db.incidents, Ahead(s.db.incidents, i))
    decreases Potential(s.db.incidents, Ahead(s.db.incidents, i))
  {
    HasRoom(s, i);
    var first, m, taken := PollForOne(env, s, i, w, lease, batch);
    if taken {
      steps, f := first, m;
    } else {
      var rest;
      rest, f := PollUntilTaken(env, m, i, w, lease, batch);
      LeadsOn(env, s, first, m, rest, f);
      OneMorePoll(first, rest, batch, Potential(m.db.incidents, Ahead(m.db.incidents, i)),
                  Potential(s.db.incidents, Ahead(s.db.incidents, i)));
      steps := first + rest;
    }
  }

  lemma OneMorePoll(first: seq<Step>, rest: seq<Step>, batch: nat, left: nat, was: nat)
    requires |Claims(first)| == 1 && Rounds(first) == 0 && |Claims(rest)| >= 1
    requires (|Claims(rest)| - 1) * batch < left && left + batch <= was
    ensures |Claims(first + rest)| == 1 + |Claims(rest)| && Rounds(first + rest) == Rounds(rest)
    ensures (|Claims(first + rest)| - 1) * batch < was
  {
    ClaimsCompose(first, rest);
    OneRoundMore(|Claims(rest)|, batch);
  }

  /** One poll: it takes i, or the incidents ahead of i have a full batch of fires less. */
  lemma PollForOne(env: Env, s: Sys, i: Id, w: Id, lease: nat, batch: nat)
      returns (steps: seq<Step>, m: Sys, taken: bool)
    requires Sound(s) && i in Due(s)
    ensures Leads(env, s, steps, m) && Sound(m) && m.now == s.now && i in m.db.incidents
    ensures |Claims(steps)| == 1 && Rounds(steps) == 0
    ensures taken ==> Advanced(env, s.now, s.db.incidents[i], m.db.incidents[i])
    ensures !taken ==>
              && i in Due(m) && m.db.incidents[i] == s.db.incidents[i]
              && Potential(m.db.incidents, Ahead(m.db.incidents, i)) + batch
                 <= Potential(s.db.incidents, Ahead(s.db.incidents, i))
  {
    var ids := BatchExists(s.db.incidents, Due(s), batch);
    steps, m := Poll(env, s, w, ids, lease);
    OnePoll(steps, w);
    taken := i in ids;
    if !taken {
      NotTakenYet(env, batch, s, ids, m, i);
    }
  }

  lemma HasRoom(s: Sys, i: Id)
    requires Sound(s) && i in Due(s)
    ensures Potential(s.db.incidents, Ahead(s.db.incidents, i)) >= 1
  {
    assert Escalation.RowOk(s.db.incidents[i]);
    PotentialRemove(s.db.incidents, Ahead(s.db.incidents, i), i);
  }

  lemma NotTakenYet(env: Env, batch: nat, s: Sys, ids: set<Id>, m: Sys, i: Id)
    requires IsBatch(s.db.incidents, Due(s), ids, batch) && AdvancedAll(env, s, m, ids) && i in Due(s) && i !in ids
    ensures i in Due(m) && m.db.incidents[i] == s.db.incidents[i] && m.now == s.now
    ensures Potential(m.db.incidents, Ahead(m.db.incidents, i)) + batch
            <= Potential(s.db.incidents, Ahead(s.db.incidents, i))
  {
    var r := Round(0, ids);
    assert Waited(s, r) == s;
    PassedOverCosts(env, batch, s, r, m, i);
  }

  lemma OnePoll(steps: seq<Step>, w: Id)
    requires |steps| >= 1 && steps[0].Claim? && AllFire(steps[1..], w)
    ensures |Claims(steps)| == 1 && Rounds(steps) == 0
  {
    NoClaims(steps[1..]);
    NoTicks(steps[1..]);
  }

  lemma OneRoundMore(n: int, batch: nat)
    ensures n * batch == (n - 1) * batch + batch
  {
  }

  lemma RecoversFrom(env: Env, s: Sys, i: Id, w: Id, lease: nat, batch: nat) returns (steps: seq<Step>, f: Sys)
    requires Sound(s) && batch >= 1 && Armed(s.db.incidents, i)
    ensures Leads(env, s, steps, f) && Sound(f) && i in f.db.incidents
    ensures var wait := WaitFor(s.db.incidents[i], s.now);
            && |steps| >= 1 && steps[0] == Tick(wait) && Rounds(steps) == 1 && f.now == s.now + wait
            && |Claims(steps)| >= 1
            && (|Claims(steps)| - 1) * batch < Potential(s.db.incidents, Ahead(s.db.incidents, i))
            && Advanced(env, f.now, s.db.incidents[i], f.db.incidents[i])
  {
    var wait := WaitFor(s.db.incidents[i], s.now);
    var m := s.(now := s.now + wait);
    assert i in Due(m);
    var polls;
    polls, f := PollUntilTaken(env, m, i, w, lease, batch);
    WaitThenPoll(env, s, wait, polls, f);
    steps := [Tick(wait)] + polls;
  }

  /** After any run, whoever held the claim and however it was lost, and whatever the configured delays: wait until the
      timer and the claim have passed, poll at most ceil(p / batch) times, where p counts the fires left in the
      incidents with timers no later, and the armed incident is one tier further. */
  lemma Recovers(env: Env, start: Sys, past: seq<Step>, i: Id, w: Id, lease: nat, batch: nat)
      returns (steps: seq<Step>, f: Sys)
    requires Init(start) && Feasible(env, start, past) && batch >= 1
    requires Armed(Run(env, start, past).db.incidents, i)
    ensures var s := Run(env, start, past);
            var rows := s.db.incidents;
            && Leads(env, s, steps, f) && Rounds(steps) == 1 && f.now == s.now + WaitFor(rows[i], s.now)
            && |Claims(steps)| <= PollsFor(Potential(rows, Ahead(rows, i)), batch)
            && Potential(rows, Ahead(rows, i)) <= 3 * |Ahead(rows, i)|
            && i in f.db.incidents && Advanced(env, f.now, rows[i], f.db.incidents[i])
  {
    ReachableIsSound(env, start, past);
    var s := Run(env, start, past);
    steps, f := RecoversFrom(env, s, i, w, lease, batch);
    CeilingIff(Potential(s.db.incidents, Ahead(s.db.incidents, i)), batch, |Claims(steps)| - 1);
    PotentialBound(s.db.incidents, Ahead(s.db.incidents, i));
  }

  lemma {:induction false} ReachesCriticalFrom(env: Env, s: Sys, i: Id, w: Id, lease: nat, batch: nat)
      returns (steps: seq<Step>, f: Sys)
    requires Sound(s) && batch >= 1 && Armed(s.db.incidents, i) && Configured(env, s.db.incidents[i].facts)
    ensures Leads(env, s, steps, f) && i in f.db.incidents && f.db.incidents[i].status.CriticalUnresolved?
    ensures Rounds(steps) == 3 - s.db.incidents[i].currentTier
    decreases 3 - s.db.incidents[i].currentTier
  {
    assert Escalation.RowOk(s.db.incidents[i]);
    var m;
    steps, m := RecoversFrom(env, s, i, w, lease, batch);
    assert Escalation.RowOk(m.db.incidents[i]);
    if !m.db.incidents[i].status.CriticalUnresolved? {
      var rest;
      rest, f := ReachesCriticalFrom(env, m, i, w, lease, batch);
      LeadsOn(env, s, steps, m, rest, f);
      ClaimsCompose(steps, rest);
      steps := steps + rest;
    } else {
      f := m;
    }
  }

  /** After any run, with tiers 1 and 2 configured, 3 - current_tier such rounds take an armed incident to
      CRITICAL_UNRESOLVED. */
  lemma ReachesCritical(env: Env, start: Sys, past: seq<Step>, i: Id, w: Id, lease: nat, batch: nat)
      returns (steps: seq<Step>, f: Sys)
    requires Init(start) && Feasible(env, start, past) && batch >= 1
    requires var rows := Run(env, start, past).db.incidents; Armed(rows, i) && Configured(env, rows[i].facts)
    ensures Leads(env, Run(env, start, past), steps, f)
    ensures i in f.db.incidents && f.db.incidents[i].status.CriticalUnresolved?
    ensures Rounds(steps) == 3 - Run(env, start, past).db.incidents[i].currentTier
  {
    ReachableIsSound(env, start, past);
    steps, f := ReachesCriticalFrom(env, Run(env, start, past), i, w, lease, batch);
  }

  // ----- who can advance at all -----

  ghost predicate RaisesTier(env: Env, s: Sys, steps: seq<Step>, i: Id)
    requires i in s.db.incidents
  {
    Feasible(env, s, steps) && i in Run(env, s, steps).db.incidents
    && Run(env, s, steps).db.incidents[i].currentTier > s.db.incidents[i].currentTier
  }

  lemma ArmedAdvances(env: Env, s: Sys, i: Id) returns (steps: seq<Step>)
    requires Sound(s) && Armed(s.db.incidents, i)
    ensures RaisesTier(env, s, steps, i)
  {
    var f;
    steps, f := RecoversFrom(env, s, i, 0, 0, 1);
    assert Advanced(env, f.now, s.db.incidents[i], f.db.incidents[i]);
  }

  /** Some run advances an open incident if and only if it is armed. */
  lemma AdvancesIffArmed(env: Env, s: Sys, i: Id)
    requires Inv(s) && i in s.db.incidents && Active(s.db.incidents[i].status)
    ensures s.db.incidents[i].nextFireAt.Some? <==> exists steps :: RaisesTier(env, s, steps, i)
  {
    if s.db.incidents[i].nextFireAt.Some? {
      EscalationPart(s);
      var steps := ArmedAdvances(env, s, i);
    } else {
      forall steps ensures !RaisesTier(env, s, steps, i) {
        if Feasible(env, s, steps) {
          UnarmedNeverFires(env, s, steps, i);
        }
      }
    }
  }
}
