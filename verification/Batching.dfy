/** How many batches it takes to work through a number of rows. */
module Batching {

  function Min(a: nat, b: nat): nat {
    if a <= b then a else b
  }

  /** ceil(n / batch) */
  function PollsFor(n: nat, batch: nat): nat
    requires batch >= 1
  {
    (n + batch - 1) / batch
  }

  lemma CeilingIff(n: nat, batch: nat, polls: nat)
    requires batch >= 1
    ensures polls * batch >= n <==> polls >= PollsFor(n, batch)
  {
    var q := PollsFor(n, batch);
    assert n + batch - 1 == q * batch + (n + batch - 1) % batch;
    if polls >= q { Multiply(q, polls, batch); } else { Multiply(polls + 1, q, batch); }
  }

  lemma Multiply(a: nat, b: nat, c: nat)
    requires a <= b
    ensures a * c <= b * c
  {
  }

  // ----- sums -----

  ghost function Total(weights: map<nat, nat>, ids: set<nat>): nat
    requires ids <= weights.Keys
  {
    if ids == {} then 0 else var i :| i in ids; weights[i] + Total(weights, ids - {i})
  }

  lemma {:induction false} TotalWithout(weights: map<nat, nat>, ids: set<nat>, j: nat)
    requires ids <= weights.Keys && j in ids
    ensures Total(weights, ids) == weights[j] + Total(weights, ids - {j})
    decreases |ids|
  {
    var i :| i in ids && Total(weights, ids) == weights[i] + Total(weights, ids - {i});
    if i != j {
      TotalWithout(weights, ids - {i}, j);
      TotalWithout(weights, ids - {j}, i);
      assert ids - {i} - {j} == ids - {j} - {i};
    }
  }

  /** If the weights of some fall and none rises, the total falls by as many. */
  lemma {:induction false} TotalFalls(before: map<nat, nat>, after: map<nat, nat>, ids: set<nat>, paid: set<nat>)
    requires ids <= before.Keys && ids <= after.Keys && paid <= ids
    requires forall i :: i in ids ==> after[i] + (if i in paid then 1 else 0) <= before[i]
    ensures Total(after, ids) + |paid| <= Total(before, ids)
    decreases |ids|
  {
    if ids != {} {
      var j :| j in ids;
      TotalWithout(before, ids, j);
      TotalWithout(after, ids, j);
      TotalFalls(before, after, ids - {j}, paid - {j});
    }
  }

  lemma {:induction false} TotalSplits(weights: map<nat, nat>, a: set<nat>, b: set<nat>)
    requires a <= weights.Keys && b <= weights.Keys && a !! b
    ensures Total(weights, a + b) == Total(weights, a) + Total(weights, b)
    decreases |b|
  {
    if b == {} {
      assert a + b == a;
    } else {
      var j :| j in b;
      TotalWithout(weights, b, j);
      TotalWithout(weights, a + b, j);
      TotalSplits(weights, a, b - {j});
      assert a + b - {j} == a + (b - {j});
    }
  }

  lemma {:induction false} TotalHasPart(weights: map<nat, nat>, ids: set<nat>, j: nat)
    requires ids <= weights.Keys && j in ids
    ensures Total(weights, ids) >= weights[j]
  {
    TotalWithout(weights, ids, j);
  }
}
