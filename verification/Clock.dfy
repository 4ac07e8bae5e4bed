/** The browser's estimate of the server clock: a smoothed offset against its own monotonic clock. */
module Clock {
  import opened Model

  /** Offset after the given samples: the first as it is, every later one blended in. */
  function Ema(alpha: real, xs: seq<real>): real {
    if xs == [] then 0.0
    else if |xs| == 1 then xs[0]
    else alpha * xs[|xs| - 1] + (1.0 - alpha) * Ema(alpha, xs[..|xs| - 1])
  }

  class ServerClock {
    const alpha: real
    var offsetMs: real
    var samples: nat
    /** The valid samples so far. */
    ghost var heard: seq<real>

    ghost predicate Valid()
      reads this
    {
      samples == |heard| && offsetMs == Ema(alpha, heard)
    }

    constructor (alpha: real)
      ensures Valid() && this.alpha == alpha && heard == []
    {
      this.alpha := alpha;
      offsetMs := 0.0;
      samples := 0;
      heard := [];
    }

    /** serverEpochMs is None when the timestamp does not parse; such a call changes nothing. */
    method Update(serverEpochMs: Option<real>, perfNowMs: real)
      requires Valid()
      modifies this
      ensures Valid()
      ensures heard == old(heard) + (if serverEpochMs.Some? then [serverEpochMs.value - perfNowMs] else [])
      ensures serverEpochMs == None ==> offsetMs == old(offsetMs) && samples == old(samples)
      ensures serverEpochMs.Some? ==>
        var sample := serverEpochMs.value - perfNowMs;
        offsetMs == if old(heard) == [] then sample else alpha * sample + (1.0 - alpha) * old(offsetMs)
    {
      if serverEpochMs == None {
        return;
      }
      var sample := serverEpochMs.value - perfNowMs;
      if samples == 0 {
        offsetMs := sample;
      } else {
        offsetMs := alpha * sample + (1.0 - alpha) * offsetMs;
      }
      samples := samples + 1;
      assert (heard + [sample])[..|heard|] == heard;
      heard := heard + [sample];
    }

    /** Within delta of the server's clock when every sample was within delta of the true offset. */
    method EstimatedServerNowMs(perfNowMs: real, ghost trueOffset: real, ghost delta: real) returns (now: real)
      requires Valid()
      ensures now == perfNowMs + offsetMs
      ensures 0.0 <= alpha <= 1.0 && heard != []
              && Within(heard, trueOffset - delta, trueOffset + delta)
              ==> perfNowMs + trueOffset - delta <= now <= perfNowMs + trueOffset + delta
    {
      if 0.0 <= alpha <= 1.0 && heard != [] && Within(heard, trueOffset - delta, trueOffset + delta) {
        StaysBetween(alpha, heard, trueOffset - delta, trueOffset + delta);
      }
      now := perfNowMs + offsetMs;
    }
  }

  // ----- bounds -----

  lemma BlendBetween(alpha: real, x: real, y: real, lo: real, hi: real)
    requires 0.0 <= alpha <= 1.0 && lo <= x <= hi && lo <= y <= hi
    ensures lo <= alpha * x + (1.0 - alpha) * y <= hi
  {
    ProductNonNegative(alpha, x - lo);
    ProductNonNegative(1.0 - alpha, y - lo);
    ProductNonNegative(alpha, hi - x);
    ProductNonNegative(1.0 - alpha, hi - y);
  }

  lemma ProductNonNegative(a: real, b: real)
    requires a >= 0.0 && b >= 0.0
    ensures a * b >= 0.0
  {
  }

  /** The offset never leaves any interval that holds every sample. */
  lemma {:induction false} StaysBetween(alpha: real, xs: seq<real>, lo: real, hi: real)
    requires 0.0 <= alpha <= 1.0 && xs != []
    requires Within(xs, lo, hi)
    ensures lo <= Ema(alpha, xs) <= hi
  {
    if |xs| > 1 {
      var front := xs[..|xs| - 1];
      StaysBetween(alpha, front, lo, hi);
      BlendBetween(alpha, xs[|xs| - 1], Ema(alpha, front), lo, hi);
    }
  }

  predicate Within(xs: seq<real>, lo: real, hi: real) {
    forall i :: 0 <= i < |xs| ==> lo <= xs[i] <= hi
  }

  /** Smoothing keeps within the samples exactly for a factor between 0 and 1. */
  lemma SmoothsIff(alpha: real)
    ensures 0.0 <= alpha <= 1.0
            <==> forall xs: seq<real>, lo: real, hi: real ::
                   xs != [] && Within(xs, lo, hi) ==> lo <= Ema(alpha, xs) <= hi
  {
    if 0.0 <= alpha <= 1.0 {
      forall xs: seq<real>, lo: real, hi: real | xs != [] && Within(xs, lo, hi)
        ensures lo <= Ema(alpha, xs) <= hi
      {
        StaysBetween(alpha, xs, lo, hi);
      }
    } else {
      var xs := [0.0, 1.0];
      assert xs[..1] == [0.0];
      assert Ema(alpha, xs) == alpha * 1.0 + (1.0 - alpha) * 0.0;
      assert Within(xs, 0.0, 1.0);
    }
  }

  // ----- closed form -----

  function Power(r: real, n: nat): real {
    if n == 0 then 1.0 else r * Power(r, n - 1)
  }

  /** Share of sample i once age later samples have arrived. */
  function Weight(alpha: real, i: nat, age: nat): real {
    if age == 0 then (if i == 0 then 1.0 else alpha) else (1.0 - alpha) * Weight(alpha, i, age - 1)
  }

  /** What sample k of n adds. */
  function Term(alpha: real, xs: seq<real>, n: nat, k: nat): real
    requires 0 < k <= |xs| <= n
  {
    Weight(alpha, k - 1, n - k) * xs[k - 1]
  }

  /** The first k of n weighted samples, added up. */
  function Weighted(alpha: real, xs: seq<real>, n: nat, k: nat): real
    requires k <= |xs| <= n
  {
    if k == 0 then 0.0 else Weighted(alpha, xs, n, k - 1) + Term(alpha, xs, n, k)
  }

  lemma RegroupProduct(c: real, q: real, p: real)
    ensures q * (c * p) == c * (q * p)
  {
  }

  /** The first sample starts at weight 1, later ones at alpha, and all shrink by 1 - alpha a sample. */
  lemma {:induction false} WeightIsPower(alpha: real, i: nat, age: nat)
    ensures Weight(alpha, i, age) == (if i == 0 then 1.0 else alpha) * Power(1.0 - alpha, age)
  {
    if age > 0 {
      WeightIsPower(alpha, i, age - 1);
      RegroupProduct(if i == 0 then 1.0 else alpha, 1.0 - alpha, Power(1.0 - alpha, age - 1));
    }
  }

  lemma TermDecays(alpha: real, q: real, xs: seq<real>, more: seq<real>, n: nat, k: nat)
    requires 0 < k <= |xs| <= n && |more| == |xs| + 1 && more[k - 1] == xs[k - 1] && q == 1.0 - alpha
    ensures Term(alpha, more, n + 1, k) == q * Term(alpha, xs, n, k)
  {
    assert Weight(alpha, k - 1, n + 1 - k) == q * Weight(alpha, k - 1, n - k);
    RegroupTerm(q, Weight(alpha, k - 1, n - k), xs[k - 1]);
  }

  lemma RegroupTerm(q: real, w: real, x: real)
    ensures (q * w) * x == q * (w * x)
  {
  }

  lemma AddScaled(q: real, a: real, a': real, t: real, t': real, total: real, total': real)
    requires a' == q * a && t' == q * t && total == a + t && total' == a' + t'
    ensures total' == q * total
  {
  }

  /** Among one sample more, the first k shares come to q times what they were. */
  ghost predicate Decayed(alpha: real, q: real, xs: seq<real>, more: seq<real>, n: nat, k: nat)
    requires k <= |xs| <= n && |more| == |xs| + 1
  {
    Weighted(alpha, more, n + 1, k) == q * Weighted(alpha, xs, n, k)
  }

  lemma DecayOnce(alpha: real, q: real, xs: seq<real>, more: seq<real>, n: nat, k: nat)
    requires 0 < k <= |xs| <= n && |more| == |xs| + 1 && more[k - 1] == xs[k - 1] && q == 1.0 - alpha
    requires Decayed(alpha, q, xs, more, n, k - 1)
    ensures Decayed(alpha, q, xs, more, n, k)
  {
    TermDecays(alpha, q, xs, more, n, k);
    AddScaled(q, Weighted(alpha, xs, n, k - 1), Weighted(alpha, more, n + 1, k - 1),
              Term(alpha, xs, n, k), Term(alpha, more, n + 1, k),
              Weighted(alpha, xs, n, k), Weighted(alpha, more, n + 1, k));
  }

  /** One more sample scales every earlier share by 1 - alpha. */
  lemma {:induction false} WeightsDecay(alpha: real, q: real, xs: seq<real>, more: seq<real>, n: nat, k: nat)
    requires k <= |xs| <= n && |more| == |xs| + 1 && more[..|xs|] == xs && q == 1.0 - alpha
    ensures Decayed(alpha, q, xs, more, n, k)
  {
    if k > 0 {
      WeightsDecay(alpha, q, xs, more, n, k - 1);
      assert more[k - 1] == more[..|xs|][k - 1] == xs[k - 1];
      DecayOnce(alpha, q, xs, more, n, k);
    }
  }

  lemma EmaSnoc(alpha: real, xs: seq<real>, x: real)
    requires xs != []
    ensures Ema(alpha, xs + [x]) == alpha * x + (1.0 - alpha) * Ema(alpha, xs)
  {
    assert (xs + [x])[..|xs|] == xs;
  }

  /** The offset is the weighted sum of all samples. */
  lemma {:induction false} ClosedForm(alpha: real, xs: seq<real>)
    ensures Ema(alpha, xs) == Weighted(alpha, xs, |xs|, |xs|)
  {
    if |xs| == 1 {
      assert Weighted(alpha, xs, 1, 1) == Weighted(alpha, xs, 1, 0) + Weight(alpha, 0, 0) * xs[0];
    } else if |xs| > 1 {
      var front, x := xs[..|xs| - 1], xs[|xs| - 1];
      ClosedForm(alpha, front);
      WeightsDecay(alpha, 1.0 - alpha, front, xs, |front|, |front|);
    }
  }

  // ----- a jump of the server clock -----

  function Repeated(c: real, n: nat): seq<real> {
    seq(n, _ => c)
  }

  lemma Residual(alpha: real, c: real, y: real, y': real, p: real, p': real, error: real)
    requires y' == alpha * c + (1.0 - alpha) * y && p' == (1.0 - alpha) * p
    requires y - c == p * error
    ensures y' - c == p' * error
  {
    var q := 1.0 - alpha;
    assert y' - c == q * (y - c);
    assert q * (p * error) == (q * p) * error;
  }

  lemma OneMorePower(r: real, n: nat)
    requires n > 0
    ensures Power(r, n) == r * Power(r, n - 1)
  {
  }

  lemma OneMoreRepeat(xs: seq<real>, c: real, n: nat)
    ensures xs + Repeated(c, 0) == xs
    ensures n > 0 ==> xs + Repeated(c, n) == xs + Repeated(c, n - 1) + [c]
  {
  }

  /** The error left after n repeats of c, when it was `error` before them. */
  ghost predicate ErrorLeft(alpha: real, ys: seq<real>, c: real, n: nat, error: real) {
    Ema(alpha, ys) - c == Power(1.0 - alpha, n) * error
  }

  lemma JumpStep(alpha: real, before: seq<real>, c: real, n: nat, error: real)
    requires before != [] && n > 0 && ErrorLeft(alpha, before, c, n - 1, error)
    ensures ErrorLeft(alpha, before + [c], c, n, error)
  {
    EmaSnoc(alpha, before, c);
    OneMorePower(1.0 - alpha, n);
    Residual(alpha, c, Ema(alpha, before), Ema(alpha, before + [c]),
             Power(1.0 - alpha, n - 1), Power(1.0 - alpha, n), error);
  }

  /** After n samples at a new constant offset, exactly (1 - alpha)^n of the error left before them remains. */
  lemma {:induction false} JumpDecays(alpha: real, xs: seq<real>, c: real, n: nat, error: real)
    requires xs != [] && error == Ema(alpha, xs) - c
    ensures ErrorLeft(alpha, xs + Repeated(c, n), c, n, error)
  {
    OneMoreRepeat(xs, c, n);
    if n > 0 {
      JumpDecays(alpha, xs, c, n - 1, error);
      JumpStep(alpha, xs + Repeated(c, n - 1), c, n, error);
    }
  }
}
