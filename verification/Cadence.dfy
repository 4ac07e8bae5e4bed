/** The per-connection re-anchor loop: heartbeats and timer snapshots on two independent cadences. */
module Cadence {

  // ----- whole periods -----

  /** n periods, added up one at a time as the loop does. */
  function Multiple(n: nat, period: real): real {
    if n == 0 then 0.0 else Multiple(n - 1, period) + period
  }

  lemma {:induction false} MultipleIsProduct(n: nat, period: real)
    ensures Multiple(n, period) == n as real * period
  {
    if n > 0 { MultipleIsProduct(n - 1, period); }
  }

  lemma {:induction false} MultipleGrows(m: nat, n: nat, period: real)
    requires m <= n && period > 0.0
    ensures Multiple(m, period) <= Multiple(n, period)
    decreases n
  {
    if m < n { MultipleGrows(m, n - 1, period); }
  }

  lemma {:induction false} MultipleOfMore(n: nat, a: real, b: real)
    requires a <= b
    ensures Multiple(n, a) <= Multiple(n, b)
  {
    if n > 0 { MultipleOfMore(n - 1, a, b); }
  }

  lemma FirstPeriod(period: real)
    ensures Multiple(1, period) == period
  {
    assert Multiple(1, period) == Multiple(0, period) + period;
  }

  /** Whole periods that fit in a stretch of time. */
  function Periods(time: real, period: real): (n: nat)
    requires period > 0.0 && time >= 0.0
    ensures Multiple(n, period) <= time < Multiple(n + 1, period)
  {
    PeriodsFit(time, period);
    (time / period).Floor
  }

  lemma Scale(a: real, b: real, p: real)
    requires a <= b && p > 0.0
    ensures a * p <= b * p
  {
  }

  lemma PeriodsFit(time: real, period: real)
    requires period > 0.0 && time >= 0.0
    ensures (time / period).Floor >= 0
    ensures Multiple((time / period).Floor, period) <= time < Multiple((time / period).Floor + 1, period)
  {
    var q := time / period;
    assert q >= 0.0;
    Quotient(time, period, q);
    Between(time, period, q, q.Floor);
  }

  lemma Between(time: real, period: real, q: real, n: nat)
    requires period > 0.0 && q * period == time && n as real <= q < n as real + 1.0
    ensures Multiple(n, period) <= time < Multiple(n + 1, period)
  {
    MultipleIsProduct(n, period);
    Scale(n as real, q, period);
    NextMultiple(n as real, period, q, time);
  }

  lemma NextMultiple(a: real, period: real, q: real, time: real)
    requires period > 0.0 && q < a + 1.0 && q * period == time
    ensures time < a * period + period
  {
    var room := a + 1.0 - q;
    assert room * period > 0.0;
  }

  lemma Quotient(time: real, period: real, q: real)
    requires period > 0.0 && q == time / period
    ensures q * period == time
  {
  }

  lemma DueIff(time: real, period: real, n: nat)
    requires period > 0.0 && time >= 0.0
    ensures time >= Multiple(n, period) <==> Periods(time, period) >= n
  {
    var m := Periods(time, period);
    if m >= n { MultipleGrows(n, m, period); } else { MultipleGrows(m + 1, n, period); }
  }

  /** One tick adds at most one period, because no period is shorter than a tick. */
  lemma PeriodsStep(time: real, tick: real, period: real)
    requires period >= tick > 0.0 && time >= 0.0
    ensures Periods(time, period) <= Periods(time + tick, period) <= Periods(time, period) + 1
  {
    var n := Periods(time, period);
    DueIff(time + tick, period, n);
    DueIff(time + tick, period, n + 2);
    assert Multiple(n + 2, period) == Multiple(n + 1, period) + period;
  }

  // ----- one cadence -----

  /** The loop's clock after k ticks, with the comparison slack added. */
  function Elapsed(k: nat, tick: real, slack: real): real {
    Multiple(k, tick) + slack
  }

  lemma ElapsedPositive(k: nat, tick: real, slack: real)
    requires tick > 0.0 && slack >= 0.0
    ensures Elapsed(k, tick, slack) >= 0.0
  {
    MultipleGrows(0, k, tick);
  }

  /** Messages owed on one cadence after k ticks: the whole periods elapsed, at most one a tick. */
  function Owed(k: nat, tick: real, slack: real, period: real): nat
    requires period > 0.0 && tick > 0.0 && slack >= 0.0
  {
    ElapsedPositive(k, tick, slack);
    var n := Periods(Elapsed(k, tick, slack), period);
    if n < k then n else k
  }

  /** The n-th message goes out at the first tick that reaches n periods, or at tick n if that came sooner. */
  predicate OnTime(n: nat, at: nat, tick: real, slack: real, period: real) {
    && Multiple(n, period) <= Elapsed(at, tick, slack)
    && (at == n || (at > 0 && Elapsed(at - 1, tick, slack) < Multiple(n, period)))
  }

  /** The loop's state for one cadence after k ticks. */
  ghost predicate Kept(k: nat, sent: seq<nat>, next: real, tick: real, slack: real, period: real) {
    && period >= tick > 0.0 && slack >= 0.0
    && next == Multiple(|sent| + 1, period)
    && |sent| == Owed(k, tick, slack, period)
    && forall n :: 0 <= n < |sent| ==> OnTime(n + 1, sent[n], tick, slack, period)
  }

  lemma OwedStep(k: nat, tick: real, slack: real, period: real)
    requires period >= tick > 0.0 && slack >= 0.0
    ensures var h := Owed(k, tick, slack, period);
            var due := Elapsed(k + 1, tick, slack) >= Multiple(h + 1, period);
            && Owed(k + 1, tick, slack, period) == (if due then h + 1 else h)
            && (due ==> OnTime(h + 1, k + 1, tick, slack, period))
  {
    var h := Owed(k, tick, slack, period);
    var t := Elapsed(k, tick, slack);
    ElapsedPositive(k, tick, slack);
    assert Elapsed(k + 1, tick, slack) == t + tick;
    PeriodsStep(t, tick, period);
    DueIff(t + tick, period, h + 1);
    DueIff(t, period, h + 1);
  }

  /** Testing for one message a tick keeps the count exact and each message on time. */
  lemma TickKeeps(k: nat, sent: seq<nat>, next: real, tick: real, slack: real, period: real)
    requires Kept(k, sent, next, tick, slack, period)
    ensures if Elapsed(k + 1, tick, slack) >= next
            then Kept(k + 1, sent + [k + 1], next + period, tick, slack, period)
            else Kept(k + 1, sent, next, tick, slack, period)
  {
    OwedStep(k, tick, slack, period);
  }

  // ----- the loop -----

  /** The loop, watched for some number of ticks; it returns the tick of every message it sent. */
  method BroadcastLoop(heartbeatS: real, timerS: real, slack: real, ticks: nat)
      returns (tick: real, heartbeats: seq<nat>, timers: seq<nat>)
    requires heartbeatS > 0.0 && timerS > 0.0 && slack >= 0.0
    ensures tick == if heartbeatS <= timerS then heartbeatS else timerS
    ensures |heartbeats| == Owed(ticks, tick, slack, heartbeatS)
    ensures |timers| == Owed(ticks, tick, slack, timerS)
    ensures forall n :: 0 <= n < |heartbeats| ==> OnTime(n + 1, heartbeats[n], tick, slack, heartbeatS)
    ensures forall n :: 0 <= n < |timers| ==> OnTime(n + 1, timers[n], tick, slack, timerS)
  {
    var nextHb := heartbeatS;
    var nextTimer := timerS;
    var elapsed := 0.0;
    tick := if heartbeatS <= timerS then heartbeatS else timerS;
    heartbeats, timers := [], [];
    FirstPeriod(heartbeatS);
    FirstPeriod(timerS);
    for k := 0 to ticks
      invariant elapsed + slack == Elapsed(k, tick, slack)
      invariant Kept(k, heartbeats, nextHb, tick, slack, heartbeatS)
      invariant Kept(k, timers, nextTimer, tick, slack, timerS)
    {
      TickKeeps(k, heartbeats, nextHb, tick, slack, heartbeatS);
      TickKeeps(k, timers, nextTimer, tick, slack, timerS);
      elapsed := elapsed + tick;
      if elapsed + slack >= nextHb {
        heartbeats := heartbeats + [k + 1];
        nextHb := nextHb + heartbeatS;
      }
      if elapsed + slack >= nextTimer {
        timers := timers + [k + 1];
        nextTimer := nextTimer + timerS;
      }
    }
  }

  /** With any slack below the period, none included, k ticks owe exactly the whole periods they span. */
  lemma NoDrift(k: nat, tick: real, slack: real, period: real)
    requires period >= tick > 0.0 && 0.0 <= slack < period
    ensures Owed(k, tick, slack, period) == ((k as real * tick + slack) / period).Floor
  {
    ElapsedPositive(k, tick, slack);
    MultipleIsProduct(k, tick);
    MultipleOfMore(k, tick, period);
    DueIff(Elapsed(k, tick, slack), period, k + 1);
  }
}
