/** The edge debouncer: M violating frames out of N open an anomaly, K calm frames in a row clear it. */
module Debounce {
  import opened Model

  datatype Config = Config(window: nat, mOfN: nat, clearConsecutive: nat)

  datatype Transition = Opened | Cleared

  datatype TrackState = TrackState(history: seq<bool>, isOpen: bool, clearStreak: nat)

  datatype Outcome = Outcome(state: TrackState, event: Option<Transition>)

  type Key = (string, string)

  const UNSEEN := TrackState([], false, 0)

  // ----- one frame of one stream -----

  function Count(s: seq<bool>): nat {
    if s == [] then 0 else Count(s[..|s| - 1]) + (if s[|s| - 1] then 1 else 0)
  }

  /** A deque with a maximum length drops its oldest entry when it overflows. */
  function Push(history: seq<bool>, violating: bool, maxlen: nat): seq<bool> {
    LastN(maxlen, history + [violating])
  }

  function Observed(cfg: Config, st: TrackState, violating: bool): Outcome {
    var history := Push(st.history, violating, cfg.window);
    var streak := if violating then 0 else st.clearStreak + 1;
    if !st.isOpen then
      if Count(history) >= cfg.mOfN
      then Outcome(TrackState(history, true, 0), Some(Opened))
      else Outcome(TrackState(history, false, streak), None)
    else
      if streak >= cfg.clearConsecutive
      then Outcome(TrackState([], false, 0), Some(Cleared))
      else Outcome(TrackState(history, true, streak), None)
  }

  function StateAfter(cfg: Config, xs: seq<bool>): TrackState {
    if xs == [] then UNSEEN
    else Observed(cfg, StateAfter(cfg, xs[..|xs| - 1]), xs[|xs| - 1]).state
  }

  function EventsOf(cfg: Config, xs: seq<bool>): (evs: seq<Option<Transition>>)
    ensures |evs| == |xs|
  {
    if xs == [] then []
    else EventsOf(cfg, xs[..|xs| - 1])
         + [Observed(cfg, StateAfter(cfg, xs[..|xs| - 1]), xs[|xs| - 1]).event]
  }

  /** One more frame adds one more event and moves the state once. */
  lemma OneMoreFrame(cfg: Config, xs: seq<bool>, x: bool)
    ensures EventsOf(cfg, xs + [x]) == EventsOf(cfg, xs) + [Observed(cfg, StateAfter(cfg, xs), x).event]
    ensures StateAfter(cfg, xs + [x]) == Observed(cfg, StateAfter(cfg, xs), x).state
  {
    assert (xs + [x])[..|xs|] == xs;
  }

  lemma LastEvent(cfg: Config, xs: seq<bool>, x: bool)
    ensures EventsOf(cfg, xs + [x])[|xs + [x]| - 1] == Observed(cfg, StateAfter(cfg, xs), x).event
    ensures StateAfter(cfg, xs + [x]) == Observed(cfg, StateAfter(cfg, xs), x).state
  {
    OneMoreFrame(cfg, xs, x);
  }

  // ----- the machine itself -----

  datatype DebounceEvent = DebounceEvent(track: string, rule: string, transition: Transition)

  function Tagged(key: Key, event: Option<Transition>): Option<DebounceEvent> {
    match event
    case None => None
    case Some(t) => Some(DebounceEvent(key.0, key.1, t))
  }

  /** Every record is what its stream makes of it. */
  ghost predicate Tracked(config: Config, states: map<Key, TrackState>, seen: map<Key, seq<bool>>) {
    && states.Keys == seen.Keys
    && forall k :: k in states ==> states[k] == StateAfter(config, seen[k])
  }

  lemma KnownState(config: Config, states: map<Key, TrackState>, seen: map<Key, seq<bool>>, key: Key)
    requires Tracked(config, states, seen)
    ensures (if key in states then states[key] else UNSEEN) == StateAfter(config, StreamOf(seen, key))
  {
  }

  lemma TrackedStays(config: Config, states: map<Key, TrackState>, seen: map<Key, seq<bool>>, key: Key, st: TrackState,
                     xs: seq<bool>)
    requires Tracked(config, states, seen) && st == StateAfter(config, xs)
    ensures Tracked(config, states[key := st], seen[key := xs])
  {
  }

  class TrackDebouncer {
    const config: Config
    var states: map<Key, TrackState>
    /** Everything ever observed under each key. */
    ghost var seen: map<Key, seq<bool>>

    ghost predicate Valid()
      reads this
    {
      Tracked(config, states, seen)
    }

    constructor (config: Config)
      ensures Valid() && this.config == config && seen == map[]
    {
      this.config := config;
      states := map[];
      seen := map[];
    }

    /** Each key is answered from its own stream alone; no other key's stream or state moves. */
    method Observe(track: string, rule: string, violating: bool) returns (event: Option<DebounceEvent>)
      requires Valid()
      modifies this
      ensures Valid()
      ensures seen == old(seen)[(track, rule) := StreamOf(old(seen), (track, rule)) + [violating]]
      ensures event == Tagged((track, rule), EventsOf(config, seen[(track, rule)])[|seen[(track, rule)]| - 1])
      ensures forall k :: k in old(states) && k != (track, rule) ==> k in states && states[k] == old(states[k])
    {
      var key := (track, rule);
      ghost var before := StreamOf(seen, key);
      LastEvent(config, before, violating);
      KnownState(config, states, seen, key);
      var st, transition := NextFrame(config, if key in states then states[key] else UNSEEN, violating);
      TrackedStays(config, states, seen, key, st, before + [violating]);
      states := states[key := st];
      seen := seen[key := before + [violating]];
      event := Tagged(key, transition);
    }
  }

  /** One frame on one track record: count over the window to open, count calm frames to clear. */
  method NextFrame(config: Config, before: TrackState, violating: bool)
      returns (st: TrackState, event: Option<Transition>)
    ensures Outcome(st, event) == Observed(config, before, violating)
  {
    var history := before.history + [violating];
    if |history| > config.window {
      history := history[|history| - config.window..];
    }
    var streak := if violating then 0 else before.clearStreak + 1;
    if !before.isOpen {
      var total := Total(history);
      if total >= config.mOfN {
        return TrackState(history, true, 0), Some(Opened);
      }
      return TrackState(history, false, streak), None;
    }
    if streak >= config.clearConsecutive {
      return TrackState([], false, 0), Some(Cleared);
    }
    return TrackState(history, true, streak), None;
  }

  function StreamOf(seen: map<Key, seq<bool>>, key: Key): seq<bool> {
    if key in seen then seen[key] else []
  }

  method Total(s: seq<bool>) returns (n: nat)
    ensures n == Count(s)
  {
    n := 0;
    for i := 0 to |s|
      invariant n == Count(s[..i])
    {
      assert s[..i + 1][..i] == s[..i];
      n := n + if s[i] then 1 else 0;
    }
    assert s[..|s|] == s;
  }

  // ----- what the stream alone says should happen -----

  function LastN<T>(n: nat, s: seq<T>): seq<T> {
    if |s| <= n then s else s[|s| - n..]
  }

  /** The frame after the last t, or 0. */
  function After(evs: seq<Option<Transition>>, t: Transition): (n: nat)
    ensures n <= |evs|
    ensures n == 0 || evs[n - 1] == Some(t)
    ensures forall i :: n <= i < |evs| ==> evs[i] != Some(t)
  {
    if evs == [] then 0
    else if evs[|evs| - 1] == Some(t) then |evs|
    else After(evs[..|evs| - 1], t)
  }

  predicate OpenAfter(evs: seq<Option<Transition>>) {
    After(evs, Opened) > After(evs, Cleared)
  }

  predicate Calm(s: seq<bool>) {
    forall i :: 0 <= i < |s| ==> !s[i]
  }

  /** The event owed at the last frame of xs, given the events of the frames before it. */
  function Owed(cfg: Config, xs: seq<bool>, before: seq<Option<Transition>>): Option<Transition>
    requires |xs| == |before| + 1
  {
    if !OpenAfter(before) then
      if Count(LastN(cfg.window, xs[After(before, Cleared)..])) >= cfg.mOfN then Some(Opened) else None
    else
      var sinceOpen := xs[After(before, Opened)..];
      if |sinceOpen| >= cfg.clearConsecutive && Calm(LastN(cfg.clearConsecutive, sinceOpen))
      then Some(Cleared) else None
  }

  // ----- the machine refines it -----

  function TrailingCalm(s: seq<bool>): nat {
    if s == [] || s[|s| - 1] then 0 else TrailingCalm(s[..|s| - 1]) + 1
  }

  /** What the machine remembers, as a function of its stream and its past events. */
  predicate Remembers(cfg: Config, xs: seq<bool>, evs: seq<Option<Transition>>, st: TrackState)
    requires |evs| == |xs|
  {
    && st.isOpen == OpenAfter(evs)
    && (!st.isOpen ==> st.history == LastN(cfg.window, xs[After(evs, Cleared)..]))
    && (st.isOpen ==> st.clearStreak == TrailingCalm(xs[After(evs, Opened)..]))
  }

  lemma LastNPush<T>(n: nat, s: seq<T>, x: T)
    ensures LastN(n, LastN(n, s) + [x]) == LastN(n, s + [x])
  {
  }

  lemma CalmSnoc(s: seq<bool>, x: bool, k: nat)
    requires 0 < k <= |s| + 1
    ensures Calm(LastN(k, s + [x])) <==> !x && Calm(LastN(k - 1, s))
  {
    var longer, shorter := LastN(k, s + [x]), LastN(k - 1, s);
    assert longer == shorter + [x];
    assert longer[k - 1] == x;
    assert forall i :: 0 <= i < k - 1 ==> shorter[i] == longer[i];
  }

  lemma {:induction false} TrailingCalmIff(s: seq<bool>, k: nat)
    ensures TrailingCalm(s) <= |s|
    ensures TrailingCalm(s) >= k <==> |s| >= k && Calm(LastN(k, s))
  {
    if s != [] {
      var front, last := s[..|s| - 1], s[|s| - 1];
      assert front + [last] == s;
      TrailingCalmIff(front, if k == 0 then 0 else k - 1);
      if 0 < k <= |s| {
        CalmSnoc(front, last, k);
      }
    }
  }

  /** Every event of every stream is the one its history calls for, and no other. */
  lemma RefinesHistory(cfg: Config, xs: seq<bool>, n: nat)
    requires n < |xs|
    ensures EventsOf(cfg, xs)[n] == Owed(cfg, xs[..n + 1], EventsOf(cfg, xs)[..n])
  {
    var front := xs[..n];
    EndOfPrefix(xs, n);
    NthEvent(cfg, xs, n);
    MachineRemembers(cfg, front);
    StepIsOwed(cfg, front, xs[n], EventsOf(cfg, front), StateAfter(cfg, front));
  }

  /** The n-th event is the machine's answer to frame n after the frames before it. */
  lemma NthEvent(cfg: Config, xs: seq<bool>, n: nat)
    requires n < |xs|
    ensures EventsOf(cfg, xs)[..n] == EventsOf(cfg, xs[..n])
    ensures EventsOf(cfg, xs)[n] == Observed(cfg, StateAfter(cfg, xs[..n]), xs[n]).event
  {
    EventsOfPrefix(cfg, xs, n);
    EventsOfPrefix(cfg, xs, n + 1);
    EndOfPrefix(EventsOf(cfg, xs), n);
    EndOfPrefix(xs, n);
    LastEvent(cfg, xs[..n], xs[n]);
  }

  lemma EndOfPrefix<T>(s: seq<T>, n: nat)
    requires n < |s|
    ensures s[..n + 1] == s[..n] + [s[n]] && s[..n + 1][n] == s[n]
  {
  }

  lemma {:induction false} EventsOfPrefix(cfg: Config, xs: seq<bool>, n: nat)
    requires n <= |xs|
    ensures EventsOf(cfg, xs)[..n] == EventsOf(cfg, xs[..n])
    decreases |xs|
  {
    if n == |xs| {
      assert xs[..n] == xs;
    } else {
      var front := xs[..|xs| - 1];
      EventsOfPrefix(cfg, front, n);
      assert front[..n] == xs[..n];
      assert EventsOf(cfg, xs)[..|front|] == EventsOf(cfg, front);
      assert EventsOf(cfg, xs)[..n] == EventsOf(cfg, xs)[..|front|][..n];
    }
  }

  lemma {:induction false} MachineRemembers(cfg: Config, xs: seq<bool>)
    ensures Remembers(cfg, xs, EventsOf(cfg, xs), StateAfter(cfg, xs))
  {
    if xs != [] {
      var front, last := xs[..|xs| - 1], xs[|xs| - 1];
      assert front + [last] == xs;
      MachineRemembers(cfg, front);
      RemembersOneMore(cfg, front, last);
    }
  }

  lemma RemembersOneMore(cfg: Config, xs: seq<bool>, x: bool)
    requires Remembers(cfg, xs, EventsOf(cfg, xs), StateAfter(cfg, xs))
    ensures Remembers(cfg, xs + [x], EventsOf(cfg, xs + [x]), StateAfter(cfg, xs + [x]))
  {
    StepRemembers(cfg, xs, x, EventsOf(cfg, xs), StateAfter(cfg, xs));
    OneMoreFrame(cfg, xs, x);
  }

  lemma AfterSnoc(evs: seq<Option<Transition>>, e: Option<Transition>, t: Transition)
    ensures After(evs + [e], t) == if e == Some(t) then |evs| + 1 else After(evs, t)
  {
    assert (evs + [e])[..|evs|] == evs;
  }

  lemma StepIsOwed(cfg: Config, xs: seq<bool>, x: bool, evs: seq<Option<Transition>>, st: TrackState)
    requires |evs| == |xs| && Remembers(cfg, xs, evs, st)
    ensures Observed(cfg, st, x).event == Owed(cfg, xs + [x], evs)
  {
    if st.isOpen {
      StreakPush(xs, x, After(evs, Opened), st.clearStreak);
      TrailingCalmIff((xs + [x])[After(evs, Opened)..], cfg.clearConsecutive);
    } else {
      HistoryPush(cfg.window, xs, x, After(evs, Cleared));
    }
  }

  lemma HistoryPush(window: nat, xs: seq<bool>, x: bool, from: nat)
    requires from <= |xs|
    ensures Push(LastN(window, xs[from..]), x, window) == LastN(window, (xs + [x])[from..])
  {
    assert (xs + [x])[from..] == xs[from..] + [x];
    LastNPush(window, xs[from..], x);
  }

  lemma StreakPush(xs: seq<bool>, x: bool, from: nat, streak: nat)
    requires from <= |xs| && streak == TrailingCalm(xs[from..])
    ensures (if x then 0 else streak + 1) == TrailingCalm((xs + [x])[from..])
  {
    assert (xs + [x])[from..][..|xs| - from] == xs[from..];
  }

  lemma StepRemembers(cfg: Config, xs: seq<bool>, x: bool, evs: seq<Option<Transition>>, st: TrackState)
    requires |evs| == |xs| && Remembers(cfg, xs, evs, st)
    ensures var out := Observed(cfg, st, x); Remembers(cfg, xs + [x], evs + [out.event], out.state)
  {
    var out := Observed(cfg, st, x);
    AfterSnoc(evs, out.event, Opened);
    AfterSnoc(evs, out.event, Cleared);
    if out.event != None {
      assert (xs + [x])[|xs| + 1..] == [];
    } else if st.isOpen {
      StaysOpen(cfg, xs, x, evs, st);
    } else {
      StaysShut(cfg, xs, x, evs, st);
    }
  }

  lemma StaysOpen(cfg: Config, xs: seq<bool>, x: bool, evs: seq<Option<Transition>>, st: TrackState)
    requires |evs| == |xs| && Remembers(cfg, xs, evs, st)
    requires st.isOpen && Observed(cfg, st, x).event == None
    ensures Remembers(cfg, xs + [x], evs + [None], Observed(cfg, st, x).state)
  {
    AfterSnoc(evs, None, Opened);
    AfterSnoc(evs, None, Cleared);
    StreakPush(xs, x, After(evs, Opened), st.clearStreak);
  }

  lemma StaysShut(cfg: Config, xs: seq<bool>, x: bool, evs: seq<Option<Transition>>, st: TrackState)
    requires |evs| == |xs| && Remembers(cfg, xs, evs, st)
    requires !st.isOpen && Observed(cfg, st, x).event == None
    ensures Remembers(cfg, xs + [x], evs + [None], Observed(cfg, st, x).state)
  {
    AfterSnoc(evs, None, Opened);
    AfterSnoc(evs, None, Cleared);
    HistoryPush(cfg.window, xs, x, After(evs, Cleared));
  }

  // ----- consequences -----

  /** Between two opens there is a clear. */
  lemma OpensAreSeparated(cfg: Config, xs: seq<bool>, i: nat, j: nat)
    requires i < j < |xs| && EventsOf(cfg, xs)[i] == EventsOf(cfg, xs)[j] == Some(Opened)
    ensures exists k :: i < k < j && EventsOf(cfg, xs)[k] == Some(Cleared)
  {
    var before := EventsOf(cfg, xs)[..j];
    RefinesHistory(cfg, xs, j);
    assert before[i] == Some(Opened);
    assert i < After(before, Opened) <= After(before, Cleared);
    var k := After(before, Cleared) - 1;
    assert before[k] == Some(Cleared);
    assert k != i && EventsOf(cfg, xs)[k] == Some(Cleared);
  }

  /** Before every clear there is an open, with no other clear in between. */
  lemma ClearsAreSeparated(cfg: Config, xs: seq<bool>, j: nat)
    requires j < |xs| && EventsOf(cfg, xs)[j] == Some(Cleared)
    ensures exists k :: 0 <= k < j && EventsOf(cfg, xs)[k] == Some(Opened)
                        && forall i :: k < i < j ==> EventsOf(cfg, xs)[i] != Some(Cleared)
  {
    var before := EventsOf(cfg, xs)[..j];
    RefinesHistory(cfg, xs, j);
    var k := After(before, Opened) - 1;
    assert before[k] == Some(Opened) && EventsOf(cfg, xs)[k] == Some(Opened);
    forall i | k < i < j ensures EventsOf(cfg, xs)[i] != Some(Cleared) {
      assert before[i] == EventsOf(cfg, xs)[i];
    }
  }

  // ----- in terms of the frames themselves -----

  /** The violating frames from `from` on, before `to`. */
  function Hits(xs: seq<bool>, from: int, to: int): set<int> {
    set i | from <= i < to && 0 <= i < |xs| && xs[i]
  }

  lemma {:induction false} CountOfSlice(xs: seq<bool>, from: nat, end: nat)
    requires from <= end <= |xs|
    ensures Count(xs[from..end]) == |Hits(xs, from, end)|
    decreases end
  {
    if from < end {
      var s := xs[from..end];
      CountOfSlice(xs, from, end - 1);
      assert s[..|s| - 1] == xs[from..end - 1];
      OneMoreHit(xs, from, end - 1);
    } else {
      assert Hits(xs, from, end) == {};
    }
  }

  lemma OneMoreHit(xs: seq<bool>, from: nat, last: nat)
    requires from <= last < |xs|
    ensures |Hits(xs, from, last + 1)| == |Hits(xs, from, last)| + (if xs[last] then 1 else 0)
  {
    assert Hits(xs, from, last + 1) == Hits(xs, from, last) + (if xs[last] then {last} else {});
  }

  lemma MoreHits(xs: seq<bool>, a: int, b: int, to: int)
    requires b <= a
    ensures |Hits(xs, a, to)| <= |Hits(xs, b, to)|
  {
    var more := Hits(xs, b, to) - Hits(xs, a, to);
    assert Hits(xs, a, to) <= Hits(xs, b, to);
    assert Hits(xs, b, to) == Hits(xs, a, to) + more;
  }

  /** Where the last n frames of a stretch begin. */
  lemma LastOfSlice(xs: seq<bool>, from: nat, to: nat, n: nat)
    requires from <= to <= |xs|
    ensures var begin := if to - from <= n then from else to - n;
            LastN(n, xs[from..to]) == xs[begin..to]
  {
  }

  /** An anomaly opens only when at least m of the frames that count violate: the last `window` of those since the
      last clear. */
  lemma OpensCountHits(cfg: Config, xs: seq<bool>, j: nat) returns (since: nat, begin: nat)
    requires j < |xs| && EventsOf(cfg, xs)[j] == Some(Opened)
    ensures since <= j && (since == 0 || EventsOf(cfg, xs)[since - 1] == Some(Cleared))
    ensures forall k :: since <= k < j ==> EventsOf(cfg, xs)[k] != Some(Cleared)
    ensures begin == if j + 1 - since <= cfg.window then since else j + 1 - cfg.window
    ensures |Hits(xs, begin, j + 1)| >= cfg.mOfN
  {
    since := LastClear(EventsOf(cfg, xs), j);
    begin := if j + 1 - since <= cfg.window then since else j + 1 - cfg.window;
    RefinesHistory(cfg, xs, j);
    HitsCounted(xs, since, j + 1, cfg.window, begin);
  }

  /** The frame after the last clear before j. */
  lemma LastClear(evs: seq<Option<Transition>>, j: nat) returns (from: nat)
    requires j < |evs|
    ensures from == After(evs[..j], Cleared) <= j && (from == 0 || evs[from - 1] == Some(Cleared))
    ensures forall k :: from <= k < j ==> evs[k] != Some(Cleared)
  {
    from := After(evs[..j], Cleared);
    assert forall k :: 0 <= k < j ==> evs[..j][k] == evs[k];
  }

  lemma HitsCounted(xs: seq<bool>, from: nat, to: nat, window: nat, begin: nat)
    requires from <= to <= |xs| && begin == if to - from <= window then from else to - window
    ensures Count(LastN(window, xs[..to][from..])) == |Hits(xs, begin, to)|
  {
    assert xs[..to][from..] == xs[from..to];
    LastOfSlice(xs, from, to, window);
    CountOfSlice(xs, begin, to);
  }

  /** And once m frames of a stretch no longer than the window violate, one has opened by its end. */
  lemma HitsOpen(cfg: Config, xs: seq<bool>, from: nat, to: nat)
    requires from < to <= |xs| && to - from <= cfg.window && |Hits(xs, from, to)| >= cfg.mOfN
    ensures exists k :: 0 <= k < to && EventsOf(cfg, xs)[k] == Some(Opened)
  {
    var before := EventsOf(cfg, xs)[..to - 1];
    RefinesHistory(cfg, xs, to - 1);
    if After(before, Opened) > 0 {
      assert before[After(before, Opened) - 1] == EventsOf(cfg, xs)[After(before, Opened) - 1];
    } else if After(before, Cleared) > 0 {
      ClearsAreSeparated(cfg, xs, After(before, Cleared) - 1);
    } else {
      var begin := if to <= cfg.window then 0 else to - cfg.window;
      HitsCounted(xs, 0, to, cfg.window, begin);
      MoreHits(xs, from, begin, to);
    }
  }

  /** It clears only when it is open and the last K frames, all of them after the opening, are calm. */
  lemma ClearsAreCalm(cfg: Config, xs: seq<bool>, j: nat)
    requires j < |xs| && EventsOf(cfg, xs)[j] == Some(Cleared)
    ensures cfg.clearConsecutive <= j
    ensures forall i :: j - cfg.clearConsecutive < i <= j ==> !xs[i] && EventsOf(cfg, xs)[i] != Some(Opened)
  {
    var before := EventsOf(cfg, xs)[..j];
    RefinesHistory(cfg, xs, j);
    var from := After(before, Opened);
    assert from >= 1;
    assert xs[..j + 1][from..] == xs[from..j + 1];
    LastOfSlice(xs, from, j + 1, cfg.clearConsecutive);
    var calm := xs[j + 1 - cfg.clearConsecutive..j + 1];
    forall i | j - cfg.clearConsecutive < i <= j ensures !xs[i] && EventsOf(cfg, xs)[i] != Some(Opened) {
      assert xs[i] == calm[i - (j + 1 - cfg.clearConsecutive)];
      assert i < j ==> before[i] == EventsOf(cfg, xs)[i];
    }
  }

  // ----- an open is the answer to a violation -----

  lemma {:induction false} ShutIsBelow(cfg: Config, xs: seq<bool>)
    requires cfg.mOfN >= 1
    ensures !StateAfter(cfg, xs).isOpen ==> Count(StateAfter(cfg, xs).history) < cfg.mOfN
  {
    if xs != [] {
      ShutIsBelow(cfg, xs[..|xs| - 1]);
    }
  }

  lemma CountAfterCalm(h: seq<bool>, window: nat)
    ensures Count(Push(h, false, window)) <= Count(h)
  {
    var all := h + [false];
    var begin := if |all| <= window then 0 else |all| - window;
    assert Push(h, false, window) == all[begin..|all|];
    assert all[0..|h|] == h && Hits(all, 0, |all|) == Hits(all, 0, |h|);
    CountOfSlice(all, begin, |all|);
    CountOfSlice(all, 0, |h|);
    MoreHits(all, begin, 0, |all|);
  }

  /** A calm frame opens nothing, whatever came before it, if and only if m is at least 1. */
  lemma CalmOpensNothingIff(cfg: Config)
    ensures cfg.mOfN >= 1
      <==> forall xs: seq<bool> :: Observed(cfg, StateAfter(cfg, xs), false).event != Some(Opened)
  {
    if cfg.mOfN >= 1 {
      forall xs: seq<bool> ensures Observed(cfg, StateAfter(cfg, xs), false).event != Some(Opened) {
        ShutIsBelow(cfg, xs);
        CountAfterCalm(StateAfter(cfg, xs).history, cfg.window);
      }
    } else {
      assert Observed(cfg, StateAfter(cfg, []), false).event == Some(Opened);
    }
  }

  function Number(evs: seq<Option<Transition>>, t: Transition): nat {
    if evs == [] then 0
    else Number(evs[..|evs| - 1], t) + (if evs[|evs| - 1] == Some(t) then 1 else 0)
  }

  lemma {:induction false} CountBounded(s: seq<bool>)
    ensures Count(s) <= |s|
  {
    if s != [] { CountBounded(s[..|s| - 1]); }
  }

  lemma Distribute(a: nat, m: nat)
    ensures (a + 1) * m == a * m + m
  {
  }

  /** Frames held in reserve towards the next event. */
  function Reserve(st: TrackState): nat {
    if st.isOpen then st.clearStreak else |st.history|
  }

  function Cost(cfg: Config, e: Option<Transition>): nat {
    if e == Some(Opened) then cfg.mOfN else if e == Some(Cleared) then cfg.clearConsecutive else 0
  }

  lemma EventIsPaidFor(cfg: Config, st: TrackState, x: bool)
    ensures Cost(cfg, Observed(cfg, st, x).event) + Reserve(Observed(cfg, st, x).state) <= Reserve(st) + 1
  {
    CountBounded(Push(st.history, x, cfg.window));
  }

  function Spent(cfg: Config, evs: seq<Option<Transition>>): nat {
    Number(evs, Opened) * cfg.mOfN + Number(evs, Cleared) * cfg.clearConsecutive
  }

  lemma SpentSnoc(cfg: Config, evs: seq<Option<Transition>>, e: Option<Transition>)
    ensures Spent(cfg, evs + [e]) == Spent(cfg, evs) + Cost(cfg, e)
  {
    assert (evs + [e])[..|evs|] == evs;
    Distribute(Number(evs, Opened), cfg.mOfN);
    Distribute(Number(evs, Cleared), cfg.clearConsecutive);
  }

  lemma {:induction false} BudgetWithReserve(cfg: Config, xs: seq<bool>)
    ensures Spent(cfg, EventsOf(cfg, xs)) + Reserve(StateAfter(cfg, xs)) <= |xs|
  {
    if xs != [] {
      var front, last := xs[..|xs| - 1], xs[|xs| - 1];
      assert front + [last] == xs;
      BudgetWithReserve(cfg, front);
      OneMoreFrame(cfg, front, last);
      EventIsPaidFor(cfg, StateAfter(cfg, front), last);
      SpentSnoc(cfg, EventsOf(cfg, front), Observed(cfg, StateAfter(cfg, front), last).event);
    }
  }

  /** Every open costs m frames and every clear K frames, and no frame pays twice. */
  lemma EventBudget(cfg: Config, xs: seq<bool>)
    ensures Number(EventsOf(cfg, xs), Opened) * cfg.mOfN
            + Number(EventsOf(cfg, xs), Cleared) * cfg.clearConsecutive <= |xs|
  {
    BudgetWithReserve(cfg, xs);
  }
}
