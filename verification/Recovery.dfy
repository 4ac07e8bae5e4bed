/** Progress: what healthy polls achieve from any state the protocol can be in, crashed claims included. */
module Recovery {
  import opened Model
  import opened Protocol
  import Escalation
  import Guarantees
  import opened Batching

  /** The incidents the claiming query would select at this moment. */
  ghost function Due(s: Sys): set<Id> {
    set i | i in s.db.incidents && Escalation.Claimable(s.db.incidents[i], s.now)
  }

  /** The part of the invariant that progress rests on; every reachable state has it. */
  ghost predicate Sound(s: Sys) {
    Escalation.EscalationOk(s.db) && Escalation.PagesOk(s.db)
  }

  lemma ReachableIsSound(env: Env, s: Sys, steps: seq<Step>)
    requires Init(s) && Feasible(env, s, steps)
    ensures Sound(Run(env, s, steps))
  {
    EscalationHolds(env, s, steps);
  }

  /** The steps are possible from s and lead to f. */
  ghost predicate Leads(env: Env, s: Sys, steps: seq<Step>, f: Sys) {
    Feasible(env, s, steps) && Run(env, s, steps) == f
  }

  lemma LeadsOne(env: Env, s: Sys, st: Step)
    requires Enabled(s, st)
    ensures Leads(env, s, [st], Apply(env, s, st))
  {
    RunGrows(env, s, [], st);
    assert [] + [st] == [st];
  }

  lemma LeadsOn(env: Env, s: Sys, first: seq<Step>, m: Sys, second: seq<Step>, f: Sys)
    requires Leads(env, s, first, m) && Leads(env, m, second, f)
    ensures Leads(env, s, first + second, f)
  {
    RunsCompose(env, s, first, second);
  }

  // ----- one poll -----

  /** The row a fire leaves behind. */
  ghost predicate Advanced(env: Env, now: Time, a: Incident, b: Incident) {
    var tr := Escalation.TransitionFor(a.status, a.currentTier);
    tr.Some? && b == Escalation.AdvancedRow(env, a, tr.value, now)
  }

  /** Exactly the incidents in `ids` advanced, at one moment, and nothing happened to the others. */
  ghost predicate AdvancedAll(env: Env, s: Sys, f: Sys, ids: set<Id>) {
    && f.now == s.now
    && f.db.incidents.Keys == s.db.incidents.Keys
    && (forall i :: i in s.db.incidents ==>
          if i in ids then Advanced(env, s.now, s.db.incidents[i], f.db.incidents[i])
          else f.db.incidents[i] == s.db.incidents[i])
  }

  lemma FireOne(env: Env, s: Sys, w: Id, i: Id, o: Id)
    requires Sound(s) && Enabled(s, Fire(w, i, o)) && Escalation.PassesRecheck(s.db.incidents[i])
    ensures var m := Apply(env, s, Fire(w, i, o));
            Sound(m) && m.tickets == s.tickets - {(w, i)} && AdvancedAll(env, s, m, {i})
  {
    FireStepKeeps(env, s, Fire(w, i, o));
    Escalation.FireAdvances(env, s.db, i, o, s.now);
    Escalation.FireEffect(env, s.db, i, o, s.now);
  }

  /** Fires every ticket a worker holds on `ids`, whatever the order. */
  lemma {:induction false} FireAll(env: Env, s: Sys, w: Id, ids: set<Id>) returns (steps: seq<Step>, f: Sys)
    requires Sound(s)
    requires forall i :: i in ids ==>
      (w, i) in s.tickets && i in s.db.incidents && Escalation.PassesRecheck(s.db.incidents[i])
    ensures Leads(env, s, steps, f) && Sound(f) && AdvancedAll(env, s, f, ids) && AllFire(steps, w)
    decreases |ids|
  {
    if ids == {} {
      steps, f := [], s;
    } else {
      var i :| i in ids;
      var st, m := FireNext(env, s, w, i, ids);
      var rest;
      rest, f := FireAll(env, m, w, ids - {i});
      LeadsOn(env, s, [st], m, rest, f);
      AdvancedTwice(env, s, m, f, {i}, ids - {i});
      assert {i} + (ids - {i}) == ids;
      steps := [st] + rest;
      OneMoreFire(st, rest, w);
    }
  }

  ghost predicate AllFire(steps: seq<Step>, w: Id) {
    forall k :: 0 <= k < |steps| ==> steps[k].Fire? && steps[k].w == w
  }

  lemma OneMoreFire(st: Step, rest: seq<Step>, w: Id)
    requires st.Fire? && st.w == w && AllFire(rest, w)
    ensures AllFire([st] + rest, w)
  {
  }

  lemma FireNext(env: Env, s: Sys, w: Id, i: Id, ids: set<Id>) returns (st: Step, m: Sys)
    requires Sound(s) && i in ids
    requires forall j :: j in ids ==>
      (w, j) in s.tickets && j in s.db.incidents && Escalation.PassesRecheck(s.db.incidents[j])
    ensures st.Fire? && st.w == w && Leads(env, s, [st], m) && Sound(m) && AdvancedAll(env, s, m, {i})
    ensures forall j :: j in ids - {i} ==>
      (w, j) in m.tickets && j in m.db.incidents && Escalation.PassesRecheck(m.db.incidents[j])
  {
    var o := FreshId(s.db.outbox.Keys);
    st := Fire(w, i, o);
    FireOne(env, s, w, i, o);
    LeadsOne(env, s, st);
    m := Apply(env, s, st);
    StillHeld(env, s, m, w, i, ids);
  }

  lemma StillHeld(env: Env, s: Sys, m: Sys, w: Id, i: Id, ids: set<Id>)
    requires i in ids && m.tickets == s.tickets - {(w, i)} && AdvancedAll(env, s, m, {i})
    requires forall j :: j in ids ==>
      (w, j) in s.tickets && j in s.db.incidents && Escalation.PassesRecheck(s.db.incidents[j])
    ensures forall j :: j in ids - {i} ==>
      (w, j) in m.tickets && j in m.db.incidents && Escalation.PassesRecheck(m.db.incidents[j])
  {
  }

  lemma AdvancedTwice(env: Env, s: Sys, m: Sys, f: Sys, first: set<Id>, second: set<Id>)
    requires AdvancedAll(env, s, m, first) && AdvancedAll(env, m, f, second) && first !! second
    ensures AdvancedAll(env, s, f, first + second)
  {
  }

  /** A poll that claims due incidents and fires each of them: it advances exactly these. */
  lemma Poll(env: Env, s: Sys, w: Id, ids: set<Id>, lease: nat) returns (steps: seq<Step>, f: Sys)
    requires Sound(s) && ids <= Due(s)
    ensures Leads(env, s, steps, f) && Sound(f) && AdvancedAll(env, s, f, ids)
    ensures |steps| >= 1 && steps[0] == Claim(w, ids, lease) && AllFire(steps[1..], w)
  {
    var st := Claim(w, ids, lease);
    QuietStepKeepsEscalation(env, s, st);
    QuietStepKeepsPages(env, s, st);
    ClaimGrants(env, s, w, ids, lease);
    LeadsOne(env, s, st);
    var m := Apply(env, s, st);
    var fires;
    fires, f := FireAll(env, m, w, ids);
    LeadsOn(env, s, [st], m, fires, f);
    steps := [st] + fires;
    assert steps[1..] == fires;
    ClaimThenAdvance(env, s, m, f, w, ids, lease);
  }

  lemma ClaimThenAdvance(env: Env, s: Sys, m: Sys, f: Sys, w: Id, ids: set<Id>, lease: nat)
    requires Granted(s, m, w, ids, lease) && AdvancedAll(env, m, f, ids)
    ensures AdvancedAll(env, s, f, ids)
  {
    forall i | i in s.db.incidents && i in ids
      ensures Advanced(env, s.now, s.db.incidents[i], f.db.incidents[i])
    {
      assert Advanced(env, m.now, m.db.incidents[i], f.db.incidents[i]);
    }
  }

  ghost predicate Granted(s: Sys, m: Sys, w: Id, ids: set<Id>, lease: nat) {
    && m.now == s.now && m.db.incidents.Keys == s.db.incidents.Keys
    && (forall i :: i in s.db.incidents ==>
          m.db.incidents[i] == if i in ids
                               then s.db.incidents[i].(claimedBy := Some(w), claimedUntil := Some(s.now + lease))
                               else s.db.incidents[i])
  }

  lemma ClaimGrants(env: Env, s: Sys, w: Id, ids: set<Id>, lease: nat)
    requires ids <= Due(s)
    ensures var m := Apply(env, s, Claim(w, ids, lease));
            && Granted(s, m, w, ids, lease)
            && (forall i :: i in ids ==> (w, i) in m.tickets)
            && (forall i :: i in ids ==> i in m.db.incidents && Escalation.PassesRecheck(m.db.incidents[i]))
  {
    forall i | i in ids ensures (w, i) in Apply(env, s, Claim(w, ids, lease)).tickets {
      assert (w, i) in NewTickets(s, w, ids, s.now + lease);
    }
  }

  // ----- draining -----

  /** A fire of the row at `now` arms a timer no later than `limit`. */
  ghost predicate Rearms(env: Env, inc: Incident, now: Time, limit: Time) {
    var tr := Escalation.TransitionFor(inc.status, inc.currentTier);
    tr.Some? && var timer := Escalation.TimerFor(env, inc.facts, tr.value, now);
                timer.Some? && timer.value <= limit
  }

  /** None of the incidents, fired now, is due again at once. */
  ghost predicate NoneDueAgain(env: Env, rows: map<Id, Incident>, ids: set<Id>, now: Time) {
    forall i :: i in ids && i in rows ==> !Rearms(env, rows[i], now, now)
  }

  /** A batch the claiming query may return when no row is locked: as many due rows as fit, the ones
      with the earliest timers. */
  ghost predicate IsBatch(rows: map<Id, Incident>, due: set<Id>, ids: set<Id>, batch: nat) {
    && ids <= due
    && |ids| == (if |due| <= batch then |due| else batch)
    && (forall a, b ::
          (a in ids && b in due - ids && a in rows && b in rows
           && rows[a].nextFireAt.Some? && rows[b].nextFireAt.Some?) ==>
          rows[a].nextFireAt.value <= rows[b].nextFireAt.value)
  }

  /** Successive batches, each from what the ones before it left. */
  ghost predicate AreBatches(rows: map<Id, Incident>, due: set<Id>, picks: seq<set<Id>>, batch: nat) {
    picks != [] ==> IsBatch(rows, due, picks[0], batch) && AreBatches(rows, due - picks[0], picks[1..], batch)
  }

  ghost function Claims(steps: seq<Step>): seq<set<Id>> {
    if steps == [] then []
    else (if steps[0].Claim? then [steps[0].ids] else []) + Claims(steps[1..])
  }

  /** Number of waits in a run. */
  ghost function Rounds(steps: seq<Step>): nat {
    if steps == [] then 0
    else (if steps[0].Tick? then 1 else 0) + Rounds(steps[1..])
  }

  lemma {:induction false} NoTicks(steps: seq<Step>)
    requires forall k :: 0 <= k < |steps| ==> !steps[k].Tick?
    ensures Rounds(steps) == 0
  {
    if steps != [] {
      NoTicks(steps[1..]);
    }
  }

  lemma {:induction false} NoClaims(steps: seq<Step>)
    requires forall k :: 0 <= k < |steps| ==> !steps[k].Claim?
    ensures Claims(steps) == []
  {
    if steps != [] {
      NoClaims(steps[1..]);
    }
  }

  lemma {:induction false} ClaimsCompose(a: seq<Step>, b: seq<Step>)
    ensures Claims(a + b) == Claims(a) + Claims(b) && Rounds(a + b) == Rounds(a) + Rounds(b)
  {
    if a == [] {
      assert a + b == b;
    } else {
      assert (a + b)[1..] == a[1..] + b && (a + b)[0] == a[0];
      ClaimsCompose(a[1..], b);
    }
  }

  /** A poll takes exactly its incidents out of the due ones if and only if none of them is due again at once. */
  lemma PollShrinksDueIff(env: Env, s: Sys, f: Sys, ids: set<Id>)
    requires ids <= Due(s) && AdvancedAll(env, s, f, ids)
    ensures Due(f) == Due(s) - ids <==> NoneDueAgain(env, s.db.incidents, ids, s.now)
  {
    forall i | i in s.db.incidents
      ensures i in Due(f) <==> if i in ids then Rearms(env, s.db.incidents[i], s.now, s.now) else i in Due(s)
    {
      if i in ids {
        assert Advanced(env, s.now, s.db.incidents[i], f.db.incidents[i]);
        DueAgainIff(env, s.db.incidents[i], f.db.incidents[i], s.now);
      }
    }
  }

  lemma DueAgainIff(env: Env, a: Incident, b: Incident, now: Time)
    requires Advanced(env, now, a, b)
    ensures Escalation.Claimable(b, now) <==> Rearms(env, a, now, now)
  {
  }

  ghost function Remaining(due: set<Id>, picks: seq<set<Id>>): (r: set<Id>)
    ensures r <= due
    decreases |picks|
  {
    if picks == [] then due else Remaining(due - picks[0], picks[1..])
  }

  /** Full batches leave max(0, k - n * batch) of k. */
  lemma {:induction false} RemainingCount(rows: map<Id, Incident>, due: set<Id>, picks: seq<set<Id>>, batch: nat)
    requires AreBatches(rows, due, picks, batch)
    ensures |Remaining(due, picks)| == LeftOver(|due|, |picks|, batch)
    decreases |picks|
  {
    if picks != [] {
      RemainingCount(rows, due - picks[0], picks[1..], batch);
      assert |due - picks[0]| == |due| - |picks[0]|;
    }
  }

  /** n healthy polls at one moment advance n full batches of the overdue incidents by exactly one tier
      each and leave every other row alone. */
  lemma {:induction false} Drain(env: Env, s: Sys, w: Id, lease: nat, batch: nat, picks: seq<set<Id>>)
      returns (steps: seq<Step>, f: Sys)
    requires Sound(s) && NoneDueAgain(env, s.db.incidents, Due(s), s.now)
    requires AreBatches(s.db.incidents, Due(s), picks, batch)
    ensures Leads(env, s, steps, f) && Sound(f) && Claims(steps) == picks && Rounds(steps) == 0
    ensures Due(f) == Remaining(Due(s), picks) && AdvancedAll(env, s, f, Due(s) - Due(f))
    decreases |picks|
  {
    if picks == [] {
      steps, f := [], s;
    } else {
      var first, m := PollBatch(env, s, w, lease, batch, picks);
      var others := picks[1..];
      var rest;
      rest, f := Drain(env, m, w, lease, batch, others);
      LeadsOn(env, s, first, m, rest, f);
      DrainGoesOn(env, s, m, f, picks[0]);
      steps := first + rest;
      PollThenDrain(first, rest, w, picks);
    }
  }

  lemma DrainGoesOn(env: Env, s: Sys, m: Sys, f: Sys, pick: set<Id>)
    requires AdvancedAll(env, s, m, pick) && pick <= Due(s) && Due(m) == Due(s) - pick
    requires Due(f) <= Due(m) && AdvancedAll(env, m, f, Due(m) - Due(f))
    ensures AdvancedAll(env, s, f, Due(s) - Due(f))
  {
    AdvancedTwice(env, s, m, f, pick, Due(m) - Due(f));
    assert pick + (Due(m) - Due(f)) == Due(s) - Due(f);
  }

  lemma PollBatch(env: Env, s: Sys, w: Id, lease: nat, batch: nat, picks: seq<set<Id>>)
      returns (steps: seq<Step>, m: Sys)
    requires Sound(s) && NoneDueAgain(env, s.db.incidents, Due(s), s.now) && picks != []
    requires AreBatches(s.db.incidents, Due(s), picks, batch)
    ensures Leads(env, s, steps, m) && Sound(m) && AdvancedAll(env, s, m, picks[0])
    ensures |steps| >= 1 && steps[0] == Claim(w, picks[0], lease) && AllFire(steps[1..], w)
    ensures picks[0] <= Due(s) && Due(m) == Due(s) - picks[0] && |Due(m)| == |Due(s)| - |picks[0]|
    ensures |picks[0]| == if |Due(s)| <= batch then |Due(s)| else batch
    ensures AreBatches(m.db.incidents, Due(m), picks[1..], batch)
  {
    steps, m := Poll(env, s, w, picks[0], lease);
    PollShrinksDueIff(env, s, m, picks[0]);
    SameBatches(s.db.incidents, m.db.incidents, Due(m), picks[1..], batch);
  }

  lemma PollThenDrain(first: seq<Step>, rest: seq<Step>, w: Id, picks: seq<set<Id>>)
    requires |first| >= 1 && first[0].Claim? && picks != [] && first[0].ids == picks[0]
    requires AllFire(first[1..], w)
    requires Claims(rest) == picks[1..] && Rounds(rest) == 0
    ensures Claims(first + rest) == picks && Rounds(first + rest) == 0
  {
    ClaimsCompose(first, rest);
    NoClaims(first[1..]);
    NoTicks(first[1..]);
    assert Claims(first) == [picks[0]];
  }

  /** What n batches leave of k. */
  function LeftOver(k: nat, n: nat, batch: nat): nat {
    if n == 0 then k else LeftOver(if k <= batch then 0 else k - batch, n - 1, batch)
  }

  lemma {:induction false} LeftOverClosedForm(k: nat, n: nat, batch: nat)
    ensures LeftOver(k, n, batch) == if n * batch >= k then 0 else k - n * batch
    decreases n
  {
    if n > 0 {
      LeftOverClosedForm(if k <= batch then 0 else k - batch, n - 1, batch);
      assert n * batch == batch + (n - 1) * batch;
      assert (n - 1) * batch >= 0;
    }
  }

  lemma {:induction false} SameBatches(rows: map<Id, Incident>, rows': map<Id, Incident>, due: set<Id>,
                                       picks: seq<set<Id>>, batch: nat)
    requires AreBatches(rows, due, picks, batch)
    requires forall i :: i in due ==> i in rows && i in rows' && rows'[i] == rows[i]
    ensures AreBatches(rows', due, picks, batch)
    decreases |picks|
  {
    if picks != [] {
      SameBatches(rows, rows', due - picks[0], picks[1..], batch);
    }
  }

  /** k overdue incidents are all advanced by n polls if and only if n >= ceil(k / batch). */
  lemma EmptiedIff(rows: map<Id, Incident>, due: set<Id>, picks: seq<set<Id>>, batch: nat)
    requires batch >= 1 && AreBatches(rows, due, picks, batch)
    ensures Remaining(due, picks) == {} <==> |picks| >= PollsFor(|due|, batch)
  {
    RemainingCount(rows, due, picks, batch);
    LeftOverClosedForm(|due|, |picks|, batch);
    CeilingIff(|due|, batch, |picks|);
  }

  // ----- batches exist -----

  lemma {:induction false} Earliest(rows: map<Id, Incident>, due: set<Id>) returns (a: Id)
    requires due != {} && (forall i :: i in due ==> i in rows && rows[i].nextFireAt.Some?)
    ensures a in due && forall b :: b in due ==> rows[a].nextFireAt.value <= rows[b].nextFireAt.value
    decreases |due|
  {
    a :| a in due;
    if due != {a} {
      var b := Earliest(rows, due - {a});
      if rows[b].nextFireAt.value < rows[a].nextFireAt.value {
        a := b;
      }
      assert forall c :: c in due ==> c in due - {a} || c in due;
    }
  }

  lemma {:induction false} BatchExists(rows: map<Id, Incident>, due: set<Id>, batch: nat) returns (ids: set<Id>)
    requires forall i :: i in due ==> i in rows && rows[i].nextFireAt.Some?
    ensures IsBatch(rows, due, ids, batch)
  {
    if batch == 0 || due == {} {
      ids := {};
    } else {
      var a := Earliest(rows, due);
      var more := BatchExists(rows, due - {a}, batch - 1);
      assert |due - {a}| == |due| - 1;
      ids := more + {a};
      assert due - ids == due - {a} - more;
    }
  }

  lemma {:induction false} BatchesExist(rows: map<Id, Incident>, due: set<Id>, batch: nat, n: nat)
      returns (picks: seq<set<Id>>)
    requires forall i :: i in due ==> i in rows && rows[i].nextFireAt.Some?
    ensures |picks| == n && AreBatches(rows, due, picks, batch)
    decreases n
  {
    if n == 0 {
      picks := [];
    } else {
      var ids := BatchExists(rows, due, batch);
      var rest := BatchesExist(rows, due - ids, batch, n - 1);
      picks := [ids] + rest;
      assert picks[1..] == rest;
    }
  }

  // ----- recovery -----

  /** When the clock has passed both the timer and the claim. */
  function WaitFor(inc: Incident, now: Time): nat
    requires inc.nextFireAt.Some?
  {
    var free := if inc.claimedUntil.Some? && inc.claimedUntil.value >= now then inc.claimedUntil.value + 1 else now;
    var target := if inc.nextFireAt.value > free then inc.nextFireAt.value else free;
    target - now
  }

  /** If none of the incidents due then is due again at once, ceil(k / batch) polls after the wait are enough. */
  lemma RecoversInOrder(env: Env, s: Sys, i: Id, w: Id, lease: nat, batch: nat) returns (steps: seq<Step>, f: Sys)
    requires Sound(s) && batch >= 1
    requires i in s.db.incidents && Active(s.db.incidents[i].status) && s.db.incidents[i].nextFireAt.Some?
    requires var waited := AfterWait(s, i); NoneDueAgain(env, waited.db.incidents, Due(waited), waited.now)
    ensures Leads(env, s, steps, f) && Sound(f) && i in f.db.incidents
    ensures |steps| >= 1 && steps[0] == Tick(WaitFor(s.db.incidents[i], s.now)) && Rounds(steps) == 1
    ensures |Claims(steps)| == PollsFor(|Due(AfterWait(s, i))|, batch)
    ensures f.now == AfterWait(s, i).now && Advanced(env, f.now, s.db.incidents[i], f.db.incidents[i])
  {
    var wait, m := WaitFor(s.db.incidents[i], s.now), AfterWait(s, i);
    var polls;
    polls, f := RecoversNow(env, m, i, w, lease, batch);
    WaitThenPoll(env, s, wait, polls, f);
    steps := [Tick(wait)] + polls;
  }

  ghost function AfterWait(s: Sys, i: Id): Sys
    requires i in s.db.incidents && s.db.incidents[i].nextFireAt.Some?
  {
    s.(now := s.now + WaitFor(s.db.incidents[i], s.now))
  }

  lemma RecoversNow(env: Env, m: Sys, i: Id, w: Id, lease: nat, batch: nat) returns (polls: seq<Step>, f: Sys)
    requires Sound(m) && batch >= 1 && i in Due(m) && NoneDueAgain(env, m.db.incidents, Due(m), m.now)
    ensures Leads(env, m, polls, f) && Sound(f) && f.now == m.now && i in f.db.incidents
    ensures Rounds(polls) == 0 && |Claims(polls)| == PollsFor(|Due(m)|, batch)
    ensures Advanced(env, f.now, m.db.incidents[i], f.db.incidents[i])
  {
    polls, f := DrainAll(env, m, w, lease, batch);
    OneOfAll(env, m, f, i);
  }

  lemma OneOfAll(env: Env, s: Sys, f: Sys, i: Id)
    requires i in Due(s) && AdvancedAll(env, s, f, Due(s))
    ensures i in f.db.incidents && Advanced(env, f.now, s.db.incidents[i], f.db.incidents[i])
  {
  }

  lemma WaitThenPoll(env: Env, s: Sys, wait: nat, polls: seq<Step>, f: Sys)
    requires Leads(env, s.(now := s.now + wait), polls, f)
    ensures var steps := [Tick(wait)] + polls;
            && Leads(env, s, steps, f)
            && steps[0] == Tick(wait) && Rounds(steps) == 1 + Rounds(polls) && Claims(steps) == Claims(polls)
  {
    LeadsOne(env, s, Tick(wait));
    LeadsOn(env, s, [Tick(wait)], s.(now := s.now + wait), polls, f);
    assert ([Tick(wait)] + polls)[1..] == polls;
  }

  /** ceil(k / batch) healthy polls advance all k overdue incidents. */
  lemma DrainAll(env: Env, s: Sys, w: Id, lease: nat, batch: nat) returns (steps: seq<Step>, f: Sys)
    requires Sound(s) && NoneDueAgain(env, s.db.incidents, Due(s), s.now) && batch >= 1
    ensures Leads(env, s, steps, f) && Sound(f) && AdvancedAll(env, s, f, Due(s))
    ensures Rounds(steps) == 0 && |Claims(steps)| == PollsFor(|Due(s)|, batch)
  {
    var n := PollsFor(|Due(s)|, batch);
    var picks := BatchesExist(s.db.incidents, Due(s), batch, n);
    steps, f := Drain(env, s, w, lease, batch, picks);
    EmptiedIff(s.db.incidents, Due(s), picks, batch);
    assert Due(s) - Due(f) == Due(s);
  }

  // ----- the one way to get stuck -----

  lemma StepOnUnarmed(env: Env, s: Sys, st: Step, i: Id)
    requires Sound(s) && Enabled(s, st) && i in s.db.incidents && s.db.incidents[i].nextFireAt.None?
    ensures var inc := Apply(env, s, st).db.incidents;
            i in inc && inc[i].nextFireAt.None? && inc[i].currentTier == s.db.incidents[i].currentTier
  {
    if st.Fire? {
      Guarantees.FireIsExact(env, s, st.w, st.i, st.outboxId);
    }
  }

  lemma {:induction false} UnarmedNeverFires(env: Env, s: Sys, steps: seq<Step>, i: Id)
    requires Inv(s) && Feasible(env, s, steps) && i in s.db.incidents && s.db.incidents[i].nextFireAt.None?
    ensures var inc := Run(env, s, steps).db.incidents;
            i in inc && inc[i].nextFireAt.None? && inc[i].currentTier == s.db.incidents[i].currentTier
    decreases |steps|
  {
    if steps != [] {
      var front := steps[..|steps| - 1];
      UnarmedNeverFires(env, s, front, i);
      RunKeepsInv(env, s, front);
      EscalationPart(Run(env, s, front));
      StepOnUnarmed(env, Run(env, s, front), steps[|steps| - 1], i);
    }
  }

  /** A fire leaves an open incident unarmed exactly when the configuration of the tier it reached is missing. */
  lemma FireArmsIffConfigured(env: Env, s: Sys, w: Id, i: Id, o: Id)
    requires Sound(s) && Enabled(s, Fire(w, i, o)) && Escalation.PassesRecheck(s.db.incidents[i])
    ensures var m := Apply(env, s, Fire(w, i, o)).db.incidents[i];
            (Active(m.status) && m.nextFireAt.None?)
            <==> m.currentTier <= 2 && env.config(m.facts, m.currentTier, s.now).None?
  {
    FireOne(env, s, w, i, o);
    assert Escalation.RowOk(s.db.incidents[i]);
  }
}
