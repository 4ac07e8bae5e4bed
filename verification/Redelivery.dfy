/** What relays achieve: every page ends SENT or DEAD, whatever crashed before and whatever its providers answer. */
module Redelivery {
  import opened Model
  import opened Protocol
  import opened Effects
  import opened Batching
  import opened Recovery
  import Attempts
  import Guarantees
  import Relay

  /** The page's time has come, or the relay that was sending it has let its lease run out. */
  predicate DueToSend(row: OutboxRow, now: Time) {
    || (row.status == Pending && row.nextAttemptAt <= now)
    || (row.status == Sending && row.claimedUntil.Some? && row.claimedUntil.value < now)
  }

  predicate Ended(row: OutboxRow) {
    row.status == Sent || row.status == Dead
  }

  /** The attempts a page has left; one in sending has at least the one that takes it over. */
  function Left(row: OutboxRow): nat {
    if Ended(row) then 0 else if row.attempts < row.maxAttempts then row.maxAttempts - row.attempts else 1
  }

  /** What every reachable outbox satisfies. */
  ghost predicate RowsHold(outbox: map<Id, OutboxRow>) {
    forall o :: o in outbox ==>
      && (outbox[o].status == Pending ==> outbox[o].attempts < outbox[o].maxAttempts)
      && (outbox[o].status == Sending ==> outbox[o].claimedUntil.Some?)
  }

  lemma RelayRowsHold(s: Sys)
    requires Relay.RelayOk(s.db, s.parcels, s.accepted)
    ensures RowsHold(s.db.outbox)
  {
  }

  lemma ReachableRowsHold(env: Env, s: Sys, steps: seq<Step>)
    requires Init(s) && Feasible(env, s, steps)
    ensures RowsHold(Run(env, s, steps).db.outbox)
  {
    RelayHolds(env, s, steps);
    RelayRowsHold(Run(env, s, steps));
  }

  /** An attempt at a page that has not ended uses up one of those it has left, and the last one ends it. */
  lemma AttemptCounts(row: OutboxRow, r: Relay.ProviderResult, at: Time, base: nat)
    requires !Ended(row)
    ensures Left(Tried(row, r, at, base)) + 1 <= Left(row)
    ensures !r.status.SentOk? ==> Left(Tried(row, r, at, base)) + 1 == Left(row)
    ensures Ended(Tried(row, r, at, base)) <==> r.status.SentOk? || Left(row) == 1
  {
  }

  // ----- one page: wait, claim, send, settle -----

  function WaitToSend(row: OutboxRow, now: Time): nat {
    if row.status == Pending then (if row.nextAttemptAt > now then row.nextAttemptAt - now else 0)
    else if row.claimedUntil.Some? && row.claimedUntil.value >= now then row.claimedUntil.value + 1 - now
    else 0
  }

  /** Waits until the page is due and makes one attempt at it. */
  function OnePass(row: OutboxRow, now: Time, o: Id, w: Id, lease: nat, r: Relay.ProviderResult): seq<Step> {
    [Tick(WaitToSend(row, now)), ClaimOutbox(w, {o}, lease), Send(w, o, [r], r, false), SettleParcel(w, o)]
  }

  lemma OnePassLeads(env: Env, s: Sys, o: Id, w: Id, lease: nat, r: Relay.ProviderResult) returns (f: Sys)
    requires RowsHold(s.db.outbox) && o in s.db.outbox && !Ended(s.db.outbox[o])
    ensures var row := s.db.outbox[o];
            && Leads(env, s, OnePass(row, s.now, o, w, lease, r), f)
            && f.now == s.now + WaitToSend(row, s.now)
            && f.db.outbox == s.db.outbox[o := Tried(row, r, f.now, env.backoffBase)]
  {
    var wait := WaitToSend(s.db.outbox[o], s.now);
    var rest := [ClaimOutbox(w, {o}, lease)] + [Send(w, o, [r], r, false), SettleParcel(w, o)];
    assert [Tick(wait)] + rest == OnePass(s.db.outbox[o], s.now, o, w, lease, r);
    f := PassNow(env, s.(now := s.now + wait), o, w, lease, r);
    LeadsFirst(env, s, Tick(wait), s.(now := s.now + wait), rest, f);
  }

  lemma PassNow(env: Env, s: Sys, o: Id, w: Id, lease: nat, r: Relay.ProviderResult) returns (f: Sys)
    requires o in s.db.outbox && DueToSend(s.db.outbox[o], s.now)
    ensures Leads(env, s, [ClaimOutbox(w, {o}, lease)] + [Send(w, o, [r], r, false), SettleParcel(w, o)], f)
    ensures f.now == s.now
    ensures f.db.outbox == s.db.outbox[o := Tried(s.db.outbox[o], r, f.now, env.backoffBase)]
  {
    var m := ClaimsOne(env, s, o, w, lease);
    f := SendsAndSettles(env, m, s.db.outbox[o], o, w, r);
    LeadsFirst(env, s, ClaimOutbox(w, {o}, lease), m, [Send(w, o, [r], r, false), SettleParcel(w, o)], f);
  }

  lemma LeadsFirst(env: Env, s: Sys, st: Step, m: Sys, rest: seq<Step>, f: Sys)
    requires Enabled(s, st) && m == Apply(env, s, st) && Leads(env, m, rest, f)
    ensures Leads(env, s, [st] + rest, f)
  {
    LeadsOne(env, s, st);
    LeadsOn(env, s, [st], m, rest, f);
  }

  lemma ClaimsOne(env: Env, s: Sys, o: Id, w: Id, lease: nat) returns (f: Sys)
    requires o in s.db.outbox && DueToSend(s.db.outbox[o], s.now)
    ensures Enabled(s, ClaimOutbox(w, {o}, lease)) && f == Apply(env, s, ClaimOutbox(w, {o}, lease))
    ensures var row := s.db.outbox[o];
            && f.now == s.now && (w, o) in f.parcels && f.parcels[(w, o)].outcome == None
            && f.db.outbox == s.db.outbox[o := row.(status := Sending, attempts := row.attempts + 1,
                                                    claimedBy := Some(w), claimedUntil := Some(s.now + lease))]
  {
    RelayClaims(env, s, w, {o}, lease);
    Guarantees.RelayClaimEffect(env, s, w, o, lease);
    f := Apply(env, s, ClaimOutbox(w, {o}, lease));
  }

  lemma SendsAndSettles(env: Env, s: Sys, row: OutboxRow, o: Id, w: Id, r: Relay.ProviderResult) returns (f: Sys)
    requires o in s.db.outbox && (w, o) in s.parcels && s.parcels[(w, o)].outcome == None
    requires var claimed := s.db.outbox[o];
             claimed == row.(status := Sending, attempts := row.attempts + 1, claimedBy := claimed.claimedBy,
                             claimedUntil := claimed.claimedUntil)
    ensures Leads(env, s, [Send(w, o, [r], r, false), SettleParcel(w, o)], f)
    ensures f.now == s.now && f.db.outbox == s.db.outbox[o := Tried(row, r, s.now, env.backoffBase)]
  {
    var m := Guarantees.AfterSend(env, s, w, o, r);
    f := SettlesAs(env, m, row, o, w, r, s.now);
    LeadsOne(env, m, SettleParcel(w, o));
    LeadsFirst(env, s, Send(w, o, [r], r, false), m, [SettleParcel(w, o)], f);
    assert [Send(w, o, [r], r, false)] + [SettleParcel(w, o)] == [Send(w, o, [r], r, false), SettleParcel(w, o)];
  }

  lemma SettlesAs(env: Env, s: Sys, row: OutboxRow, o: Id, w: Id, r: Relay.ProviderResult, at: Time) returns (f: Sys)
    requires o in s.db.outbox && (w, o) in s.parcels && s.parcels[(w, o)].outcome == Some((r, at))
    requires var claimed := s.db.outbox[o];
             claimed == row.(status := Sending, attempts := row.attempts + 1, claimedBy := claimed.claimedBy,
                             claimedUntil := claimed.claimedUntil)
    ensures Enabled(s, SettleParcel(w, o)) && f == Apply(env, s, SettleParcel(w, o))
    ensures f.now == s.now && f.db.outbox == s.db.outbox[o := Tried(row, r, at, env.backoffBase)]
  {
    f := Apply(env, s, SettleParcel(w, o));
    SettledIsTried(row, s.db.outbox[o], r, at, env.backoffBase);
  }

  // ----- one page to its end -----

  /** The answers a page gets: none accepts but perhaps the last, and if that does not either there are as many as
      the page has attempts left. */
  predicate Script(row: OutboxRow, answers: seq<Relay.ProviderResult>) {
    && 1 <= |answers| <= Left(row)
    && (forall j :: 0 <= j < |answers| - 1 ==> !answers[j].status.SentOk?)
    && (answers[|answers| - 1].status.SentOk? || |answers| == Left(row))
  }

  /** The page has ended as its script says. */
  predicate EndedBy(row: OutboxRow, row': OutboxRow, answers: seq<Relay.ProviderResult>) {
    answers != [] &&
    var last := answers[|answers| - 1];
    && row'.status == (if last.status.SentOk? then Sent else Dead)
    && row'.attempts == row.attempts + |answers|
    && (last.status.SentOk? ==> row'.providerSid == last.sid && row'.sentAt.Some?)
    && row'.incident == row.incident && row'.phone == row.phone && row'.template == row.template
  }

  lemma {:induction false} EndOne(env: Env, s: Sys, o: Id, w: Id, lease: nat, answers: seq<Relay.ProviderResult>)
      returns (steps: seq<Step>, f: Sys)
    requires RowsHold(s.db.outbox) && o in s.db.outbox && Script(s.db.outbox[o], answers)
    ensures Leads(env, s, steps, f) && RowsHold(f.db.outbox) && |steps| == 4 * |answers|
    ensures o in f.db.outbox && f.db.outbox == s.db.outbox[o := f.db.outbox[o]]
    ensures EndedBy(s.db.outbox[o], f.db.outbox[o], answers)
    decreases |answers|
  {
    var row, r := s.db.outbox[o], answers[0];
    var m := OnePassLeads(env, s, o, w, lease, r);
    steps, f := OnePass(row, s.now, o, w, lease, r), m;
    AttemptCounts(row, r, m.now, env.backoffBase);
    if |answers| > 1 {
      var rest;
      rest, f := EndOne(env, m, o, w, lease, answers[1..]);
      LeadsOn(env, s, steps, m, rest, f);
      steps := steps + rest;
      EndsLater(row, m.db.outbox[o], f.db.outbox[o], r, m.now, env.backoffBase, answers);
    }
  }

  lemma EndsLater(row: OutboxRow, next: OutboxRow, last: OutboxRow, r: Relay.ProviderResult, at: Time, base: nat,
                  answers: seq<Relay.ProviderResult>)
    requires |answers| > 1 && next == Tried(row, r, at, base) && EndedBy(next, last, answers[1..])
    ensures EndedBy(row, last, answers)
  {
  }

  /** After every run, whatever leases dead relays have left behind: with waits for the page's time or its lease, as
      many passes as it takes end it.  It is SENT at the first pass whose providers accept it, and DEAD if none does
      in all the attempts it has left; no other page changes. */
  lemma Redelivers(env: Env, start: Sys, past: seq<Step>, o: Id, w: Id, lease: nat, answers: seq<Relay.ProviderResult>)
      returns (steps: seq<Step>, f: Sys)
    requires Init(start) && Feasible(env, start, past) && o in Run(env, start, past).db.outbox
    requires var row := Run(env, start, past).db.outbox[o];
             && (row.status == Pending || row.status == Sending)
             && 1 <= |answers| && row.attempts + |answers| <= (if row.attempts < 6 then 6 else row.attempts + 1)
             && (forall j :: 0 <= j < |answers| - 1 ==> !answers[j].status.SentOk?)
             && (answers[|answers| - 1].status.SentOk? || row.attempts + |answers| >= 6)
    ensures var s := Run(env, start, past);
            && Leads(env, s, steps, f) && |steps| == 4 * |answers|
            && o in f.db.outbox && f.db.outbox == s.db.outbox[o := f.db.outbox[o]]
            && f.db.outbox[o].attempts == s.db.outbox[o].attempts + |answers|
            && f.db.outbox[o].status == (if answers[|answers| - 1].status.SentOk? then Sent else Dead)
  {
    ReachableRowsHold(env, start, past);
    SixAttempts(env, start, past, o);
    steps, f := EndOne(env, Run(env, start, past), o, w, lease, answers);
  }

  lemma SixAttempts(env: Env, s: Sys, steps: seq<Step>, o: Id)
    requires Init(s) && Feasible(env, s, steps) && o in Run(env, s, steps).db.outbox
    ensures Run(env, s, steps).db.outbox[o].maxAttempts == 6
  {
    Attempts.AttemptsAreClaims(env, s, steps, o);
  }

  // ----- every page to its end -----

  ghost function Open(outbox: map<Id, OutboxRow>): set<Id> {
    set o | o in outbox && !Ended(outbox[o])
  }

  ghost predicate ScriptsFit(outbox: map<Id, OutboxRow>, todo: set<Id>, answers: map<Id, seq<Relay.ProviderResult>>) {
    forall o :: o in todo ==> o in outbox && o in answers && Script(outbox[o], answers[o])
  }

  ghost predicate AllEndedBy(first: map<Id, OutboxRow>, last: map<Id, OutboxRow>, todo: set<Id>,
                             answers: map<Id, seq<Relay.ProviderResult>>) {
    && first.Keys == last.Keys
    && forall o :: o in first ==>
         if o in todo then o in answers && EndedBy(first[o], last[o], answers[o]) else last[o] == first[o]
  }

  lemma {:induction false} EndAll(env: Env, s: Sys, todo: set<Id>, w: Id, lease: nat,
                                  answers: map<Id, seq<Relay.ProviderResult>>)
      returns (steps: seq<Step>, f: Sys)
    requires RowsHold(s.db.outbox) && ScriptsFit(s.db.outbox, todo, answers)
    ensures Leads(env, s, steps, f) && AllEndedBy(s.db.outbox, f.db.outbox, todo, answers)
    decreases |todo|
  {
    if todo == {} {
      steps, f := [], s;
    } else {
      var o :| o in todo;
      var m, rest;
      steps, m := EndOne(env, s, o, w, lease, answers[o]);
      rest, f := EndAll(env, m, todo - {o}, w, lease, answers);
      LeadsOn(env, s, steps, m, rest, f);
      steps := steps + rest;
      EndsBoth(s.db.outbox, m.db.outbox, f.db.outbox, o, todo, answers);
    }
  }

  lemma EndsBoth(first: map<Id, OutboxRow>, second: map<Id, OutboxRow>, last: map<Id, OutboxRow>, o: Id, todo: set<Id>,
                 answers: map<Id, seq<Relay.ProviderResult>>)
    requires todo <= first.Keys && o in todo && o in second && o in answers
    requires second == first[o := second[o]] && EndedBy(first[o], second[o], answers[o])
    requires AllEndedBy(second, last, todo - {o}, answers)
    ensures AllEndedBy(first, last, todo, answers)
  {
  }

  /** From every reachable state some run ends every page, each as its providers answer. */
  lemma EveryPageEnds(env: Env, start: Sys, past: seq<Step>, w: Id, lease: nat,
                      answers: map<Id, seq<Relay.ProviderResult>>)
      returns (steps: seq<Step>, f: Sys)
    requires Init(start) && Feasible(env, start, past)
    requires var outbox := Run(env, start, past).db.outbox;
             ScriptsFit(outbox, Open(outbox), answers)
    ensures var outbox := Run(env, start, past).db.outbox;
            && Leads(env, Run(env, start, past), steps, f)
            && (forall o :: o in f.db.outbox ==> f.db.outbox[o].status == Sent || f.db.outbox[o].status == Dead)
            && AllEndedBy(outbox, f.db.outbox, Open(outbox), answers)
  {
    ReachableRowsHold(env, start, past);
    steps, f := EndAll(env, Run(env, start, past), Open(Run(env, start, past).db.outbox), w, lease, answers);
  }

  // ----- a pass over many pages, in any order and taking its time -----

  /** The relay claims pages, then sends and settles them in any order, while time passes. */
  ghost predicate Pass(steps: seq<Step>, w: Id, ids: set<Id>) {
    && |steps| >= 1 && steps[0].ClaimOutbox? && steps[0].w == w && steps[0].ids == ids
    && forall k :: 1 <= k < |steps| ==>
         steps[k].Tick? || ((steps[k].Send? || steps[k].SettleParcel?) && steps[k].w == w && steps[k].o in ids)
  }

  /** The last answer for page o, and when it came. */
  ghost function AnswerTo(env: Env, s: Sys, steps: seq<Step>, o: Id): Option<(Relay.ProviderResult, Time)>
    requires Feasible(env, s, steps)
    decreases |steps|
  {
    if steps == [] then None
    else
      var front, st := steps[..|steps| - 1], steps[|steps| - 1];
      if st.Send? && st.o == o then Some((st.result, Run(env, s, front).now)) else AnswerTo(env, s, front, o)
  }

  /** Where a claimed page stands: still in the relay's hands, with the answer that has come, or settled by it. */
  ghost predicate InHand(base: nat, row: OutboxRow, t: Sys, w: Id, o: Id, answer: Option<(Relay.ProviderResult, Time)>)
  {
    o in t.db.outbox &&
    if (w, o) in t.parcels then
      t.parcels[(w, o)].outcome == answer && InSending(row, t.db.outbox[o])
    else
      answer.Some? && t.db.outbox[o] == Tried(row, answer.value.0, answer.value.1, base)
  }

  predicate InSending(row: OutboxRow, claimed: OutboxRow) {
    claimed == row.(status := Sending, attempts := row.attempts + 1, claimedBy := claimed.claimedBy,
                    claimedUntil := claimed.claimedUntil)
  }

  lemma ClaimTakesInHand(env: Env, s: Sys, st: Step, o: Id)
    requires Enabled(s, st) && st.ClaimOutbox? && o in st.ids
    ensures o in s.db.outbox && DueToSend(s.db.outbox[o], s.now)
    ensures InHand(env.backoffBase, s.db.outbox[o], Apply(env, s, st), st.w, o, None)
  {
    assert Relay.Claimable(s.db.outbox[o], s.now);
    assert (st.w, o) in Relay.NewParcels(s.db.outbox, st.w, st.ids, s.now + st.lease);
  }

  lemma WorkGoesOn(env: Env, t: Sys, st: Step, row: OutboxRow, w: Id, o: Id,
                   answer: Option<(Relay.ProviderResult, Time)>)
    requires Enabled(t, st) && (st.Tick? || ((st.Send? || st.SettleParcel?) && st.w == w))
    requires InHand(env.backoffBase, row, t, w, o, answer)
    ensures InHand(env.backoffBase, row, Apply(env, t, st), w, o,
                   if st.Send? && st.o == o then Some((st.result, t.now)) else answer)
  {
    if st.SettleParcel? && st.o == o {
      SettledIsTried(row, t.db.outbox[o], answer.value.0, answer.value.1, env.backoffBase);
    }
  }

  lemma {:induction false} WorkOnOne(env: Env, s: Sys, steps: seq<Step>, w: Id, ids: set<Id>, o: Id)
    requires Feasible(env, s, steps) && Pass(steps, w, ids) && o in ids
    ensures o in s.db.outbox && DueToSend(s.db.outbox[o], s.now)
    ensures InHand(env.backoffBase, s.db.outbox[o], Run(env, s, steps), w, o, AnswerTo(env, s, steps, o))
    decreases |steps|
  {
    var front, st := steps[..|steps| - 1], steps[|steps| - 1];
    if front == [] {
      ClaimTakesInHand(env, s, st, o);
    } else {
      WorkOnOne(env, s, front, w, ids, o);
      WorkGoesOn(env, Run(env, s, front), st, s.db.outbox[o], w, o, AnswerTo(env, s, front, o));
    }
  }

  lemma {:induction false} WorkLeavesOthers(env: Env, s: Sys, steps: seq<Step>, w: Id, ids: set<Id>)
    requires Feasible(env, s, steps) && Pass(steps, w, ids)
    ensures Run(env, s, steps).db.outbox.Keys == s.db.outbox.Keys
    ensures forall o :: o in s.db.outbox && o !in ids ==> Run(env, s, steps).db.outbox[o] == s.db.outbox[o]
    decreases |steps|
  {
    var front, st := steps[..|steps| - 1], steps[|steps| - 1];
    if front != [] {
      WorkLeavesOthers(env, s, front, w, ids);
    }
    OthersStay(env, Run(env, s, front), st, ids);
  }

  lemma OthersStay(env: Env, t: Sys, st: Step, ids: set<Id>)
    requires Enabled(t, st)
    requires st.Tick? || (st.ClaimOutbox? && st.ids == ids) || ((st.Send? || st.SettleParcel?) && st.o in ids)
    ensures Apply(env, t, st).db.outbox.Keys == t.db.outbox.Keys
    ensures forall o :: o in t.db.outbox && o !in ids ==> Apply(env, t, st).db.outbox[o] == t.db.outbox[o]
  {
    PageKeysStay(env, t, st);
    forall o | o in t.db.outbox && o !in ids ensures Apply(env, t, st).db.outbox[o] == t.db.outbox[o] {
      Guarantees.StepKeepsOutboxRow(env, t, st, o);
    }
  }

  /** The pass is over: no claimed page is left in hand. */
  ghost predicate Over(t: Sys, w: Id, ids: set<Id>) {
    forall o :: o in ids ==> (w, o) !in t.parcels
  }

  /** After every run and for every pass, whatever its order, however long it takes and whatever the providers answer:
      it takes only pages that are due, makes one attempt at each, counts it, and by the answer leaves the page SENT,
      DEAD if it was its last attempt, or waiting for min(base * 2^attempts, one hour); no other page changes. */
  lemma PassInColumns(env: Env, s: Sys, steps: seq<Step>, w: Id, ids: set<Id>, o: Id)
    requires Feasible(env, s, steps) && Pass(steps, w, ids) && Over(Run(env, s, steps), w, ids)
    requires o in Run(env, s, steps).db.outbox
    ensures o in s.db.outbox
    ensures var row, row' := s.db.outbox[o], Run(env, s, steps).db.outbox[o];
            if o !in ids then row' == row
            else
              && DueToSend(row, s.now) && AnswerTo(env, s, steps, o).Some?
              && var (answer, at) := AnswerTo(env, s, steps, o).value;
                 && row'.attempts == row.attempts + 1 && row'.claimedBy == None && row'.claimedUntil == None
                 && (row'.status == Sent <==> answer.status.SentOk?)
                 && (row'.status == Sent ==> row'.sentAt == Some(at) && row'.providerSid == answer.sid)
                 && (row'.status == Dead <==> !answer.status.SentOk? && row.attempts + 1 >= row.maxAttempts)
                 && (row'.status == Pending <==> !answer.status.SentOk? && row.attempts + 1 < row.maxAttempts)
                 && var wait := env.backoffBase * Relay.Pow2(row.attempts);
                    (row'.status == Pending ==>
                       row'.nextAttemptAt == at + 1_000_000 * (if wait < 3600 then wait else 3600))
  {
    WorkLeavesOthers(env, s, steps, w, ids);
    if o in ids {
      WorkOnOne(env, s, steps, w, ids, o);
    }
  }

  // ----- any sequence of passes -----

  /** When a pass claims, what it claims, and the answers it gets. */
  datatype PassRecord = PassRecord(at: Time, ids: set<Id>, answers: map<Id, (Relay.ProviderResult, Time)>)

  ghost function DuePages(outbox: map<Id, OutboxRow>, now: Time): set<Id> {
    set o | o in outbox && DueToSend(outbox[o], now)
  }

  /** The pass takes as many due pages as fit and makes one attempt at each; new pages may come in until the next. */
  ghost predicate PassOk(base: nat, batch: nat, outbox: map<Id, OutboxRow>, p: PassRecord, outbox': map<Id, OutboxRow>)
  {
    && p.ids <= DuePages(outbox, p.at) && p.ids <= p.answers.Keys
    && |p.ids| == Min(batch, |DuePages(outbox, p.at)|)
    && outbox.Keys <= outbox'.Keys
    && forall o :: o in outbox ==>
         outbox'[o] == if o in p.ids then Tried(outbox[o], p.answers[o].0, p.answers[o].1, base) else outbox[o]
  }

  /** The first n passes, each from what the one before it left. */
  ghost predicate PassesOk(base: nat, batch: nat, states: seq<map<Id, OutboxRow>>, passes: seq<PassRecord>, n: nat) {
    && n <= |passes| < |states|
    && (n > 0 ==>
          && PassesOk(base, batch, states, passes, n - 1)
          && PassOk(base, batch, states[n - 1], passes[n - 1], states[n]))
  }

  /** A pass of the transition system that takes a full batch is one of these. */
  lemma RunIsPass(env: Env, s: Sys, steps: seq<Step>, w: Id, ids: set<Id>, batch: nat) returns (p: PassRecord)
    requires Feasible(env, s, steps) && Pass(steps, w, ids) && Over(Run(env, s, steps), w, ids)
    requires |ids| == Min(batch, |DuePages(s.db.outbox, s.now)|)
    ensures p.at == s.now && p.ids == ids
    ensures PassOk(env.backoffBase, batch, s.db.outbox, p, Run(env, s, steps).db.outbox)
    ensures Run(env, s, steps).db.outbox.Keys == s.db.outbox.Keys
  {
    WorkLeavesOthers(env, s, steps, w, ids);
    forall o | o in ids
      ensures o in s.db.outbox && DueToSend(s.db.outbox[o], s.now) && AnswerTo(env, s, steps, o).Some?
      ensures Run(env, s, steps).db.outbox[o]
           == Tried(s.db.outbox[o], AnswerTo(env, s, steps, o).value.0, AnswerTo(env, s, steps, o).value.1,
                    env.backoffBase)
    {
      WorkOnOne(env, s, steps, w, ids, o);
    }
    p := PassRecord(s.now, ids, map o | o in ids :: AnswerTo(env, s, steps, o).value);
  }

  // ----- they end every page -----

  function Rooms(outbox: map<Id, OutboxRow>): map<Id, nat> {
    map o | o in outbox :: Left(outbox[o])
  }

  /** The attempts left in all pages together. */
  ghost function AttemptsLeft(outbox: map<Id, OutboxRow>): nat {
    Total(Rooms(outbox), outbox.Keys)
  }

  /** The attempts left in the pages that have come in. */
  ghost function NewAttempts(outbox: map<Id, OutboxRow>, outbox': map<Id, OutboxRow>): nat {
    Total(Rooms(outbox'), outbox'.Keys - outbox.Keys)
  }

  /** A pass is paid for by the pages it takes, and a page it passes over has a full batch before it. */
  lemma PassPays(base: nat, batch: nat, outbox: map<Id, OutboxRow>, p: PassRecord, outbox': map<Id, OutboxRow>)
    requires PassOk(base, batch, outbox, p, outbox')
    ensures AttemptsLeft(outbox') + |p.ids| <= AttemptsLeft(outbox) + NewAttempts(outbox, outbox')
  {
    forall j | j in outbox ensures Rooms(outbox')[j] + (if j in p.ids then 1 else 0) <= Rooms(outbox)[j] {
      PassOnPage(base, batch, outbox, p, outbox', j);
    }
    TotalFalls(Rooms(outbox), Rooms(outbox'), outbox.Keys, p.ids);
    TotalSplits(Rooms(outbox'), outbox.Keys, outbox'.Keys - outbox.Keys);
    assert outbox'.Keys == outbox.Keys + (outbox'.Keys - outbox.Keys);
  }

  lemma PassOnPage(base: nat, batch: nat, outbox: map<Id, OutboxRow>, p: PassRecord, outbox': map<Id, OutboxRow>, o: Id)
    requires PassOk(base, batch, outbox, p, outbox') && o in outbox
    ensures o in outbox' && Left(outbox'[o]) + (if o in p.ids then 1 else 0) <= Left(outbox[o])
    ensures o in p.ids ==> DueToSend(outbox[o], p.at) && |p.ids| >= 1
    ensures DueToSend(outbox[o], p.at) && o !in p.ids ==> |p.ids| == batch
  {
    if o in p.ids {
      assert o in DuePages(outbox, p.at);
      AttemptCounts(outbox[o], p.answers[o].0, p.answers[o].1, base);
      SmallerWithout({}, p.ids, o);
    } else if DueToSend(outbox[o], p.at) {
      SmallerWithout(p.ids, DuePages(outbox, p.at), o);
    }
  }

  lemma SmallerWithout(a: set<Id>, b: set<Id>, o: Id)
    requires a <= b && o in b && o !in a
    ensures |a| < |b|
  {
    var rest := b - a;
    assert b == a + rest && o in rest;
  }

  /** Of the first n passes, the number at which page o was due, and of those that took it. */
  ghost function DueTimes(states: seq<map<Id, OutboxRow>>, passes: seq<PassRecord>, o: Id, n: nat): nat
    requires n <= |passes| < |states|
  {
    if n == 0 then 0
    else
      DueTimes(states, passes, o, n - 1)
      + (if o in states[n - 1] && DueToSend(states[n - 1][o], passes[n - 1].at) then 1 else 0)
  }

  ghost function TakenTimes(passes: seq<PassRecord>, o: Id, n: nat): nat
    requires n <= |passes|
  {
    if n == 0 then 0 else TakenTimes(passes, o, n - 1) + (if o in passes[n - 1].ids then 1 else 0)
  }

  /** A batch for each pass that passed the page over. */
  ghost function OverPages(states: seq<map<Id, OutboxRow>>, passes: seq<PassRecord>, o: Id, n: nat, batch: nat): nat
    requires n <= |passes| < |states|
  {
    if n == 0 then 0
    else
      OverPages(states, passes, o, n - 1, batch)
      + (if o in states[n - 1] && DueToSend(states[n - 1][o], passes[n - 1].at) && o !in passes[n - 1].ids then batch
         else 0)
  }

  lemma {:induction false} OverCount(base: nat, states: seq<map<Id, OutboxRow>>, passes: seq<PassRecord>, o: Id, n: nat,
                                     batch: nat)
    requires PassesOk(base, batch, states, passes, n) && o in states[0]
    ensures o in states[n] && TakenTimes(passes, o, n) <= DueTimes(states, passes, o, n)
    ensures OverPages(states, passes, o, n, batch)
         == (DueTimes(states, passes, o, n) - TakenTimes(passes, o, n)) * batch
  {
    if n > 0 {
      OverCount(base, states, passes, o, n - 1, batch);
      TakenIfDue(base, batch, states[n - 1], passes[n - 1], states[n], o);
      OneMoreOver(DueTimes(states, passes, o, n - 1), TakenTimes(passes, o, n - 1),
                  OverPages(states, passes, o, n - 1, batch), batch,
                  DueToSend(states[n - 1][o], passes[n - 1].at), o in passes[n - 1].ids);
    }
  }

  lemma TakenIfDue(base: nat, batch: nat, outbox: map<Id, OutboxRow>, p: PassRecord, outbox': map<Id, OutboxRow>, o: Id)
    requires PassOk(base, batch, outbox, p, outbox') && o in outbox
    ensures o in outbox' && (o in p.ids ==> DueToSend(outbox[o], p.at))
  {
    PassOnPage(base, batch, outbox, p, outbox', o);
  }

  lemma OneMoreOver(due: nat, taken: nat, over: nat, batch: nat, isDue: bool, isTaken: bool)
    requires taken <= due && over == (due - taken) * batch && (isTaken ==> isDue)
    ensures var due', taken' := due + (if isDue then 1 else 0), taken + (if isTaken then 1 else 0);
            taken' <= due' && over + (if isDue && !isTaken then batch else 0) == (due' - taken') * batch
  {
    assert (due + 1 - taken) * batch == (due - taken) * batch + batch;
  }

  /** All attempts there were at the start, and those of the pages that came in until the n-th state. */
  ghost function AttemptsSoFar(states: seq<map<Id, OutboxRow>>, n: nat): nat
    requires n < |states|
  {
    if n == 0 then AttemptsLeft(states[0]) else AttemptsSoFar(states, n - 1) + NewAttempts(states[n - 1], states[n])
  }

  /** What passes have cost: of the attempts left in the page those of the passes that took it, and of those of all
      pages these and a batch for each pass that passed it over. */
  ghost predicate Paid(first: map<Id, OutboxRow>, last: map<Id, OutboxRow>, o: Id, taken: nat, over: nat, all: nat) {
    && o in first && o in last
    && Left(last[o]) + taken <= Left(first[o])
    && AttemptsLeft(last) + taken + over <= all
  }

  lemma {:induction false} PassesPay(base: nat, batch: nat, states: seq<map<Id, OutboxRow>>, passes: seq<PassRecord>,
                                     o: Id, n: nat)
    requires PassesOk(base, batch, states, passes, n) && o in states[0]
    ensures Paid(states[0], states[n], o, TakenTimes(passes, o, n), OverPages(states, passes, o, n, batch),
                 AttemptsSoFar(states, n))
  {
    if n > 0 {
      PassesPay(base, batch, states, passes, o, n - 1);
      PaysOnce(base, batch, states[0], states[n - 1], passes[n - 1], states[n], o, TakenTimes(passes, o, n - 1),
               OverPages(states, passes, o, n - 1, batch), AttemptsSoFar(states, n - 1));
    }
  }

  lemma PaysOnce(base: nat, batch: nat, first: map<Id, OutboxRow>, outbox: map<Id, OutboxRow>, p: PassRecord,
                 outbox': map<Id, OutboxRow>, o: Id, taken: nat, over: nat, all: nat)
    requires Paid(first, outbox, o, taken, over, all) && PassOk(base, batch, outbox, p, outbox')
    ensures Paid(first, outbox', o, taken + (if o in p.ids then 1 else 0),
                 over + (if DueToSend(outbox[o], p.at) && o !in p.ids then batch else 0),
                 all + NewAttempts(outbox, outbox'))
  {
    PassPays(base, batch, outbox, p, outbox');
    PassOnPage(base, batch, outbox, p, outbox', o);
  }

  /** For every sequence of passes, at whatever times they come, whichever due pages they take and whatever the
      providers answer: a page that was due at l - 1 + ceil(p / batch) of them has ended, where l is the number of
      attempts it had left and p that of all pages, with those that have come in since. */
  lemma EndsAfterDuePasses(base: nat, batch: nat, states: seq<map<Id, OutboxRow>>, passes: seq<PassRecord>, o: Id,
                           n: nat)
    requires batch >= 1 && PassesOk(base, batch, states, passes, n) && o in states[0]
    requires DueTimes(states, passes, o, n) + 1 >= Left(states[0][o]) + PollsFor(AttemptsSoFar(states, n), batch)
    ensures o in states[n] && (states[n][o].status == Sent || states[n][o].status == Dead)
  {
    PassesPay(base, batch, states, passes, o, n);
    OverCount(base, states, passes, o, n, batch);
    RoomIsCounted(states[n], o);
    PaidUp(Left(states[0][o]), AttemptsSoFar(states, n), Left(states[n][o]), AttemptsLeft(states[n]), batch,
           DueTimes(states, passes, o, n), TakenTimes(passes, o, n), OverPages(states, passes, o, n, batch));
  }

  lemma PaidUp(page0: nat, all0: nat, page: nat, all: nat, batch: nat, due: nat, taken: nat, over: nat)
    requires batch >= 1 && taken <= due && over == (due - taken) * batch
    requires page + taken <= page0 && all + taken + over <= all0 && page <= all
    requires due + 1 >= page0 + PollsFor(all0, batch)
    ensures page == 0
  {
    CeilingIff(all0, batch, due - taken);
  }

  lemma RoomIsCounted(outbox: map<Id, OutboxRow>, o: Id)
    requires o in outbox
    ensures AttemptsLeft(outbox) >= Left(outbox[o])
  {
    TotalHasPart(Rooms(outbox), outbox.Keys, o);
  }

  /** After n passes a page is SENT if and only if one of those that took it was answered by an acceptance. */
  lemma {:induction false} SentIff(base: nat, batch: nat, states: seq<map<Id, OutboxRow>>, passes: seq<PassRecord>,
                                   o: Id, n: nat)
    requires PassesOk(base, batch, states, passes, n) && o in states[0] && !Ended(states[0][o])
    ensures o in states[n]
    ensures states[n][o].status == Sent
      <==> exists k :: 0 <= k < n && o in passes[k].ids && o in passes[k].answers
                       && passes[k].answers[o].0.status.SentOk?
  {
    if n > 0 {
      SentIff(base, batch, states, passes, o, n - 1);
      PassOnPage(base, batch, states[n - 1], passes[n - 1], states[n], o);
    }
  }

  /** If every page that has not ended is due at every pass, six passes and one for each batch of attempts left end
      them all. */
  lemma AllEndWhenDue(base: nat, batch: nat, states: seq<map<Id, OutboxRow>>, passes: seq<PassRecord>, o: Id, n: nat)
    requires batch >= 1 && PassesOk(base, batch, states, passes, n) && o in states[0]
    requires states[0][o].maxAttempts == 6
    requires forall k :: 0 <= k < n && o in states[k] && !Ended(states[k][o]) ==>
      DueToSend(states[k][o], passes[k].at)
    requires n >= 5 + PollsFor(AttemptsSoFar(states, n), batch)
    ensures o in states[n] && Ended(states[n][o])
  {
    PassesPay(base, batch, states, passes, o, n);
    if !Ended(states[n][o]) {
      AlwaysDue(base, batch, states, passes, o, n);
      EndsAfterDuePasses(base, batch, states, passes, o, n);
    }
  }

  lemma {:induction false} AlwaysDue(base: nat, batch: nat, states: seq<map<Id, OutboxRow>>, passes: seq<PassRecord>,
                                     o: Id, n: nat)
    requires PassesOk(base, batch, states, passes, n) && o in states[0] && o in states[n] && !Ended(states[n][o])
    requires forall k :: 0 <= k < n && o in states[k] && !Ended(states[k][o]) ==>
      DueToSend(states[k][o], passes[k].at)
    ensures DueTimes(states, passes, o, n) == n
  {
    if n > 0 {
      PassesPay(base, batch, states, passes, o, n - 1);
      PassOnPage(base, batch, states[n - 1], passes[n - 1], states[n], o);
      AlwaysDue(base, batch, states, passes, o, n - 1);
    }
  }
}
