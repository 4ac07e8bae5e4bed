/** Delivery attempts over whole runs: how many there are, and how far apart. */
module Attempts {
  import opened Model
  import opened Protocol
  import Guarantees
  import Relay

  /** The step claims outbox row o, and (second predicate) takes it from a relay whose lease ran out. */
  ghost predicate ClaimsRow(st: Step, o: Id) {
    st.ClaimOutbox? && o in st.ids
  }

  ghost predicate Reclaims(s: Sys, st: Step, o: Id) {
    ClaimsRow(st, o) && o in s.db.outbox && s.db.outbox[o].status.Sending?
    && s.db.outbox[o].claimedUntil.Some? && s.db.outbox[o].claimedUntil.value < s.now
  }

  ghost function ClaimCount(steps: seq<Step>, o: Id): nat {
    if steps == [] then 0
    else ClaimCount(steps[..|steps| - 1], o) + (if ClaimsRow(steps[|steps| - 1], o) then 1 else 0)
  }

  ghost function ReclaimCount(env: Env, s: Sys, steps: seq<Step>, o: Id): nat
    requires Feasible(env, s, steps)
    decreases |steps|
  {
    if steps == [] then 0
    else
      var front := steps[..|steps| - 1];
      ReclaimCount(env, s, front, o) + (if Reclaims(Run(env, s, front), steps[|steps| - 1], o) then 1 else 0)
  }

  // ----- accounting -----

  ghost predicate Accounted(db: Db, o: Id, claims: nat, reclaims: nat) {
    if o in db.outbox then
      && db.outbox[o].attempts == claims
      && db.outbox[o].attempts <= db.outbox[o].maxAttempts + reclaims
      && db.outbox[o].maxAttempts == MAX_ATTEMPTS
    else
      claims == 0
  }

  lemma StepKeepsAccount(env: Env, s: Sys, st: Step, o: Id, claims: nat, reclaims: nat)
    requires Relay.RelayOk(s.db, s.parcels, s.accepted) && Enabled(s, st) && Accounted(s.db, o, claims, reclaims)
    ensures Accounted(Apply(env, s, st).db, o, claims + (if ClaimsRow(st, o) then 1 else 0),
                      reclaims + (if Reclaims(s, st, o) then 1 else 0))
  {
    if ClaimsRow(st, o) {
      ClaimKeepsAccount(env, s, st, o, claims, reclaims);
    } else if st.SettleParcel? && st.o == o {
      SettleKeepsAccount(env, s, st, o, claims, reclaims);
    } else if o in s.db.outbox {
      Guarantees.StepKeepsOutboxRow(env, s, st, o);
    }
  }

  lemma ClaimKeepsAccount(env: Env, s: Sys, st: Step, o: Id, claims: nat, reclaims: nat)
    requires Relay.RelayOk(s.db, s.parcels, s.accepted) && Enabled(s, st) && Accounted(s.db, o, claims, reclaims)
    requires ClaimsRow(st, o)
    ensures Accounted(Apply(env, s, st).db, o, claims + 1, reclaims + (if Reclaims(s, st, o) then 1 else 0))
  {
    assert Relay.SettledOnce(s.db, o);
  }

  lemma SettleKeepsAccount(env: Env, s: Sys, st: Step, o: Id, claims: nat, reclaims: nat)
    requires Enabled(s, st) && Accounted(s.db, o, claims, reclaims) && st.SettleParcel? && st.o == o
    ensures Accounted(Apply(env, s, st).db, o, claims, reclaims)
  {
  }

  /** After any run attempts is the number of claims, and exceeds max_attempts by no more than the
      number of claims taken over from an expired lease. */
  lemma {:induction false} AttemptsAreClaims(env: Env, s: Sys, steps: seq<Step>, o: Id)
    requires Init(s) && Feasible(env, s, steps)
    ensures Accounted(Run(env, s, steps).db, o, ClaimCount(steps, o), ReclaimCount(env, s, steps, o))
    decreases |steps|
  {
    if steps != [] {
      var front := steps[..|steps| - 1];
      AttemptsAreClaims(env, s, front, o);
      RelayHolds(env, s, front);
      StepKeepsAccount(env, Run(env, s, front), steps[|steps| - 1], o,
                       ClaimCount(front, o), ReclaimCount(env, s, front, o));
    }
  }

  // ----- the wait after a failed attempt -----

  /** Attempt k of row o has failed: it waits until `due`, and is not taken up again before. */
  ghost predicate Waits(s: Sys, o: Id, k: nat, due: Time) {
    && o in s.db.outbox && s.db.outbox[o].attempts >= k
    && if s.db.outbox[o].attempts == k then s.db.outbox[o].status.Pending? && s.db.outbox[o].nextAttemptAt == due
       else due <= s.now
  }

  lemma StepKeepsWaiting(env: Env, s: Sys, st: Step, o: Id, k: nat, due: Time)
    requires Enabled(s, st) && Waits(s, o, k, due)
    ensures Waits(Apply(env, s, st), o, k, due)
  {
    if !ClaimsRow(st, o) && !(st.SettleParcel? && st.o == o) {
      Guarantees.StepKeepsOutboxRow(env, s, st, o);
    }
    TimeGoesOn(env, s, st);
  }

  lemma TimeGoesOn(env: Env, s: Sys, st: Step)
    requires Enabled(s, st)
    ensures Apply(env, s, st).now >= s.now
  {
  }

  lemma {:induction false} KeepsWaiting(env: Env, s: Sys, steps: seq<Step>, o: Id, k: nat, due: Time)
    requires Feasible(env, s, steps) && Waits(s, o, k, due)
    ensures Waits(Run(env, s, steps), o, k, due)
    decreases |steps|
  {
    if steps != [] {
      var front := steps[..|steps| - 1];
      KeepsWaiting(env, s, front, o, k, due);
      StepKeepsWaiting(env, Run(env, s, front), steps[|steps| - 1], o, k, due);
    }
  }

  /** The relay w is about to settle a SENDING row whose k-th attempt failed at time `at` and was not the last. */
  ghost predicate FailedAttempt(s: Sys, w: Id, o: Id, k: nat, at: Time) {
    && (w, o) in s.parcels && s.parcels[(w, o)].outcome.Some?
    && !s.parcels[(w, o)].outcome.value.0.status.SentOk? && s.parcels[(w, o)].outcome.value.1 == at
    && o in s.db.outbox && s.db.outbox[o].status.Sending?
    && s.db.outbox[o].attempts == k < s.db.outbox[o].maxAttempts
  }

  ghost function AfterSettle(env: Env, s: Sys, w: Id, o: Id): Sys
    requires (w, o) in s.parcels && s.parcels[(w, o)].outcome.Some?
  {
    Apply(env, s, SettleParcel(w, o))
  }

  lemma FailureWaits(env: Env, s: Sys, w: Id, o: Id, k: nat, at: Time)
    requires FailedAttempt(s, w, o, k, at)
    ensures Waits(AfterSettle(env, s, w, o), o, k, at + Seconds(Relay.BackoffSeconds(k, env.backoffBase)))
  {
  }

  /** From any reachable state: after the k-th attempt has failed at time `at`, no relay starts another before
      at + min(base * 2^(k - 1), one hour), whatever leases expire and whoever settles late. */
  lemma RetryWaits(env: Env, s: Sys, w: Id, o: Id, k: nat, at: Time, steps: seq<Step>)
    requires Inv(s) && FailedAttempt(s, w, o, k, at) && Feasible(env, AfterSettle(env, s, w, o), steps)
    ensures var f := Run(env, AfterSettle(env, s, w, o), steps);
            && k >= 1 && o in f.db.outbox && f.db.outbox[o].attempts >= k
            && var wait := env.backoffBase * Relay.Pow2(k - 1);
               f.db.outbox[o].attempts > k ==> f.now >= at + Seconds(if wait < 3600 then wait else 3600)
  {
    RelayPart(s);
    FailureWaits(env, s, w, o, k, at);
    KeepsWaiting(env, AfterSettle(env, s, w, o), steps, o, k, at + Seconds(Relay.BackoffSeconds(k, env.backoffBase)));
  }

  // ----- pacing without lease expiries -----

  /** The earliest moment attempt k + 1 of a row may begin. */
  function Earliest(row: OutboxRow, k: nat, base: nat): Time {
    row.createdAt + Seconds(Relay.TotalBackoff(k, base))
  }

  /** The row has waited out every backoff so far, and only the relay that claimed it last holds it. */
  ghost predicate Paced(env: Env, s: Sys, o: Id) {
    && (o in s.db.outbox ==>
          var row := s.db.outbox[o];
          && (row.status.Pending? ==> Earliest(row, row.attempts, env.backoffBase) <= row.nextAttemptAt)
          && (!row.status.Pending? ==> row.attempts >= 1 && Earliest(row, row.attempts - 1, env.backoffBase) <= s.now))
    && (forall w :: (w, o) in s.parcels ==> HolderPaced(env, s, w, o))
  }

  ghost predicate HolderPaced(env: Env, s: Sys, w: Id, o: Id)
    requires (w, o) in s.parcels
  {
    var parcel := s.parcels[(w, o)];
    o in s.db.outbox &&
    var row := s.db.outbox[o];
    && row.status.Sending? && row.claimedBy == Some(w) && row.attempts >= 1 && parcel.attempt == row.attempts
    && (parcel.outcome.Some? ==> Earliest(row, row.attempts - 1, env.backoffBase) <= parcel.outcome.value.1 <= s.now)
  }

  lemma StepKeepsPace(env: Env, s: Sys, st: Step, o: Id)
    requires Relay.RelayOk(s.db, s.parcels, s.accepted) && Enabled(s, st) && Paced(env, s, o)
    requires !Reclaims(s, st, o)
    ensures Paced(env, Apply(env, s, st), o)
  {
    if st.SettleParcel? && st.o == o {
      SettleKeepsPace(env, s, st, o);
    } else if st.ClaimOutbox? && o in st.ids {
      ClaimKeepsPace(env, s, st, o);
    } else if o in s.db.outbox {
      Guarantees.StepKeepsOutboxRow(env, s, st, o);
      RestKeepsPace(env, s, st, o);
    } else {
      FreshIsPaced(env, s, st, o);
    }
  }

  lemma SettleKeepsPace(env: Env, s: Sys, st: Step, o: Id)
    requires Relay.RelayOk(s.db, s.parcels, s.accepted) && Enabled(s, st) && Paced(env, s, o)
    requires st.SettleParcel? && st.o == o
    ensures Paced(env, Apply(env, s, st), o)
  {
    assert HolderPaced(env, s, st.w, o);
    assert forall w :: (w, o) in s.parcels ==> w == st.w;
  }

  lemma ClaimKeepsPace(env: Env, s: Sys, st: Step, o: Id)
    requires Enabled(s, st) && Paced(env, s, o) && st.ClaimOutbox? && o in st.ids && !Reclaims(s, st, o)
    ensures Paced(env, Apply(env, s, st), o)
  {
    var s' := Apply(env, s, st);
    assert s.db.outbox[o].status.Pending?;
    assert forall w :: (w, o) !in s.parcels;
    forall w | (w, o) in s'.parcels ensures HolderPaced(env, s', w, o) {
      assert (w, o) in Relay.NewParcels(s.db.outbox, st.w, st.ids, s.now + st.lease);
    }
  }

  lemma RestKeepsPace(env: Env, s: Sys, st: Step, o: Id)
    requires Enabled(s, st) && Paced(env, s, o) && o in s.db.outbox
    requires !ClaimsRow(st, o) && !(st.SettleParcel? && st.o == o)
    requires o in Apply(env, s, st).db.outbox && Apply(env, s, st).db.outbox[o] == s.db.outbox[o]
    ensures Paced(env, Apply(env, s, st), o)
  {
    var s' := Apply(env, s, st);
    forall w | (w, o) in s'.parcels ensures HolderPaced(env, s', w, o) {
      assert (w, o) in s.parcels;
      assert HolderPaced(env, s, w, o);
    }
  }

  lemma FreshIsPaced(env: Env, s: Sys, st: Step, o: Id)
    requires Relay.RelayOk(s.db, s.parcels, s.accepted) && Enabled(s, st) && o !in s.db.outbox
    ensures Paced(env, Apply(env, s, st), o)
  {
    var s' := Apply(env, s, st);
    assert forall w :: (w, o) !in s'.parcels;
    assert Relay.TotalBackoff(0, env.backoffBase) == 0;
  }

  lemma {:induction false} StaysPaced(env: Env, s: Sys, steps: seq<Step>, o: Id)
    requires Init(s) && Feasible(env, s, steps) && ReclaimCount(env, s, steps, o) == 0
    ensures Paced(env, Run(env, s, steps), o)
    decreases |steps|
  {
    if steps != [] {
      var front := steps[..|steps| - 1];
      StaysPaced(env, s, front, o);
      RelayHolds(env, s, front);
      StepKeepsPace(env, Run(env, s, front), steps[|steps| - 1], o);
    }
  }

  /** At most max_attempts attempts; attempt k + 1 begins no earlier than the first k backoffs after
      creation; a row dies only after max_attempts - 1 of them; whoever works on it holds its claim. */
  ghost predicate OnSchedule(s: Sys, o: Id, base: nat)
    requires o in s.db.outbox
  {
    var row := s.db.outbox[o];
    && row.attempts <= MAX_ATTEMPTS
    && (row.status.Pending? ==> Earliest(row, row.attempts, base) <= row.nextAttemptAt)
    && (row.status.Sending? ==> row.attempts >= 1 && Earliest(row, row.attempts - 1, base) <= s.now)
    && (row.status.Dead? ==> Earliest(row, MAX_ATTEMPTS - 1, base) <= s.now)
    && (forall w :: (w, o) in s.parcels ==> row.status.Sending? && row.claimedBy == Some(w))
  }

  lemma PacedIsOnSchedule(env: Env, s: Sys, o: Id, claims: nat)
    requires Relay.RelayOk(s.db, s.parcels, s.accepted) && Paced(env, s, o) && Accounted(s.db, o, claims, 0)
    requires o in s.db.outbox
    ensures OnSchedule(s, o, env.backoffBase)
  {
    assert forall w :: (w, o) in s.parcels ==> HolderPaced(env, s, w, o);
  }

  /** In a run in which no lease on row o expires it is always on schedule. */
  lemma RetriesArePaced(env: Env, s: Sys, steps: seq<Step>, o: Id)
    requires Init(s) && Feasible(env, s, steps) && ReclaimCount(env, s, steps, o) == 0
    requires o in Run(env, s, steps).db.outbox
    ensures OnSchedule(Run(env, s, steps), o, env.backoffBase)
  {
    StaysPaced(env, s, steps, o);
    AttemptsAreClaims(env, s, steps, o);
    RelayHolds(env, s, steps);
    PacedIsOnSchedule(env, Run(env, s, steps), o, ClaimCount(steps, o));
  }

  /** While the cap does not bite, a row cannot die before base * (2^(max - 1) - 1) seconds are over. */
  lemma DeathTakesAllBackoffs(env: Env, s: Sys, steps: seq<Step>, o: Id)
    requires Init(s) && Feasible(env, s, steps) && ReclaimCount(env, s, steps, o) == 0
    requires env.backoffBase * Relay.Pow2(MAX_ATTEMPTS - 2) <= Relay.MAX_BACKOFF_SECONDS
    requires o in Run(env, s, steps).db.outbox && Run(env, s, steps).db.outbox[o].status.Dead?
    ensures var f := Run(env, s, steps);
            f.db.outbox[o].createdAt + Seconds(env.backoffBase * 31) <= f.now
  {
    RetriesArePaced(env, s, steps, o);
    AllBackoffs(env.backoffBase);
  }

  lemma AllBackoffs(base: nat)
    requires base * Relay.Pow2(MAX_ATTEMPTS - 2) <= Relay.MAX_BACKOFF_SECONDS
    ensures Relay.TotalBackoff(MAX_ATTEMPTS - 1, base) == base * 31
  {
    Relay.TotalBackoffClosedForm(MAX_ATTEMPTS - 1, base);
    ThirtyOne(base);
  }

  lemma ThirtyOne(base: nat)
    ensures base * (Relay.Pow2(5) - 1) == base * 31
  {
    assert Relay.Pow2(3) == 8;
  }

  // ----- termination -----

  /** Someone is working on every SENDING row. */
  ghost predicate Attended(s: Sys, o: Id) {
    o in s.db.outbox && s.db.outbox[o].status.Sending? ==> exists w :: (w, o) in s.parcels
  }

  lemma StepKeepsAttended(env: Env, s: Sys, st: Step, o: Id)
    requires Relay.RelayOk(s.db, s.parcels, s.accepted) && Enabled(s, st) && !st.CrashRelay? && Attended(s, o)
    ensures Attended(Apply(env, s, st), o)
  {
    var s' := Apply(env, s, st);
    if st.ClaimOutbox? && o in st.ids {
      assert (st.w, o) in Relay.NewParcels(s.db.outbox, st.w, st.ids, s.now + st.lease);
      assert (st.w, o) in s'.parcels;
    } else if !(st.SettleParcel? && st.o == o) && o in s.db.outbox {
      Guarantees.StepKeepsOutboxRow(env, s, st, o);
      if s.db.outbox[o].status.Sending? {
        var w :| (w, o) in s.parcels;
        assert (w, o) in s'.parcels;
      }
    }
  }

  /** Without relay crashes, a row claimed max_attempts times on which no send is
      still outstanding is SENT or DEAD. */
  lemma DoneWithinMaxAttempts(env: Env, s: Sys, steps: seq<Step>, o: Id)
    requires Init(s) && Feasible(env, s, steps)
    requires forall k :: 0 <= k < |steps| ==> !steps[k].CrashRelay?
    requires o in Run(env, s, steps).db.outbox && ClaimCount(steps, o) >= MAX_ATTEMPTS
    requires forall w :: (w, o) !in Run(env, s, steps).parcels
    ensures var row := Run(env, s, steps).db.outbox[o]; row.status.Sent? || row.status.Dead?
  {
    StaysAttended(env, s, steps, o);
    AttemptsAreClaims(env, s, steps, o);
    RelayHolds(env, s, steps);
  }

  lemma {:induction false} StaysAttended(env: Env, s: Sys, steps: seq<Step>, o: Id)
    requires Init(s) && Feasible(env, s, steps)
    requires forall k :: 0 <= k < |steps| ==> !steps[k].CrashRelay?
    ensures Attended(Run(env, s, steps), o)
    decreases |steps|
  {
    if steps != [] {
      var front := steps[..|steps| - 1];
      StaysAttended(env, s, front, o);
      RelayHolds(env, s, front);
      StepKeepsAttended(env, Run(env, s, front), steps[|steps| - 1], o);
    }
  }
}
