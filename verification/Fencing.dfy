/** When a settle is the claim holder's own: the test the relay could make, because the claim returns the
    attempt it counted, and what that test would guarantee. */
module Fencing {
  import opened Model
  import opened Protocol
  import Guarantees
  import Relay

  /** The parcel's attempt is the row's latest. */
  ghost predicate Current(s: Sys, k: (Id, Id))
    requires k in s.parcels && k.1 in s.db.outbox
  {
    s.parcels[k].attempt == s.db.outbox[k.1].attempts
  }

  /** A parcel never runs ahead of its row, and on a SENDING row the latest attempt is the holder's. */
  ghost predicate ParcelOk(s: Sys, k: (Id, Id)) {
    k in s.parcels ==>
      && k.1 in s.db.outbox && s.parcels[k].attempt <= s.db.outbox[k.1].attempts
      && (s.db.outbox[k.1].status.Sending? ==> (s.db.outbox[k.1].claimedBy == Some(k.0) <==> Current(s, k)))
  }

  lemma StepKeepsParcel(env: Env, s: Sys, st: Step, k: (Id, Id))
    requires Enabled(s, st) && ParcelOk(s, k)
    ensures ParcelOk(Apply(env, s, st), k)
  {
    if st.ClaimOutbox? {
      ClaimKeepsParcel(env, s, st, k);
    } else if st.SettleParcel? && st.o == k.1 {
      SettleKeepsParcel(env, s, st, k);
    } else {
      RestKeepsParcel(env, s, st, k);
    }
  }

  lemma ClaimKeepsParcel(env: Env, s: Sys, st: Step, k: (Id, Id))
    requires Enabled(s, st) && st.ClaimOutbox? && ParcelOk(s, k)
    ensures ParcelOk(Apply(env, s, st), k)
  {
    assert k in Relay.NewParcels(s.db.outbox, st.w, st.ids, s.now + st.lease)
      <==> k.0 == st.w && k.1 in st.ids && k.1 in s.db.outbox;
  }

  lemma SettleKeepsParcel(env: Env, s: Sys, st: Step, k: (Id, Id))
    requires Enabled(s, st) && st.SettleParcel? && st.o == k.1 && ParcelOk(s, k)
    ensures ParcelOk(Apply(env, s, st), k)
  {
  }

  lemma RestKeepsParcel(env: Env, s: Sys, st: Step, k: (Id, Id))
    requires Enabled(s, st) && !st.ClaimOutbox? && !(st.SettleParcel? && st.o == k.1) && ParcelOk(s, k)
    ensures ParcelOk(Apply(env, s, st), k)
  {
    if k in Apply(env, s, st).parcels {
      assert k in s.parcels && Apply(env, s, st).parcels[k].attempt == s.parcels[k].attempt;
      Guarantees.StepKeepsOutboxRow(env, s, st, k.1);
    }
  }

  lemma {:induction false} ParcelsStayOk(env: Env, s: Sys, steps: seq<Step>, k: (Id, Id))
    requires Init(s) && Feasible(env, s, steps)
    ensures ParcelOk(Run(env, s, steps), k)
    decreases |steps|
  {
    if steps != [] {
      var front := steps[..|steps| - 1];
      ParcelsStayOk(env, s, front, k);
      StepKeepsParcel(env, Run(env, s, front), steps[|steps| - 1], k);
    }
  }

  /** After any run a relay with a parcel on a SENDING row holds its claim if and only if the attempt it claimed
      is the row's latest. */
  lemma HolderIff(env: Env, s: Sys, steps: seq<Step>, w: Id, o: Id)
    requires Init(s) && Feasible(env, s, steps)
    requires var f := Run(env, s, steps); (w, o) in f.parcels && o in f.db.outbox && f.db.outbox[o].status.Sending?
    ensures var f := Run(env, s, steps); f.db.outbox[o].claimedBy == Some(w) <==> Current(f, (w, o))
  {
    ParcelsStayOk(env, s, steps, (w, o));
  }

  /** After any run, a step takes the row away from under the relay that holds its claim, without a new claim, if
      and only if it is a settle by another relay, whose attempt is not the row's latest. */
  lemma HolderLosesIff(env: Env, s: Sys, steps: seq<Step>, b: Id, o: Id, st: Step)
    requires Init(s) && Feasible(env, s, steps) && Enabled(Run(env, s, steps), st)
    requires var f := Run(env, s, steps);
             && (b, o) in f.parcels && o in f.db.outbox && f.db.outbox[o].status.Sending? && Current(f, (b, o))
    ensures var f := Run(env, s, steps);
            var g := Apply(env, f, st);
            ((b, o) in g.parcels && o in g.db.outbox && Current(g, (b, o)) && !g.db.outbox[o].status.Sending?)
            <==> st.SettleParcel? && st.o == o && !Current(f, (st.w, o))
  {
    var f := Run(env, s, steps);
    ParcelsStayOk(env, s, steps, (b, o));
    if st.SettleParcel? && st.o == o {
      ParcelsStayOk(env, s, steps, (st.w, o));
      SettleTakesAway(env, f, st.w, b, o);
    } else {
      OthersTakeNothing(env, f, b, o, st);
    }
  }

  lemma SettleTakesAway(env: Env, f: Sys, w: Id, b: Id, o: Id)
    requires ParcelOk(f, (b, o)) && ParcelOk(f, (w, o)) && Enabled(f, SettleParcel(w, o)) && (b, o) in f.parcels
    requires f.db.outbox[o].status.Sending? && Current(f, (b, o))
    ensures var g := Apply(env, f, SettleParcel(w, o));
            && o in g.db.outbox && !g.db.outbox[o].status.Sending?
            && ((b, o) in g.parcels <==> !Current(f, (w, o)))
            && ((b, o) in g.parcels ==> Current(g, (b, o)))
  {
    assert (w, o) == (b, o) <==> w == b;
  }

  lemma OthersTakeNothing(env: Env, f: Sys, b: Id, o: Id, st: Step)
    requires Enabled(f, st) && !(st.SettleParcel? && st.o == o) && o in f.db.outbox && f.db.outbox[o].status.Sending?
    ensures o in Apply(env, f, st).db.outbox && Apply(env, f, st).db.outbox[o].status.Sending?
  {
    if !(st.ClaimOutbox? && o in st.ids) {
      Guarantees.StepKeepsOutboxRow(env, f, st, o);
    }
  }

  // ----- with the test -----

  /** A settle that finds its row SENDING has claimed the latest attempt. */
  ghost predicate Fenced(s: Sys, st: Step) {
    st.SettleParcel? && (st.w, st.o) in s.parcels && st.o in s.db.outbox && s.db.outbox[st.o].status.Sending? ==>
      Current(s, (st.w, st.o))
  }

  ghost predicate FencedRun(env: Env, s: Sys, steps: seq<Step>)
    requires Feasible(env, s, steps)
    decreases |steps|
  {
    steps != [] ==>
      var front := steps[..|steps| - 1];
      FencedRun(env, s, front) && Fenced(Run(env, s, front), steps[|steps| - 1])
  }

  /** The row of a latest attempt still waits for its settle. */
  ghost predicate Undisturbed(s: Sys, k: (Id, Id)) {
    k in s.parcels && k.1 in s.db.outbox && Current(s, k) ==> s.db.outbox[k.1].status.Sending?
  }

  lemma ClaimKeepsUndisturbed(env: Env, s: Sys, st: Step, k: (Id, Id))
    requires Enabled(s, st) && st.ClaimOutbox? && Undisturbed(s, k) && ParcelOk(s, k)
    ensures Undisturbed(Apply(env, s, st), k)
  {
    assert k in Relay.NewParcels(s.db.outbox, st.w, st.ids, s.now + st.lease)
      <==> k.0 == st.w && k.1 in st.ids && k.1 in s.db.outbox;
  }

  lemma SettleKeepsUndisturbed(env: Env, s: Sys, st: Step, k: (Id, Id))
    requires Enabled(s, st) && st.SettleParcel? && st.o == k.1 && Fenced(s, st) && Undisturbed(s, k)
    requires ParcelOk(s, k) && ParcelOk(s, (st.w, st.o))
    ensures Undisturbed(Apply(env, s, st), k)
  {
  }

  lemma RestKeepsUndisturbed(env: Env, s: Sys, st: Step, k: (Id, Id))
    requires Enabled(s, st) && !st.ClaimOutbox? && !(st.SettleParcel? && st.o == k.1)
    requires Undisturbed(s, k) && ParcelOk(s, k)
    ensures Undisturbed(Apply(env, s, st), k)
  {
    if k in Apply(env, s, st).parcels {
      assert k in s.parcels && Apply(env, s, st).parcels[k].attempt == s.parcels[k].attempt;
      Guarantees.StepKeepsOutboxRow(env, s, st, k.1);
    }
  }

  lemma {:induction false} StaysUndisturbed(env: Env, s: Sys, steps: seq<Step>, k: (Id, Id))
    requires Init(s) && Feasible(env, s, steps) && FencedRun(env, s, steps)
    ensures Undisturbed(Run(env, s, steps), k)
    decreases |steps|
  {
    if steps != [] {
      var front, st := steps[..|steps| - 1], steps[|steps| - 1];
      StaysUndisturbed(env, s, front, k);
      ParcelsStayOk(env, s, front, k);
      if st.ClaimOutbox? {
        ClaimKeepsUndisturbed(env, Run(env, s, front), st, k);
      } else if st.SettleParcel? && st.o == k.1 {
        ParcelsStayOk(env, s, front, (st.w, st.o));
        SettleKeepsUndisturbed(env, Run(env, s, front), st, k);
      } else {
        RestKeepsUndisturbed(env, Run(env, s, front), st, k);
      }
    }
  }

  /** If every settle made the test, an accepted send of a row's latest attempt would never be dropped: whenever
      its settle comes, the row becomes SENT by it and gets its out-message. */
  lemma FencedSendLands(env: Env, s: Sys, steps: seq<Step>, w: Id, o: Id)
    requires Init(s) && Feasible(env, s, steps) && FencedRun(env, s, steps)
    requires Enabled(Run(env, s, steps), SettleParcel(w, o))
    requires var f := Run(env, s, steps);
             o in f.db.outbox && Current(f, (w, o)) && f.parcels[(w, o)].outcome.value.0.status.SentOk?
    ensures var f := Run(env, s, steps);
            var (result, at) := f.parcels[(w, o)].outcome.value;
            var g := Apply(env, f, SettleParcel(w, o));
            && o in g.db.outbox && g.db.outbox[o].status.Sent?
            && g.db.outbox[o].sentAt == Some(at) && g.db.outbox[o].providerSid == result.sid
            && g.db.messages == f.db.messages + [Message(o, f.db.outbox[o].incident, f.db.outbox[o].phone,
                                                         result.channel, result.sid)]
  {
    StaysUndisturbed(env, s, steps, (w, o));
  }

  // ----- leases kept -----

  predicate LiveParcel(s: Sys, k: (Id, Id)) {
    k in s.parcels && s.now <= s.parcels[k].until
  }

  /** A relay whose lease is live holds the claim, and nobody has claimed the row since. */
  ghost predicate LeaseOk(s: Sys, k: (Id, Id)) {
    LiveParcel(s, k) ==>
      && k.1 in s.db.outbox && Current(s, k) && s.db.outbox[k.1].status.Sending?
      && s.db.outbox[k.1].claimedBy == Some(k.0) && s.db.outbox[k.1].claimedUntil == Some(s.parcels[k].until)
  }

  /** The relay settles a row before its own lease on it runs out. */
  ghost predicate SettlesInLease(s: Sys, st: Step) {
    st.SettleParcel? ==> LiveParcel(s, (st.w, st.o))
  }

  ghost predicate InLeaseSettles(env: Env, s: Sys, steps: seq<Step>)
    requires Feasible(env, s, steps)
    decreases |steps|
  {
    steps != [] ==>
      var front := steps[..|steps| - 1];
      InLeaseSettles(env, s, front) && SettlesInLease(Run(env, s, front), steps[|steps| - 1])
  }

  lemma ClaimKeepsLease(env: Env, s: Sys, st: Step, k: (Id, Id))
    requires Enabled(s, st) && st.ClaimOutbox? && LeaseOk(s, k)
    ensures LeaseOk(Apply(env, s, st), k)
  {
    assert k in Relay.NewParcels(s.db.outbox, st.w, st.ids, s.now + st.lease)
      <==> k.0 == st.w && k.1 in st.ids && k.1 in s.db.outbox;
  }

  lemma SettleKeepsLease(env: Env, s: Sys, st: Step, k: (Id, Id))
    requires Enabled(s, st) && st.SettleParcel? && st.o == k.1 && SettlesInLease(s, st)
    requires LeaseOk(s, k) && LeaseOk(s, (st.w, st.o))
    ensures LeaseOk(Apply(env, s, st), k)
  {
    assert LiveParcel(s, k) ==> k.0 == st.w;
  }

  lemma RestKeepsLease(env: Env, s: Sys, st: Step, k: (Id, Id))
    requires Enabled(s, st) && !st.ClaimOutbox? && !(st.SettleParcel? && st.o == k.1) && LeaseOk(s, k)
    ensures LeaseOk(Apply(env, s, st), k)
  {
    var t := Apply(env, s, st);
    if LiveParcel(t, k) {
      ParcelAges(env, s, st, k);
      Guarantees.StepKeepsOutboxRow(env, s, st, k.1);
    }
  }

  lemma ParcelAges(env: Env, s: Sys, st: Step, k: (Id, Id))
    requires Enabled(s, st) && !st.ClaimOutbox? && k in Apply(env, s, st).parcels
    ensures Apply(env, s, st).now >= s.now && k in s.parcels
    ensures Apply(env, s, st).parcels[k].attempt == s.parcels[k].attempt
    ensures Apply(env, s, st).parcels[k].until == s.parcels[k].until
  {
  }

  lemma {:induction false} LeasesHold(env: Env, s: Sys, steps: seq<Step>, k: (Id, Id))
    requires Init(s) && Feasible(env, s, steps) && InLeaseSettles(env, s, steps)
    ensures LeaseOk(Run(env, s, steps), k)
    decreases |steps|
  {
    if steps != [] {
      var front, st := steps[..|steps| - 1], steps[|steps| - 1];
      LeasesHold(env, s, front, k);
      if st.ClaimOutbox? {
        ClaimKeepsLease(env, Run(env, s, front), st, k);
      } else if st.SettleParcel? && st.o == k.1 {
        LeasesHold(env, s, front, (st.w, st.o));
        SettleKeepsLease(env, Run(env, s, front), st, k);
      } else {
        RestKeepsLease(env, Run(env, s, front), st, k);
      }
    }
  }

  /** When relays settle within their leases, at most one of them has a live parcel on a row. */
  lemma LiveParcelsAreExclusive(env: Env, s: Sys, steps: seq<Step>, w: Id, v: Id, o: Id)
    requires Init(s) && Feasible(env, s, steps) && InLeaseSettles(env, s, steps)
    requires LiveParcel(Run(env, s, steps), (w, o)) && LiveParcel(Run(env, s, steps), (v, o))
    ensures w == v
  {
    LeasesHold(env, s, steps, (w, o));
    LeasesHold(env, s, steps, (v, o));
  }

  /** And every settle would pass the test, so that what is promised of it is promised of them. */
  lemma {:induction false} InLeaseIsFenced(env: Env, s: Sys, steps: seq<Step>)
    requires Init(s) && Feasible(env, s, steps) && InLeaseSettles(env, s, steps)
    ensures FencedRun(env, s, steps)
    decreases |steps|
  {
    if steps != [] {
      var front, st := steps[..|steps| - 1], steps[|steps| - 1];
      InLeaseIsFenced(env, s, front);
      if st.SettleParcel? {
        LeasesHold(env, s, front, (st.w, st.o));
      }
    }
  }
}
