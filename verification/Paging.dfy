/** Who is paged: for every tier an incident reaches, exactly when a recipient and a configuration exist
    at that moment there is a page, and it goes to that recipient with that configuration's template. */
module Paging {
  import opened Model
  import opened Protocol
  import Escalation
  import Ingest

  /** The role that is responsible for a tier. */
  function RoleOf(tier: nat): Role {
    if tier == 0 then Operator else if tier == 1 then FloorManager else PlantDirector
  }

  /** When the incident came to a tier: its creation, or the fire that took it there. */
  ghost function ReachedAt(db: Db, i: Id, tier: nat): Time
    requires i in db.incidents && tier <= |Escalation.FiresOf(db.events, i)|
  {
    if tier == 0 then db.incidents[i].createdAt else Escalation.FiresOf(db.events, i)[tier - 1].at
  }

  predicate AddressedTo(env: Env, row: OutboxRow, facts: Facts, at: Time) {
    && row.createdAt == at
    && env.onCall(RoleOf(row.tier), facts, at) == Some(row.phone)
    && env.config(facts, row.tier, at).Some?
    && row.template == env.config(facts, row.tier, at).value.template
  }

  ghost predicate PagedRight(env: Env, db: Db, i: Id, tier: nat)
    requires i in db.incidents && tier <= |Escalation.FiresOf(db.events, i)|
  {
    var facts, at := db.incidents[i].facts, ReachedAt(db, i, tier);
    && (forall o :: o in db.outbox && db.outbox[o].incident == i && db.outbox[o].tier == tier ==>
          AddressedTo(env, db.outbox[o], facts, at))
    && (KeyTaken(db.outbox, i, tier)
        <==> env.onCall(RoleOf(tier), facts, at).Some? && env.config(facts, tier, at).Some?)
  }

  /** All tiers that page and that incident i has reached. */
  ghost predicate AllPaged(env: Env, db: Db, i: Id) {
    i in db.incidents ==>
      && |Escalation.FiresOf(db.events, i)| == db.incidents[i].currentTier
      && forall t: nat :: t <= 2 && t <= db.incidents[i].currentTier ==> PagedRight(env, db, i, t)
  }

  predicate SameAddress(a: OutboxRow, b: OutboxRow) {
    a.incident == b.incident && a.tier == b.tier && a.phone == b.phone && a.template == b.template
    && a.createdAt == b.createdAt
  }

  /** Nothing that decides the page of (i, tier) differs. */
  ghost predicate SamePage(d: Db, d': Db, i: Id, tier: nat) {
    && i in d.incidents && i in d'.incidents
    && d'.incidents[i].facts == d.incidents[i].facts && d'.incidents[i].createdAt == d.incidents[i].createdAt
    && Escalation.FiresOf(d.events, i) <= Escalation.FiresOf(d'.events, i)
    && (forall o :: o in d.outbox ==> o in d'.outbox && SameAddress(d.outbox[o], d'.outbox[o]))
    && (forall o :: o in d'.outbox && o !in d.outbox ==> d'.outbox[o].incident != i || d'.outbox[o].tier != tier)
  }

  lemma PageStays(env: Env, d: Db, d': Db, i: Id, tier: nat)
    requires SamePage(d, d', i, tier) && tier <= |Escalation.FiresOf(d.events, i)| && PagedRight(env, d, i, tier)
    ensures PagedRight(env, d', i, tier)
  {
    assert ReachedAt(d', i, tier) == ReachedAt(d, i, tier);
    KeyStays(d, d', i, tier);
  }

  lemma KeyStays(d: Db, d': Db, i: Id, tier: nat)
    requires SamePage(d, d', i, tier)
    ensures KeyTaken(d.outbox, i, tier) <==> KeyTaken(d'.outbox, i, tier)
  {
    if KeyTaken(d.outbox, i, tier) {
      var o :| o in d.outbox && d.outbox[o].incident == i && d.outbox[o].tier == tier;
      assert o in d'.outbox && SameAddress(d.outbox[o], d'.outbox[o]);
    }
    if KeyTaken(d'.outbox, i, tier) {
      var o :| o in d'.outbox && d'.outbox[o].incident == i && d'.outbox[o].tier == tier;
      assert o in d.outbox && SameAddress(d.outbox[o], d'.outbox[o]);
    }
  }

  // ----- steps -----

  lemma OtherStepsKeepAddresses(env: Env, s: Sys, st: Step)
    requires Enabled(s, st) && !st.Fire? && !st.IngestInsert?
    ensures Apply(env, s, st).db.outbox.Keys == s.db.outbox.Keys
    ensures forall o :: o in s.db.outbox ==> SameAddress(s.db.outbox[o], Apply(env, s, st).db.outbox[o])
  {
  }

  lemma OtherStepsKeepRows(env: Env, s: Sys, st: Step, i: Id)
    requires Enabled(s, st) && !st.Fire? && !st.IngestInsert? && i in s.db.incidents
    ensures var d, d' := s.db, Apply(env, s, st).db;
            && d'.incidents.Keys == d.incidents.Keys
            && d'.incidents[i].facts == d.incidents[i].facts && d'.incidents[i].createdAt == d.incidents[i].createdAt
            && d'.incidents[i].currentTier == d.incidents[i].currentTier
            && Escalation.FiresOf(d'.events, i) == Escalation.FiresOf(d.events, i)
  {
    if st.Close? {
      Escalation.CloseGrows(s.db.events, s.looks[st.r], s.now, i);
    }
  }

  /** Only fires and inserts touch what decides a page. */
  lemma OtherStepsPageNothing(env: Env, s: Sys, st: Step, i: Id, tier: nat)
    requires Enabled(s, st) && !st.Fire? && !st.IngestInsert? && i in s.db.incidents
    ensures SamePage(s.db, Apply(env, s, st).db, i, tier)
    ensures Apply(env, s, st).db.incidents[i].currentTier == s.db.incidents[i].currentTier
    ensures Escalation.FiresOf(Apply(env, s, st).db.events, i) == Escalation.FiresOf(s.db.events, i)
    ensures Apply(env, s, st).db.incidents.Keys == s.db.incidents.Keys
  {
    OtherStepsKeepRows(env, s, st, i);
    OtherStepsKeepAddresses(env, s, st);
  }

  lemma OtherStepsKeepPaged(env: Env, s: Sys, st: Step, i: Id)
    requires Enabled(s, st) && !st.Fire? && !st.IngestInsert? && AllPaged(env, s.db, i)
    ensures AllPaged(env, Apply(env, s, st).db, i)
  {
    if i in s.db.incidents {
      var d' := Apply(env, s, st).db;
      OtherStepsPageNothing(env, s, st, i, 0);
      forall t: nat | t <= 2 && t <= d'.incidents[i].currentTier ensures PagedRight(env, d', i, t) {
        OtherStepsPageNothing(env, s, st, i, t);
        PageStays(env, s.db, d', i, t);
      }
    }
  }

  /** The page a fire writes is right for the tier it reaches. */
  lemma NewTierPagedRight(env: Env, d: Db, i: Id, o: Id, now: Time)
    requires Escalation.EscalationOk(d) && Escalation.PagesOk(d) && i in d.incidents && o !in d.outbox
    requires Escalation.PassesRecheck(d.incidents[i]) && d.incidents[i].currentTier <= 1
    ensures var d' := Escalation.FireRow(env, d, i, o, now).db; var t := d.incidents[i].currentTier + 1;
            && i in d'.incidents && t <= |Escalation.FiresOf(d'.events, i)| && PagedRight(env, d', i, t)
  {
    assert Escalation.FiredOnce(d, i);
    Escalation.FireEffect(env, d, i, o, now);
    var inc := d.incidents[i];
    var tr := Escalation.TransitionFor(inc.status, inc.currentTier).value;
    Escalation.LogGrows(d.events, Escalation.FireEvent(i, inc, tr, now), i);
    var page := Escalation.PageFor(env, i, inc.facts, tr, now);
    var d' := Escalation.FireRow(env, d, i, o, now).db;
    if page.Some? {
      assert d'.outbox[o] == page.value;
    }
    assert !KeyTaken(d.outbox, i, inc.currentTier + 1);
  }

  lemma FireLeavesPages(env: Env, d: Db, f: Id, o: Id, now: Time, i: Id, tier: nat)
    requires Escalation.EscalationOk(d) && Escalation.PagesOk(d) && f in d.incidents && i in d.incidents
    requires o !in d.outbox && Escalation.PassesRecheck(d.incidents[f]) && tier <= d.incidents[i].currentTier
    ensures SamePage(d, Escalation.FireRow(env, d, f, o, now).db, i, tier)
  {
    Escalation.FireEffect(env, d, f, o, now);
    var inc := d.incidents[f];
    var tr := Escalation.TransitionFor(inc.status, inc.currentTier).value;
    Escalation.LogGrows(d.events, Escalation.FireEvent(f, inc, tr, now), i);
  }

  lemma FireGrowsFires(env: Env, d: Db, f: Id, o: Id, now: Time, i: Id)
    requires Escalation.EscalationOk(d) && Escalation.PagesOk(d) && f in d.incidents && i in d.incidents
    requires Escalation.PassesRecheck(d.incidents[f])
    requires |Escalation.FiresOf(d.events, i)| == d.incidents[i].currentTier
    ensures var d' := Escalation.FireRow(env, d, f, o, now).db;
            && d'.incidents.Keys == d.incidents.Keys
            && |Escalation.FiresOf(d'.events, i)| == d'.incidents[i].currentTier
            && d'.incidents[i].currentTier == d.incidents[i].currentTier + (if i == f then 1 else 0)
  {
    Escalation.FireEffect(env, d, f, o, now);
    var inc := d.incidents[f];
    var tr := Escalation.TransitionFor(inc.status, inc.currentTier).value;
    Escalation.LogGrows(d.events, Escalation.FireEvent(f, inc, tr, now), i);
  }

  lemma TierPagedAfterFire(env: Env, d: Db, f: Id, o: Id, now: Time, i: Id, t: nat)
    requires Escalation.EscalationOk(d) && Escalation.PagesOk(d) && f in d.incidents && i in d.incidents
    requires o !in d.outbox && Escalation.PassesRecheck(d.incidents[f]) && AllPaged(env, d, i)
    requires t <= 2 && t <= d.incidents[i].currentTier + (if i == f then 1 else 0)
    ensures var d' := Escalation.FireRow(env, d, f, o, now).db;
            i in d'.incidents && t <= |Escalation.FiresOf(d'.events, i)| && PagedRight(env, d', i, t)
  {
    FireGrowsFires(env, d, f, o, now, i);
    if t <= d.incidents[i].currentTier {
      FireLeavesPages(env, d, f, o, now, i, t);
      PageStays(env, d, Escalation.FireRow(env, d, f, o, now).db, i, t);
    } else {
      assert i == f && t == d.incidents[f].currentTier + 1;
      NewTierPagedRight(env, d, f, o, now);
    }
  }

  lemma FireKeepsPaged(env: Env, d: Db, f: Id, o: Id, now: Time, i: Id)
    requires Escalation.EscalationOk(d) && Escalation.PagesOk(d) && f in d.incidents && o !in d.outbox
    requires i in d.incidents && AllPaged(env, d, i)
    ensures AllPaged(env, Escalation.FireRow(env, d, f, o, now).db, i)
  {
    if Escalation.PassesRecheck(d.incidents[f]) {
      var d' := Escalation.FireRow(env, d, f, o, now).db;
      FireGrowsFires(env, d, f, o, now, i);
      forall t: nat | t <= 2 && t <= d'.incidents[i].currentTier ensures PagedRight(env, d', i, t) {
        TierPagedAfterFire(env, d, f, o, now, i, t);
      }
    }
  }

  lemma InsertKeepsPaged(env: Env, d: Db, rec: Ingest.Record, n: Id, o: Id, at: Time, i: Id)
    requires rec.Anomaly? && n !in d.incidents && o !in d.outbox
    requires Escalation.EscalationOk(d) && Escalation.PagesOk(d) && AllPaged(env, d, i)
    requires Ingest.Insert(env, d, rec, n, o, at).Some?
    ensures AllPaged(env, Ingest.Insert(env, d, rec, n, o, at).value, i)
  {
    var d' := Ingest.Insert(env, d, rec, n, o, at).value;
    Escalation.LogGrows(d.events, Ingest.CreationEvent(rec, n, at), i);
    if i == n {
      NewIncidentPagedRight(env, d, rec, n, o, at);
    } else if i in d.incidents {
      forall t: nat | t <= 2 && t <= d'.incidents[i].currentTier ensures PagedRight(env, d', i, t) {
        PageStays(env, d, d', i, t);
      }
    }
  }

  lemma NewIncidentPagedRight(env: Env, d: Db, rec: Ingest.Record, n: Id, o: Id, at: Time)
    requires rec.Anomaly? && n !in d.incidents && o !in d.outbox
    requires Escalation.EscalationOk(d) && Escalation.PagesOk(d)
    requires Ingest.Insert(env, d, rec, n, o, at).Some?
    ensures AllPaged(env, Ingest.Insert(env, d, rec, n, o, at).value, n)
  {
    var d' := Ingest.Insert(env, d, rec, n, o, at).value;
    assert Escalation.FiredOnce(d, n);
    Escalation.LogGrows(d.events, Ingest.CreationEvent(rec, n, at), n);
    var page := Ingest.OperatorPage(env, rec, n, at);
    if page.Some? {
      assert d'.outbox[o] == page.value;
    }
    assert !KeyTaken(d.outbox, n, 0);
    assert PagedRight(env, d', n, 0);
  }

  lemma StepKeepsPaged(env: Env, s: Sys, st: Step, i: Id)
    requires Escalation.EscalationOk(s.db) && Escalation.PagesOk(s.db)
    requires Enabled(s, st) && AllPaged(env, s.db, i)
    ensures AllPaged(env, Apply(env, s, st).db, i)
  {
    if st.Fire? {
      FireStepKeeps(env, s, st);
      if i in s.db.incidents {
        FireKeepsPaged(env, s.db, st.i, st.outboxId, s.now, i);
      }
    } else if st.IngestInsert? {
      var rec, at := Ingest.RecordOf(s.intake, st.c), s.intake.consumers[st.c].phase.at;
      if Ingest.Insert(env, s.db, rec, st.i, st.outboxId, at).Some? {
        InsertKeepsPaged(env, s.db, rec, st.i, st.outboxId, at, i);
      }
    } else {
      OtherStepsKeepPaged(env, s, st, i);
    }
  }

  // ----- runs -----

  /** After any run, for every incident and every tier from 0 to min(2, current_tier): there is a page for the
      tier if and only if its role was on call and its configuration present when the tier was reached, and
      that page was written then, to that person, with that template. */
  lemma {:induction false} PagesGoToTheRightPeople(env: Env, s: Sys, steps: seq<Step>, i: Id)
    requires Init(s) && Feasible(env, s, steps)
    ensures AllPaged(env, Run(env, s, steps).db, i)
    decreases |steps|
  {
    if steps != [] {
      var front := steps[..|steps| - 1];
      PagesGoToTheRightPeople(env, s, front, i);
      EscalationHolds(env, s, front);
      StepKeepsPaged(env, Run(env, s, front), steps[|steps| - 1], i);
    }
  }
}
