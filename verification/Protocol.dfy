/** The whole alerting protocol as one transition system: escalation workers, closing requests,
    ingest consumers and notifier relays acting on the shared tables in any interleaving, with
    crashes at any point.

    A transaction is one step, so a crash inside it is a crash before it.  What a process remembers
    between transactions (claimed rows, an unlocked read, an unsettled send) is kept beside the
    tables and is lost in a crash.  Claimed rows may be worked on in any order. */
module Protocol {
  import opened Model
  import Escalation
  import Relay
  import Ingest

  /** What a worker holds for an incident it claimed, as the claiming UPDATE returned it. */
  datatype Ticket = Ticket(tier: nat, due: Time, until: Time)

  datatype Sys = Sys(
    now: Time,
    db: Db,
    tickets: map<(Id, Id), Ticket>,         // (worker, incident)
    looks: map<Id, Escalation.Seen>,        // by request
    parcels: map<(Id, Id), Relay.Parcel>,   // (relay, outbox row)
    accepted: set<Id>,                      // outbox rows some provider took at least once
    intake: Ingest.Intake)

  ghost predicate Init(s: Sys) {
    && s.db == EMPTY_DB && s.tickets == map[] && s.looks == map[] && s.parcels == map[]
    && s.accepted == {} && s.intake == Ingest.EMPTY_INTAKE
  }

  datatype Step =
    | Tick(d: nat)
    // escalation workers
    | Claim(w: Id, ids: set<Id>, lease: nat)
    | Fire(w: Id, i: Id, outboxId: Id)
    | ReleaseAfterError(w: Id, i: Id)
    | Abandon(w: Id, i: Id)
    | CrashWorker(w: Id)
    // acknowledge, resolve and reply requests
    | Look(r: Id, i: Id, action: Escalation.Action)
    | Close(r: Id)
    | Forget(r: Id)
    // ingest
    | Produce(p: Id, rec: Ingest.Record)
    | Join(c: Id, p: Id)
    | IngestRead(c: Id)
    | IngestInsert(c: Id, i: Id, outboxId: Id)
    | IngestRecheck(c: Id)
    | CommitOffset(c: Id)
    | CrashConsumer(c: Id)
    // relays
    | ClaimOutbox(w: Id, ids: set<Id>, lease: nat)
    | Send(w: Id, o: Id, answers: seq<Relay.ProviderResult>, result: Relay.ProviderResult, silent: bool)
    | SettleParcel(w: Id, o: Id)
    | CrashRelay(w: Id)

  ghost predicate Enabled(s: Sys, st: Step) {
    match st
    case Tick(_) => true
    case Claim(w, ids, _) =>
      forall i :: i in ids ==> i in s.db.incidents && Escalation.Claimable(s.db.incidents[i], s.now)
    case Fire(w, i, o) => (w, i) in s.tickets && i in s.db.incidents && o !in s.db.outbox
    case ReleaseAfterError(w, i) => (w, i) in s.tickets && i in s.db.incidents
    case Abandon(w, i) => (w, i) in s.tickets
    case CrashWorker(_) => true
    case Look(r, i, action) => r !in s.looks && i in s.db.incidents
    case Close(r) => r in s.looks && s.looks[r].incident in s.db.incidents
    case Forget(r) => r in s.looks
    case Produce(_, _) => true
    case Join(c, _) => c !in s.intake.consumers
    case IngestRead(c) => Ingest.HasRecord(s.intake, c) && s.intake.consumers[c].phase.Ready?
    case IngestInsert(c, i, o) =>
      && Ingest.HasRecord(s.intake, c) && s.intake.consumers[c].phase.Checked?
      && Ingest.RecordOf(s.intake, c).Anomaly?
      && i !in s.db.incidents && o !in s.db.outbox
    case IngestRecheck(c) =>
      && Ingest.HasRecord(s.intake, c) && s.intake.consumers[c].phase.Conflicted?
      && Ingest.RecordOf(s.intake, c).Anomaly?
    case CommitOffset(c) => c in s.intake.consumers && s.intake.consumers[c].phase.Handled?
    case CrashConsumer(c) => c in s.intake.consumers
    case ClaimOutbox(w, ids, _) =>
      forall o :: o in ids ==> o in s.db.outbox && Relay.Claimable(s.db.outbox[o], s.now)
    case Send(w, o, answers, result, _) =>
      (w, o) in s.parcels && s.parcels[(w, o)].outcome.None? && Relay.ChainAnswer(answers, result)
    case SettleParcel(w, o) => (w, o) in s.parcels && s.parcels[(w, o)].outcome.Some?
    case CrashRelay(_) => true
  }

  function NewTickets(s: Sys, w: Id, ids: set<Id>, until: Time): map<(Id, Id), Ticket> {
    map i | i in ids && i in s.db.incidents && s.db.incidents[i].nextFireAt.Some? ::
      (w, i) := Ticket(s.db.incidents[i].currentTier, s.db.incidents[i].nextFireAt.value, until)
  }

  /** The recheck in the worker, the transition, and the eager release if the transition raised. */
  function AfterFire(env: Env, s: Sys, i: Id, outboxId: Id): Db
    requires i in s.db.incidents
  {
    var r := Escalation.FireRow(env, s.db, i, outboxId, s.now);
    if r.outcome.UniqueViolation? then Escalation.ReleaseClaim(s.db, i) else r.db
  }

  /** A read that leads to a later write; an HTTP request that would change nothing ends here. */
  function AfterLook(s: Sys, r: Id, i: Id, action: Escalation.Action): map<Id, Escalation.Seen>
    requires i in s.db.incidents
  {
    if action.Reply? || !Escalation.Decide(action, s.db.incidents[i].status).NoClose?
    then s.looks[r := Escalation.Look(i, s.db.incidents[i], action, s.now)]
    else s.looks
  }

  ghost function AfterRead(s: Sys, c: Id): Ingest.Intake
    requires Ingest.HasRecord(s.intake, c)
  {
    match Ingest.RecordOf(s.intake, c)
    case Malformed(_) => Ingest.Decided(Ingest.DeadLettered(s.intake, c), c, Ingest.ToDlq)
    case Anomaly(eventId, dedupKey, _) =>
      if Ingest.EventSeen(s.db.events, eventId) then Ingest.Decided(s.intake, c, Ingest.DuplicateEventId)
      else if Ingest.OpenExists(s.db.incidents, dedupKey) then Ingest.Decided(s.intake, c, Ingest.DuplicateOpenDedup)
      else Ingest.Rephase(s.intake, c, Ingest.Checked(s.now))
  }

  /** After a refused insert both lookups are repeated; if neither explains it the error is raised
      and the consumer stops with the offset uncommitted. */
  ghost function AfterRecheck(s: Sys, c: Id): Ingest.Intake
    requires Ingest.HasRecord(s.intake, c) && Ingest.RecordOf(s.intake, c).Anomaly?
  {
    var rec := Ingest.RecordOf(s.intake, c);
    if Ingest.EventSeen(s.db.events, rec.eventId) then Ingest.Decided(s.intake, c, Ingest.DuplicateEventId)
    else if Ingest.OpenExists(s.db.incidents, rec.dedupKey) then Ingest.Decided(s.intake, c, Ingest.DuplicateOpenDedup)
    else Ingest.Left(s.intake, c)
  }

  ghost function Apply(env: Env, s: Sys, st: Step): Sys
    requires Enabled(s, st)
  {
    match st
    case Tick(d) => s.(now := s.now + d)
    case Claim(w, ids, lease) =>
      s.(db := s.db.(incidents := Escalation.ClaimRows(s.db.incidents, w, ids, s.now + lease)),
         tickets := s.tickets + NewTickets(s, w, ids, s.now + lease))
    case Fire(w, i, o) => s.(db := AfterFire(env, s, i, o), tickets := s.tickets - {(w, i)})
    case ReleaseAfterError(w, i) =>
      s.(db := Escalation.ReleaseClaim(s.db, i), tickets := s.tickets - {(w, i)})
    case Abandon(w, i) => s.(tickets := s.tickets - {(w, i)})
    case CrashWorker(w) => s.(tickets := map k | k in s.tickets && k.0 != w :: s.tickets[k])
    case Look(r, i, action) => s.(looks := AfterLook(s, r, i, action))
    case Close(r) =>
      s.(db := Escalation.CloseWrite(s.db, s.looks[r], s.now), looks := s.looks - {r})
    case Forget(r) => s.(looks := s.looks - {r})
    case Produce(p, rec) =>
      s.(intake := Ingest.Produced(s.intake, p, rec))
    case Join(c, p) =>
      s.(intake := Ingest.Joined(s.intake, c, p))
    case IngestRead(c) => s.(intake := AfterRead(s, c))
    case IngestInsert(c, i, o) =>
      (match Ingest.Insert(env, s.db, Ingest.RecordOf(s.intake, c), i, o, s.intake.consumers[c].phase.at)
       case Some(db) => s.(db := db, intake := Ingest.Decided(s.intake, c, Ingest.MadeIncident(i)))
       case None => s.(intake := Ingest.Rephase(s.intake, c, Ingest.Conflicted)))
    case IngestRecheck(c) => s.(intake := AfterRecheck(s, c))
    case CommitOffset(c) => s.(intake := Ingest.Committed(s.intake, c))
    case CrashConsumer(c) => s.(intake := Ingest.Left(s.intake, c))
    case ClaimOutbox(w, ids, lease) =>
      s.(db := s.db.(outbox := Relay.ClaimOutbox(s.db.outbox, w, ids, s.now + lease)),
         parcels := s.parcels + Relay.NewParcels(s.db.outbox, w, ids, s.now + lease))
    case Send(w, o, _, result, silent) =>
      s.(parcels := s.parcels[(w, o) := s.parcels[(w, o)].(outcome := Some((result, s.now)))],
         accepted := if result.status.SentOk? || silent then s.accepted + {o} else s.accepted)
    case SettleParcel(w, o) =>
      var (result, at) := s.parcels[(w, o)].outcome.value;
      s.(db := Relay.Settle(s.db, o, result, at, env.backoffBase), parcels := s.parcels - {(w, o)})
    case CrashRelay(w) => s.(parcels := map k | k in s.parcels && k.0 != w :: s.parcels[k])
  }

  // ----- runs -----

  ghost predicate Feasible(env: Env, s: Sys, steps: seq<Step>)
    decreases |steps|, 0
  {
    steps != [] ==>
      var front := steps[..|steps| - 1];
      Feasible(env, s, front) && Enabled(Run(env, s, front), steps[|steps| - 1])
  }

  /** The state a feasible sequence of steps leads to. */
  ghost function Run(env: Env, s: Sys, steps: seq<Step>): Sys
    requires Feasible(env, s, steps)
    decreases |steps|, 1
  {
    if steps == [] then s
    else Apply(env, Run(env, s, steps[..|steps| - 1]), steps[|steps| - 1])
  }

  lemma RunGrows(env: Env, s: Sys, steps: seq<Step>, st: Step)
    requires Feasible(env, s, steps)
    ensures Feasible(env, s, steps + [st]) <==> Enabled(Run(env, s, steps), st)
    ensures Enabled(Run(env, s, steps), st) ==>
              Run(env, s, steps + [st]) == Apply(env, Run(env, s, steps), st)
  {
    assert (steps + [st])[..|steps|] == steps;
  }

  lemma {:induction false} RunsCompose(env: Env, s: Sys, first: seq<Step>, second: seq<Step>)
    requires Feasible(env, s, first) && Feasible(env, Run(env, s, first), second)
    ensures Feasible(env, s, first + second)
    ensures Run(env, s, first + second) == Run(env, Run(env, s, first), second)
    decreases |second|
  {
    if second == [] {
      assert first + second == first;
    } else {
      var front := second[..|second| - 1];
      RunsCompose(env, s, first, front);
      assert (first + second)[..|first + second| - 1] == first + front;
    }
  }

  /** A run from s through a longer one is the run of its first part, continued. */
  lemma {:induction false} RunsSplit(env: Env, s: Sys, first: seq<Step>, second: seq<Step>)
    requires Feasible(env, s, first + second)
    ensures Feasible(env, s, first) && Feasible(env, Run(env, s, first), second)
    decreases |second|
  {
    if second == [] {
      assert first + second == first;
    } else {
      var front := second[..|second| - 1];
      assert (first + second)[..|first + second| - 1] == first + front;
      RunsSplit(env, s, first, front);
      RunsCompose(env, s, first, front);
    }
  }

  // ----- the invariant -----

  /** A pending close that saw no timer will leave the timer alone; by then there is still none. */
  ghost predicate LooksOk(db: Db, looks: map<Id, Escalation.Seen>) {
    forall r :: r in looks ==>
      && looks[r].incident in db.incidents
      && (!looks[r].armed ==> db.incidents[looks[r].incident].nextFireAt.None?)
      && (!looks[r].hasDeadline ==> db.incidents[looks[r].incident].deadlineAt.None?)
  }

  ghost predicate Inv(s: Sys) {
    && Escalation.EscalationOk(s.db)
    && Escalation.PagesOk(s.db)
    && LooksOk(s.db, s.looks)
    && (forall k :: k in s.tickets ==> k.1 in s.db.incidents)
    && Relay.RelayOk(s.db, s.parcels, s.accepted)
    && Ingest.IntakeOk(s.db, s.intake)
  }

  lemma InitEscalation(db: Db)
    requires db == EMPTY_DB
    ensures Escalation.EscalationOk(db) && Escalation.PagesOk(db) && Relay.RelayOk(db, map[], {})
  {
  }

  lemma InitIntake(db: Db, q: Ingest.Intake)
    requires db == EMPTY_DB && q == Ingest.EMPTY_INTAKE
    ensures Ingest.IntakeOk(db, q)
  {
  }

  lemma InitInv(s: Sys)
    requires Init(s)
    ensures Inv(s)
  {
    InitEscalation(s.db);
    InitIntake(s.db, s.intake);
  }

  // ----- the step keeps each part of the invariant -----

  /** All but a creating insert let the tables evolve without new incidents. */
  lemma StepEvolves(env: Env, s: Sys, st: Step)
    requires Escalation.EscalationOk(s.db) && Escalation.PagesOk(s.db)
    requires Enabled(s, st) && !st.IngestInsert?
    ensures Ingest.Evolves(s.db, Apply(env, s, st).db)
  {
    if st.Fire? {
      FireEvolves(env, s.db, st.i, st.outboxId, s.now);
      Escalation.FireAdvances(env, s.db, st.i, st.outboxId, s.now);
    } else if st.Close? {
      CloseEvolves(s.db, s.looks[st.r], s.now);
    } else {
      OnlyClaimsMove(env, s, st);
      ClaimEvolves(s.db, Apply(env, s, st).db);
    }
  }

  /** Steps other than fires, closes and inserts touch no incident column but the claim. */
  lemma OnlyClaimsMove(env: Env, s: Sys, st: Step)
    requires Enabled(s, st) && !st.Fire? && !st.Close? && !st.IngestInsert?
    ensures var d, d' := s.db, Apply(env, s, st).db;
            && d'.events == d.events && d'.idempotency == d.idempotency
            && d'.incidents.Keys == d.incidents.Keys
            && forall i :: i in d.incidents ==>
                 d'.incidents[i] == d.incidents[i].(claimedBy := d'.incidents[i].claimedBy,
                                                    claimedUntil := d'.incidents[i].claimedUntil)
  {
  }

  /** Steps other than fires and inserts leave every page's key alone. */
  lemma PageKeysStay(env: Env, s: Sys, st: Step)
    requires Enabled(s, st) && !st.Fire? && !st.IngestInsert?
    ensures var d, d' := s.db, Apply(env, s, st).db;
            && d'.outbox.Keys == d.outbox.Keys
            && forall o :: o in d.outbox ==>
                 d'.outbox[o].incident == d.outbox[o].incident && d'.outbox[o].tier == d.outbox[o].tier
  {
  }

  lemma CloseEvolves(d: Db, seen: Escalation.Seen, now: Time)
    requires seen.incident in d.incidents
    ensures Ingest.Evolves(d, Escalation.CloseWrite(d, seen, now))
  {
    assert Escalation.CloseWrite(d, seen, now).events[..|d.events|] == d.events;
  }

  /** Only the claim columns differ. */
  lemma ClaimEvolves(d: Db, d': Db)
    requires d'.events == d.events && d'.incidents.Keys == d.incidents.Keys
    requires forall i :: i in d.incidents ==>
      d'.incidents[i] == d.incidents[i].(claimedBy := d'.incidents[i].claimedBy,
                                         claimedUntil := d'.incidents[i].claimedUntil)
    ensures Ingest.Evolves(d, d')
  {
  }

  lemma FireEvolves(env: Env, d: Db, i: Id, outboxId: Id, now: Time)
    requires Escalation.EscalationOk(d) && Escalation.PagesOk(d) && i in d.incidents
    ensures Ingest.Evolves(d, Escalation.FireRow(env, d, i, outboxId, now).db)
  {
    if Escalation.PassesRecheck(d.incidents[i]) {
      Escalation.FireEffect(env, d, i, outboxId, now);
      var d' := Escalation.FireRow(env, d, i, outboxId, now).db;
      assert d'.events[..|d.events|] == d.events;
      assert Escalation.RowOk(d.incidents[i]);
    }
  }

  lemma FireStepKeeps(env: Env, s: Sys, st: Step)
    requires Escalation.EscalationOk(s.db) && Escalation.PagesOk(s.db)
    requires Enabled(s, st) && st.Fire?
    ensures Escalation.EscalationOk(Apply(env, s, st).db) && Escalation.PagesOk(Apply(env, s, st).db)
    ensures Apply(env, s, st).db == Escalation.FireRow(env, s.db, st.i, st.outboxId, s.now).db
  {
    Escalation.FireAdvances(env, s.db, st.i, st.outboxId, s.now);
    Escalation.FireKeepsEscalation(env, s.db, st.i, st.outboxId, s.now);
    Escalation.FireKeepsPages(env, s.db, st.i, st.outboxId, s.now);
  }

  lemma InsertStepKeeps(env: Env, s: Sys, st: Step)
    requires Escalation.EscalationOk(s.db) && Escalation.PagesOk(s.db)
    requires Enabled(s, st) && st.IngestInsert?
    ensures Escalation.EscalationOk(Apply(env, s, st).db) && Escalation.PagesOk(Apply(env, s, st).db)
  {
    var rec, at := Ingest.RecordOf(s.intake, st.c), s.intake.consumers[st.c].phase.at;
    InsertKeepsEscalation(env, s.db, rec, st.i, st.outboxId, at);
    InsertKeepsPages(env, s.db, rec, st.i, st.outboxId, at);
  }

  lemma QuietStepKeepsEscalation(env: Env, s: Sys, st: Step)
    requires Escalation.EscalationOk(s.db)
    requires Enabled(s, st) && !st.Fire? && !st.Close? && !st.IngestInsert?
    ensures Escalation.EscalationOk(Apply(env, s, st).db)
  {
    OnlyClaimsMove(env, s, st);
    Escalation.EscalationFrame(s.db, Apply(env, s, st).db);
  }

  lemma CloseStepKeepsEscalation(env: Env, s: Sys, st: Step)
    requires Escalation.EscalationOk(s.db) && LooksOk(s.db, s.looks)
    requires Enabled(s, st) && st.Close?
    ensures Escalation.EscalationOk(Apply(env, s, st).db)
  {
    Escalation.CloseKeepsEscalation(s.db, s.looks[st.r], s.now);
  }

  lemma StepKeepsEscalation(env: Env, s: Sys, st: Step)
    requires Escalation.EscalationOk(s.db) && Escalation.PagesOk(s.db) && LooksOk(s.db, s.looks)
    requires Enabled(s, st)
    ensures Escalation.EscalationOk(Apply(env, s, st).db)
  {
    if st.Fire? {
      FireStepKeeps(env, s, st);
    } else if st.Close? {
      CloseStepKeepsEscalation(env, s, st);
    } else if st.IngestInsert? {
      InsertStepKeeps(env, s, st);
    } else {
      QuietStepKeepsEscalation(env, s, st);
    }
  }

  lemma InsertKeepsEscalation(env: Env, db: Db, rec: Ingest.Record, i: Id, outboxId: Id, at: Time)
    requires rec.Anomaly? && i !in db.incidents && Escalation.EscalationOk(db)
    ensures var r := Ingest.Insert(env, db, rec, i, outboxId, at);
            r.Some? ==> Escalation.EscalationOk(r.value)
  {
    var r := Ingest.Insert(env, db, rec, i, outboxId, at);
    if r.Some? {
      forall j: Id ensures Escalation.FiredOnce(r.value, j) {
        assert Escalation.FiredOnce(db, j);
        Escalation.LogGrows(db.events, Ingest.CreationEvent(rec, i, at), j);
      }
    }
  }

  lemma StepKeepsPages(env: Env, s: Sys, st: Step)
    requires Escalation.EscalationOk(s.db) && Escalation.PagesOk(s.db)
    requires Enabled(s, st)
    ensures Escalation.PagesOk(Apply(env, s, st).db)
  {
    if st.Fire? {
      FireStepKeeps(env, s, st);
    } else if st.IngestInsert? {
      InsertStepKeeps(env, s, st);
    } else {
      QuietStepKeepsPages(env, s, st);
    }
  }

  lemma QuietStepKeepsPages(env: Env, s: Sys, st: Step)
    requires Escalation.EscalationOk(s.db) && Escalation.PagesOk(s.db)
    requires Enabled(s, st) && !st.Fire? && !st.IngestInsert?
    ensures Escalation.PagesOk(Apply(env, s, st).db)
  {
    StepEvolves(env, s, st);
    PageKeysStay(env, s, st);
    PagesFrame(s.db, Apply(env, s, st).db);
  }

  lemma InsertKeepsPages(env: Env, db: Db, rec: Ingest.Record, i: Id, outboxId: Id, at: Time)
    requires rec.Anomaly? && i !in db.incidents && Escalation.PagesOk(db)
    ensures var r := Ingest.Insert(env, db, rec, i, outboxId, at);
            r.Some? ==> Escalation.PagesOk(r.value)
  {
    var r := Ingest.Insert(env, db, rec, i, outboxId, at);
    if r.Some? {
      assert forall o :: o in r.value.outbox ==>
        if o in db.outbox && r.value.outbox[o] == db.outbox[o] then r.value.outbox[o].incident != i
        else o == outboxId && r.value.outbox[o].incident == i && r.value.outbox[o].tier == 0;
    }
  }

  lemma PagesFrame(d: Db, d': Db)
    requires Escalation.PagesOk(d) && Ingest.Evolves(d, d')
    requires d'.outbox.Keys == d.outbox.Keys
    requires forall o :: o in d.outbox ==>
      d'.outbox[o].incident == d.outbox[o].incident && d'.outbox[o].tier == d.outbox[o].tier
    ensures Escalation.PagesOk(d')
  {
  }

  lemma StepKeepsLooks(env: Env, s: Sys, st: Step)
    requires Escalation.EscalationOk(s.db) && Escalation.PagesOk(s.db) && LooksOk(s.db, s.looks)
    requires Enabled(s, st)
    ensures LooksOk(Apply(env, s, st).db, Apply(env, s, st).looks)
  {
    if st.IngestInsert? {
      InsertKeepsLooks(env, s, st);
    } else {
      LooksAreTrue(env, s, st);
      StepEvolves(env, s, st);
      EvolvesKeepsLooks(s.db, Apply(env, s, st).db, Apply(env, s, st).looks);
    }
  }

  /** A new look saw the row as it is; the others are kept or dropped. */
  lemma LooksAreTrue(env: Env, s: Sys, st: Step)
    requires Enabled(s, st) && LooksOk(s.db, s.looks)
    ensures LooksOk(s.db, Apply(env, s, st).looks)
  {
  }

  lemma InsertKeepsLooks(env: Env, s: Sys, st: Step)
    requires Enabled(s, st) && st.IngestInsert? && LooksOk(s.db, s.looks)
    ensures LooksOk(Apply(env, s, st).db, Apply(env, s, st).looks)
  {
    assert Apply(env, s, st).looks == s.looks;
  }

  lemma EvolvesKeepsLooks(d: Db, d': Db, looks: map<Id, Escalation.Seen>)
    requires Ingest.Evolves(d, d') && LooksOk(d, looks)
    ensures LooksOk(d', looks)
  {
    forall r | r in looks
      ensures && looks[r].incident in d'.incidents
              && (!looks[r].armed ==> d'.incidents[looks[r].incident].nextFireAt.None?)
              && (!looks[r].hasDeadline ==> d'.incidents[looks[r].incident].deadlineAt.None?)
    {
      assert Ingest.RowEvolves(d.incidents[looks[r].incident], d'.incidents[looks[r].incident]);
    }
  }

  lemma StepKeepsTickets(env: Env, s: Sys, st: Step)
    requires Escalation.EscalationOk(s.db) && Escalation.PagesOk(s.db) && Enabled(s, st)
    requires forall k :: k in s.tickets ==> k.1 in s.db.incidents
    ensures var s' := Apply(env, s, st); forall k :: k in s'.tickets ==> k.1 in s'.db.incidents
  {
    if !st.IngestInsert? {
      StepEvolves(env, s, st);
    }
  }

  predicate Untouched(row: OutboxRow) {
    row.status.Pending? && row.attempts == 0 < row.maxAttempts && row.claimedUntil.None?
  }

  /** The outbox gains only untouched PENDING rows and the messages stay. */
  ghost predicate OutboxGrew(d: Db, d': Db) {
    && d'.messages == d.messages
    && d.outbox.Keys <= d'.outbox.Keys
    && forall o :: o in d'.outbox ==> if o in d.outbox then d'.outbox[o] == d.outbox[o] else Untouched(d'.outbox[o])
  }

  lemma RelayFrame(d: Db, d': Db, parcels: map<(Id, Id), Relay.Parcel>, accepted: set<Id>)
    requires Relay.RelayOk(d, parcels, accepted) && OutboxGrew(d, d')
    ensures Relay.RelayOk(d', parcels, accepted)
  {
    forall o: Id ensures Relay.SettledOnce(d', o) {
      assert Relay.SettledOnce(d, o);
    }
  }

  lemma FireGrowsOutbox(env: Env, d: Db, i: Id, outboxId: Id, now: Time)
    requires Escalation.EscalationOk(d) && Escalation.PagesOk(d) && i in d.incidents && outboxId !in d.outbox
    ensures OutboxGrew(d, Escalation.FireRow(env, d, i, outboxId, now).db)
  {
    Escalation.FireAdvances(env, d, i, outboxId, now);
    if Escalation.PassesRecheck(d.incidents[i]) {
      Escalation.FireEffect(env, d, i, outboxId, now);
    }
  }

  lemma InsertGrowsOutbox(env: Env, s: Sys, st: Step)
    requires Enabled(s, st) && st.IngestInsert?
    ensures OutboxGrew(s.db, Apply(env, s, st).db)
  {
    var rec, at := Ingest.RecordOf(s.intake, st.c), s.intake.consumers[st.c].phase.at;
    CreationGrowsOutbox(env, s.db, rec, st.i, st.outboxId, at);
  }

  lemma CreationGrowsOutbox(env: Env, d: Db, rec: Ingest.Record, i: Id, outboxId: Id, at: Time)
    requires rec.Anomaly? && outboxId !in d.outbox
    ensures var r := Ingest.Insert(env, d, rec, i, outboxId, at); r.Some? ==> OutboxGrew(d, r.value)
  {
  }

  lemma QuietKeepsOutbox(env: Env, s: Sys, st: Step)
    requires Enabled(s, st) && !st.Fire? && !st.IngestInsert?
    requires !st.ClaimOutbox? && !st.Send? && !st.SettleParcel? && !st.CrashRelay?
    ensures OutboxGrew(s.db, Apply(env, s, st).db)
  {
  }

  /** Only relays touch parcels and acceptances. */
  lemma RelayStateStays(env: Env, s: Sys, st: Step)
    requires Enabled(s, st) && !st.ClaimOutbox? && !st.Send? && !st.SettleParcel? && !st.CrashRelay?
    ensures Apply(env, s, st).parcels == s.parcels && Apply(env, s, st).accepted == s.accepted
  {
  }

  lemma SettleStepKeepsRelay(env: Env, s: Sys, st: Step)
    requires Relay.RelayOk(s.db, s.parcels, s.accepted) && Enabled(s, st) && st.SettleParcel?
    ensures var s' := Apply(env, s, st); Relay.RelayOk(s'.db, s'.parcels, s'.accepted)
  {
    Relay.SettleKeepsRelay(s.db, s.parcels, s.accepted, (st.w, st.o), env.backoffBase);
  }

  lemma ClaimStepKeepsRelay(env: Env, s: Sys, st: Step)
    requires Relay.RelayOk(s.db, s.parcels, s.accepted) && Enabled(s, st) && st.ClaimOutbox?
    ensures var s' := Apply(env, s, st); Relay.RelayOk(s'.db, s'.parcels, s'.accepted)
  {
    Relay.ClaimKeepsRelay(s.db, s.parcels, s.accepted, st.w, st.ids, s.now, s.now + st.lease);
  }

  lemma SendKeepsRelay(env: Env, s: Sys, st: Step)
    requires Relay.RelayOk(s.db, s.parcels, s.accepted) && Enabled(s, st) && st.Send?
    ensures var s' := Apply(env, s, st); Relay.RelayOk(s'.db, s'.parcels, s'.accepted)
  {
    assert Apply(env, s, st).db == s.db;
  }

  lemma CrashKeepsRelay(env: Env, s: Sys, st: Step)
    requires Relay.RelayOk(s.db, s.parcels, s.accepted) && Enabled(s, st) && st.CrashRelay?
    ensures var s' := Apply(env, s, st); Relay.RelayOk(s'.db, s'.parcels, s'.accepted)
  {
    assert Apply(env, s, st).db == s.db && Apply(env, s, st).accepted == s.accepted;
  }

  lemma StepKeepsRelay(env: Env, s: Sys, st: Step)
    requires Escalation.EscalationOk(s.db) && Escalation.PagesOk(s.db)
    requires Relay.RelayOk(s.db, s.parcels, s.accepted)
    requires Enabled(s, st)
    ensures var s' := Apply(env, s, st); Relay.RelayOk(s'.db, s'.parcels, s'.accepted)
  {
    if st.SettleParcel? {
      SettleStepKeepsRelay(env, s, st);
    } else if st.ClaimOutbox? {
      ClaimStepKeepsRelay(env, s, st);
    } else if st.Send? {
      SendKeepsRelay(env, s, st);
    } else if st.CrashRelay? {
      CrashKeepsRelay(env, s, st);
    } else {
      OtherStepKeepsRelay(env, s, st);
    }
  }

  lemma OtherStepKeepsRelay(env: Env, s: Sys, st: Step)
    requires Escalation.EscalationOk(s.db) && Escalation.PagesOk(s.db)
    requires Relay.RelayOk(s.db, s.parcels, s.accepted)
    requires Enabled(s, st) && !st.ClaimOutbox? && !st.Send? && !st.SettleParcel? && !st.CrashRelay?
    ensures var s' := Apply(env, s, st); Relay.RelayOk(s'.db, s'.parcels, s'.accepted)
  {
    if st.Fire? {
      FireStepKeeps(env, s, st);
      FireGrowsOutbox(env, s.db, st.i, st.outboxId, s.now);
    } else if st.IngestInsert? {
      InsertGrowsOutbox(env, s, st);
    } else {
      QuietKeepsOutbox(env, s, st);
    }
    RelayStateStays(env, s, st);
    RelayFrame(s.db, Apply(env, s, st).db, s.parcels, s.accepted);
  }

  lemma StepKeepsIntake(env: Env, s: Sys, st: Step)
    requires Escalation.EscalationOk(s.db) && Escalation.PagesOk(s.db)
    requires Ingest.IntakeOk(s.db, s.intake)
    requires Enabled(s, st)
    ensures var s' := Apply(env, s, st); Ingest.IntakeOk(s'.db, s'.intake)
  {
    var s' := Apply(env, s, st);
    if st.IngestInsert? {
      InsertKeepsIntake(env, s, st.c, st.i, st.outboxId);
    } else if st.Produce? {
      Ingest.ProducedKeeps(s.db, s.intake, st.p, st.rec);
    } else if st.Join? {
      Ingest.JoinedKeeps(s.db, s.intake, st.c, st.p);
    } else if st.CommitOffset? {
      Ingest.CommittedKeeps(s.db, s.intake, st.c);
    } else if st.CrashConsumer? {
      Ingest.LeftKeeps(s.db, s.intake, st.c);
    } else if st.IngestRead? {
      ReadKeepsIntake(s, st.c);
    } else if st.IngestRecheck? {
      RecheckKeepsIntake(s, st.c);
    } else {
      StepEvolves(env, s, st);
      Ingest.EvolvesKeepsIntake(s.db, s'.db, s.intake);
    }
  }

  lemma ReadKeepsIntake(s: Sys, c: Id)
    requires Ingest.OffsetsOk(s.intake) && Ingest.FatesOk(s.db, s.intake) && Ingest.HasRecord(s.intake, c)
    ensures Ingest.OffsetsOk(AfterRead(s, c)) && Ingest.FatesOk(s.db, AfterRead(s, c))
  {
    var rec := Ingest.RecordOf(s.intake, c);
    if rec.Malformed? {
      var q := Ingest.DeadLettered(s.intake, c);
      Ingest.DlqKeepsFates(s.db, s.intake, q.dlq[|s.intake.dlq|]);
      assert Ingest.OffsetsOk(q) && Ingest.RecordOf(q, c) == rec;
      Ingest.DecidedKeeps(s.db, q, c, Ingest.ToDlq);
    } else if Ingest.EventSeen(s.db.events, rec.eventId) {
      Ingest.DecidedKeeps(s.db, s.intake, c, Ingest.DuplicateEventId);
    } else if Ingest.OpenExists(s.db.incidents, rec.dedupKey) {
      Ingest.DecidedKeeps(s.db, s.intake, c, Ingest.DuplicateOpenDedup);
    } else {
      Ingest.RephaseKeeps(s.db, s.intake, c, Ingest.Checked(s.now));
    }
  }

  lemma RecheckKeepsIntake(s: Sys, c: Id)
    requires Ingest.OffsetsOk(s.intake) && Ingest.FatesOk(s.db, s.intake)
    requires Ingest.HasRecord(s.intake, c) && Ingest.RecordOf(s.intake, c).Anomaly?
    ensures Ingest.OffsetsOk(AfterRecheck(s, c)) && Ingest.FatesOk(s.db, AfterRecheck(s, c))
  {
    var rec := Ingest.RecordOf(s.intake, c);
    if Ingest.EventSeen(s.db.events, rec.eventId) {
      Ingest.DecidedKeeps(s.db, s.intake, c, Ingest.DuplicateEventId);
    } else if Ingest.OpenExists(s.db.incidents, rec.dedupKey) {
      Ingest.DecidedKeeps(s.db, s.intake, c, Ingest.DuplicateOpenDedup);
    } else {
      Ingest.LeftKeeps(s.db, s.intake, c);
    }
  }

  lemma InsertKeepsIntake(env: Env, s: Sys, c: Id, i: Id, outboxId: Id)
    requires Ingest.IntakeOk(s.db, s.intake) && Enabled(s, IngestInsert(c, i, outboxId))
    ensures var s' := Apply(env, s, IngestInsert(c, i, outboxId)); Ingest.IntakeOk(s'.db, s'.intake)
  {
    var rec := Ingest.RecordOf(s.intake, c);
    var at := s.intake.consumers[c].phase.at;
    if Ingest.Insert(env, s.db, rec, i, outboxId, at).Some? {
      Ingest.InsertKeepsSources(env, s.db, rec, i, outboxId, at);
      InsertKeepsFates(env, s, c, i, outboxId);
      Ingest.DecidedKeepsOffsets(s.intake, c, Ingest.MadeIncident(i));
    } else {
      Ingest.RephaseKeeps(s.db, s.intake, c, Ingest.Conflicted);
    }
  }

  lemma InsertKeepsFates(env: Env, s: Sys, c: Id, i: Id, outboxId: Id)
    requires Ingest.FatesOk(s.db, s.intake) && Enabled(s, IngestInsert(c, i, outboxId))
    requires Ingest.Insert(env, s.db, Ingest.RecordOf(s.intake, c), i, outboxId, s.intake.consumers[c].phase.at).Some?
    ensures var s' := Apply(env, s, IngestInsert(c, i, outboxId)); Ingest.FatesOk(s'.db, s'.intake)
  {
    var s' := Apply(env, s, IngestInsert(c, i, outboxId));
    var rec := Ingest.RecordOf(s.intake, c);
    var n := |s.db.events|;
    assert s'.db.events[..n] == s.db.events;
    assert s'.db.events[n].sourceEvent == Some(rec.eventId) && s'.db.events[n].incident == i;
    var here := Ingest.PositionOf(s.intake, c);
    forall f | f in s'.intake.fates
      ensures f.1 < |Ingest.LogOf(s'.intake, f.0)|
              && Ingest.FateOk(s'.db, s'.intake.dlq, f, Ingest.LogOf(s'.intake, f.0)[f.1], s'.intake.fates[f])
    {
      if f != here {
        Ingest.EvolvesKeepsFate(s.db, s'.db, s.intake.dlq, f, Ingest.LogOf(s.intake, f.0)[f.1], s.intake.fates[f]);
      }
    }
  }

  /** Every step keeps the invariant. */
  lemma StepKeepsInv(env: Env, s: Sys, st: Step)
    requires Inv(s) && Enabled(s, st)
    ensures Inv(Apply(env, s, st))
  {
    StepKeepsEscalation(env, s, st);
    StepKeepsPages(env, s, st);
    StepKeepsLooks(env, s, st);
    StepKeepsTickets(env, s, st);
    StepKeepsRelay(env, s, st);
    StepKeepsIntake(env, s, st);
  }

  /** The invariant holds after every feasible run from an empty database. */
  lemma {:induction false} RunKeepsInv(env: Env, s: Sys, steps: seq<Step>)
    requires Inv(s) && Feasible(env, s, steps)
    ensures Inv(Run(env, s, steps))
    decreases |steps|
  {
    if steps != [] {
      RunKeepsInv(env, s, steps[..|steps| - 1]);
      StepKeepsInv(env, Run(env, s, steps[..|steps| - 1]), steps[|steps| - 1]);
    }
  }

  lemma ReachableInv(env: Env, s: Sys, steps: seq<Step>)
    requires Init(s) && Feasible(env, s, steps)
    ensures Inv(Run(env, s, steps))
  {
    InitInv(s);
    RunKeepsInv(env, s, steps);
  }

  lemma RelayPart(s: Sys)
    requires Inv(s)
    ensures Relay.RelayOk(s.db, s.parcels, s.accepted)
  {
  }

  lemma IntakePart(s: Sys)
    requires Inv(s)
    ensures Ingest.IntakeOk(s.db, s.intake)
  {
  }

  lemma EscalationPart(s: Sys)
    requires Inv(s)
    ensures Escalation.EscalationOk(s.db) && Escalation.PagesOk(s.db) && LooksOk(s.db, s.looks)
  {
  }

  // What a run from an empty database keeps, one part at a time.

  lemma EscalationHolds(env: Env, s: Sys, steps: seq<Step>)
    requires Init(s) && Feasible(env, s, steps)
    ensures Escalation.EscalationOk(Run(env, s, steps).db) && Escalation.PagesOk(Run(env, s, steps).db)
  {
    ReachableInv(env, s, steps);
    EscalationPart(Run(env, s, steps));
  }

  lemma RelayHolds(env: Env, s: Sys, steps: seq<Step>)
    requires Init(s) && Feasible(env, s, steps)
    ensures var f := Run(env, s, steps); Relay.RelayOk(f.db, f.parcels, f.accepted)
  {
    ReachableInv(env, s, steps);
    RelayPart(Run(env, s, steps));
  }

  lemma IntakeHolds(env: Env, s: Sys, steps: seq<Step>)
    requires Init(s) && Feasible(env, s, steps)
    ensures var f := Run(env, s, steps); Ingest.IntakeOk(f.db, f.intake)
  {
    ReachableInv(env, s, steps);
    IntakePart(Run(env, s, steps));
  }
}
