/** One escalation transition, the claim that precedes it, and the actions that close an incident,
    as functions on the tables; and the invariants that tie an incident row to the audit log, the
    idempotency table and the outbox. */
module Escalation {
  import opened Model

  datatype Transition = Transition(status: Status, tier: nat, event: EventKind, role: Option<Role>)

  /** The transition table, keyed by (status, current tier). */
  function TransitionFor(s: Status, tier: nat): Option<Transition> {
    match (s, tier)
    case (AwaitingOperator, 0) => Some(Transition(Tier1, 1, Tier1Fired, Some(FloorManager)))
    case (Tier1, 1) => Some(Transition(Tier2, 2, Tier2Fired, Some(PlantDirector)))
    case (Tier2, 2) => Some(Transition(CriticalUnresolved, 3, CriticalFired, None))
    case _ => None
  }

  // ----- claims -----

  predicate Claimable(inc: Incident, now: Time) {
    && Active(inc.status)
    && inc.nextFireAt.Some? && inc.nextFireAt.value <= now
    && (inc.claimedUntil.None? || inc.claimedUntil.value < now)
  }

  function ClaimRows(rows: map<Id, Incident>, w: Id, ids: set<Id>, until: Time): map<Id, Incident> {
    map i | i in rows ::
      if i in ids then rows[i].(claimedBy := Some(w), claimedUntil := Some(until)) else rows[i]
  }

  function ReleaseClaim(db: Db, i: Id): Db
    requires i in db.incidents
  {
    db.(incidents := db.incidents[i := db.incidents[i].(claimedBy := None, claimedUntil := None)])
  }

  // ----- firing -----

  datatype Outcome = NotEligible | SkippedIdempotent | UniqueViolation | Fired(status: Status)

  datatype FireResult = FireResult(outcome: Outcome, db: Db)

  /** Tier configuration is looked up only when the next status is not terminal. */
  function ConfigFor(env: Env, facts: Facts, tr: Transition, now: Time): Option<TierConfig> {
    if tr.status.CriticalUnresolved? then None else env.config(facts, tr.tier, now)
  }

  function TimerFor(env: Env, facts: Facts, tr: Transition, now: Time): Option<Time> {
    match ConfigFor(env, facts, tr, now)
    case None => None
    case Some(cfg) => Some(now + Seconds(cfg.delaySeconds))
  }

  function AdvancedRow(env: Env, inc: Incident, tr: Transition, now: Time): Incident {
    var timer := TimerFor(env, inc.facts, tr, now);
    inc.(status := tr.status, currentTier := tr.tier, nextFireAt := timer, deadlineAt := timer,
         claimedBy := None, claimedUntil := None, updatedAt := now)
  }

  /** The outbox row of a transition: only when both a recipient and a configuration exist. */
  function PageFor(env: Env, i: Id, facts: Facts, tr: Transition, now: Time): Option<OutboxRow> {
    match (tr.role, ConfigFor(env, facts, tr, now))
    case (Some(role), Some(cfg)) =>
      (match env.onCall(role, facts, now)
       case Some(phone) => Some(NewOutboxRow(i, tr.tier, phone, cfg.template, now))
       case None => None)
    case _ => None
  }

  function FireEvent(i: Id, inc: Incident, tr: Transition, now: Time): Event {
    Event(i, tr.event, Some(inc.status), tr.status, tr.tier, None, now)
  }

  /** One committed (or rolled back) transition transaction on a row locked FOR UPDATE.
      A violation of the outbox key rolls the whole transaction back. */
  function FireTransition(env: Env, db: Db, i: Id, outboxId: Id, now: Time): FireResult
    requires i in db.incidents
  {
    var inc := db.incidents[i];
    match TransitionFor(inc.status, inc.currentTier)
    case None => FireResult(NotEligible, db)
    case Some(tr) =>
      if (i, tr.tier) in db.idempotency then
        FireResult(SkippedIdempotent, db)
      else
        var page := PageFor(env, i, inc.facts, tr, now);
        if page.Some? && KeyTaken(db.outbox, i, tr.tier) then
          FireResult(UniqueViolation, db)
        else
          FireResult(
            Fired(tr.status),
            db.(incidents := db.incidents[i := AdvancedRow(env, inc, tr, now)],
                idempotency := db.idempotency + {(i, tr.tier)},
                events := db.events + [FireEvent(i, inc, tr, now)],
                outbox := if page.Some? then db.outbox[outboxId := page.value] else db.outbox))
  }

  /** The worker's re-check under the row lock: status active and a timer set.
      It does not compare the timer with the clock. */
  predicate PassesRecheck(inc: Incident) {
    Active(inc.status) && inc.nextFireAt.Some?
  }

  function FireRow(env: Env, db: Db, i: Id, outboxId: Id, now: Time): FireResult
    requires i in db.incidents
  {
    if PassesRecheck(db.incidents[i]) then FireTransition(env, db, i, outboxId, now)
    else FireResult(NotEligible, db)
  }

  // ----- closing -----

  datatype Action = HttpAck | HttpResolve | Reply(keyword: string)

  datatype Closing = NoClose | ToAcknowledged | ToResolved

  const ACK_KEYWORDS: set<string> := {"ACK", "ACKNOWLEDGE", "NOTED"}
  const RESOLVE_KEYWORDS: set<string> := {"RESOLVED", "RESOLVE", "DONE", "FIXED", "CLOSED"}

  /** What an action does to an incident it read in the given status. */
  function Decide(action: Action, s: Status): Closing {
    match action
    case HttpAck => if Active(s) then ToAcknowledged else NoClose
    case HttpResolve => if Active(s) || s.Acknowledged? then ToResolved else NoClose
    case Reply(k) =>
      if k in ACK_KEYWORDS && Active(s) then ToAcknowledged
      else if k in RESOLVE_KEYWORDS && (Active(s) || s.Acknowledged?) then ToResolved
      else NoClose
  }

  /** What an action remembers of the row it read without a lock.  The later UPDATE names only the
      columns whose value changes from what was read, so it clears a timer only if it saw one. */
  datatype Seen = Seen(
    incident: Id, action: Action, status: Status, tier: nat, armed: bool, hasDeadline: bool, at: Time)

  function Look(i: Id, inc: Incident, action: Action, now: Time): Seen {
    Seen(i, action, inc.status, inc.currentTier, inc.nextFireAt.Some?, inc.deadlineAt.Some?, now)
  }

  function ClosedRow(inc: Incident, seen: Seen): Incident {
    var stopped := inc.(nextFireAt := if seen.armed then None else inc.nextFireAt,
                        deadlineAt := if seen.hasDeadline then None else inc.deadlineAt,
                        updatedAt := seen.at);
    match Decide(seen.action, seen.status)
    case NoClose => inc
    case ToAcknowledged => stopped.(status := Acknowledged, ackedAt := Some(seen.at))
    case ToResolved => stopped.(status := Resolved, resolvedAt := Some(seen.at))
  }

  function CloseEvents(seen: Seen, now: Time): seq<Event> {
    var from := Some(seen.status);
    (if seen.action.Reply? then
       [Event(seen.incident, ReplyReceived, from, seen.status, seen.tier, None, now)]
     else [])
    + (match Decide(seen.action, seen.status)
       case NoClose => []
       case ToAcknowledged => [Event(seen.incident, AckEvent, from, Acknowledged, seen.tier, None, now)]
       case ToResolved => [Event(seen.incident, ResolvedEvent, from, Resolved, seen.tier, None, now)])
  }

  function CloseWrite(db: Db, seen: Seen, now: Time): Db
    requires seen.incident in db.incidents
  {
    db.(incidents := db.incidents[seen.incident := ClosedRow(db.incidents[seen.incident], seen)],
        events := db.events + CloseEvents(seen, now))
  }

  // ----- reading the audit log -----

  predicate IsFire(k: EventKind) {
    k.Tier1Fired? || k.Tier2Fired? || k.CriticalFired?
  }

  /** The fire events of incident i, in log order. */
  ghost function FiresOf(log: seq<Event>, i: Id): seq<Event> {
    if log == [] then []
    else
      var e := log[|log| - 1];
      if e.incident == i && IsFire(e.kind) then FiresOf(log[..|log| - 1], i) + [e]
      else FiresOf(log[..|log| - 1], i)
  }

  /** The status the log last gave incident i. */
  ghost function Tip(log: seq<Event>, i: Id): Option<Status> {
    if log == [] then None
    else if log[|log| - 1].incident == i then Some(log[|log| - 1].toState)
    else Tip(log[..|log| - 1], i)
  }

  /** Each event of i starts from the status the previous one reached. */
  ghost predicate Connected(log: seq<Event>, i: Id) {
    log != [] ==>
      && Connected(log[..|log| - 1], i)
      && (log[|log| - 1].incident == i ==> log[|log| - 1].fromState == Tip(log[..|log| - 1], i))
  }

  lemma LogGrows(log: seq<Event>, e: Event, i: Id)
    ensures FiresOf(log + [e], i)
         == if e.incident == i && IsFire(e.kind) then FiresOf(log, i) + [e] else FiresOf(log, i)
    ensures Tip(log + [e], i) == if e.incident == i then Some(e.toState) else Tip(log, i)
    ensures Connected(log + [e], i)
        <==> Connected(log, i) && (e.incident == i ==> e.fromState == Tip(log, i))
  {
    assert (log + [e])[..|log|] == log;
  }

  /** The events a close appends are no fire events and concern only its own incident. */
  lemma CloseGrows(log: seq<Event>, seen: Seen, now: Time, i: Id)
    ensures FiresOf(log + CloseEvents(seen, now), i) == FiresOf(log, i)
    ensures i != seen.incident ==>
              && Tip(log + CloseEvents(seen, now), i) == Tip(log, i)
              && Connected(log + CloseEvents(seen, now), i) == Connected(log, i)
    ensures i == seen.incident && CloseEvents(seen, now) != [] ==>
              && Tip(log + CloseEvents(seen, now), i)
                 == Some(match Decide(seen.action, seen.status)
                         case NoClose => seen.status
                         case ToAcknowledged => Acknowledged
                         case ToResolved => Resolved)
              && (Connected(log + CloseEvents(seen, now), i)
                  <==> Connected(log, i) && Tip(log, i) == Some(seen.status))
  {
    var es := CloseEvents(seen, now);
    if |es| == 0 {
      assert log + es == log;
    } else {
      LogGrows(log, es[0], i);
      if |es| == 1 {
        assert log + es == log + [es[0]];
      } else {
        assert log + es == (log + [es[0]]) + [es[1]];
        LogGrows(log + [es[0]], es[1], i);
      }
    }
  }

  // ----- invariants of the tables -----

  const FIRE_ORDER: seq<EventKind> := [Tier1Fired, Tier2Fired, CriticalFired]

  predicate TierMatches(s: Status, tier: nat) {
    match s
    case AwaitingOperator => tier == 0
    case Tier1 => tier == 1
    case Tier2 => tier == 2
    case CriticalUnresolved => tier == 3
    case _ => tier <= 3
  }

  /** An active status matches its tier, the deadline shown is the timer, and a row that is not
      active has neither. */
  predicate RowOk(inc: Incident) {
    && TierMatches(inc.status, inc.currentTier)
    && inc.deadlineAt == inc.nextFireAt
    && (!Active(inc.status) ==> inc.nextFireAt.None?)
  }

  function TierOf(db: Db, i: Id): nat {
    if i in db.incidents then db.incidents[i].currentTier else 0
  }

  /** Exactly the tiers 1..current_tier have fired, once each and in order. */
  ghost predicate FiredOnce(db: Db, i: Id) {
    && TierOf(db, i) <= 3
    && (forall t: nat :: (i, t) in db.idempotency <==> 1 <= t <= TierOf(db, i))
    && |FiresOf(db.events, i)| == TierOf(db, i)
    && (forall k :: 0 <= k < TierOf(db, i) ==> FiresOf(db.events, i)[k].kind == FIRE_ORDER[k])
  }

  ghost predicate EscalationOk(db: Db) {
    && (forall i :: i in db.incidents ==> RowOk(db.incidents[i]))
    && (forall i: Id :: FiredOnce(db, i))
  }

  /** Each page belongs to a tier its incident has reached, tier 3 has none, and no two pages share
      an (incident, tier) key. */
  ghost predicate PagesOk(db: Db) {
    && (forall o :: o in db.outbox ==>
          && db.outbox[o].incident in db.incidents
          && db.outbox[o].tier <= db.incidents[db.outbox[o].incident].currentTier
          && db.outbox[o].tier <= 2)
    && (forall o, p :: o in db.outbox && p in db.outbox
          && db.outbox[o].incident == db.outbox[p].incident && db.outbox[o].tier == db.outbox[p].tier
          ==> o == p)
  }

  /** On tables that satisfy the invariants a row that passes the re-check always fires: the
      idempotency insert never conflicts, and neither does the outbox key. */
  lemma FireAdvances(env: Env, db: Db, i: Id, outboxId: Id, now: Time)
    requires EscalationOk(db) && PagesOk(db) && i in db.incidents
    ensures var inc := db.incidents[i];
            var r := FireRow(env, db, i, outboxId, now);
            if PassesRecheck(inc) then
              && TransitionFor(inc.status, inc.currentTier).Some?
              && (i, inc.currentTier + 1) !in db.idempotency
              && !KeyTaken(db.outbox, i, inc.currentTier + 1)
              && r.outcome == Fired(TransitionFor(inc.status, inc.currentTier).value.status)
              && i in r.db.incidents && r.db.incidents[i].currentTier == inc.currentTier + 1
            else
              r.outcome == NotEligible && r.db == db
  {
    assert FiredOnce(db, i);
    assert RowOk(db.incidents[i]);
  }

  /** What a firing transaction leaves behind, column by column. */
  lemma FireEffect(env: Env, db: Db, i: Id, outboxId: Id, now: Time)
    requires EscalationOk(db) && PagesOk(db) && i in db.incidents && PassesRecheck(db.incidents[i])
    ensures TransitionFor(db.incidents[i].status, db.incidents[i].currentTier).Some?
    ensures var inc := db.incidents[i];
            var tr := TransitionFor(inc.status, inc.currentTier).value;
            var page := PageFor(env, i, inc.facts, tr, now);
            FireRow(env, db, i, outboxId, now).db
            == Db(db.incidents[i := AdvancedRow(env, inc, tr, now)],
                  db.idempotency + {(i, inc.currentTier + 1)},
                  db.events + [FireEvent(i, inc, tr, now)],
                  if page.Some? then db.outbox[outboxId := page.value] else db.outbox,
                  db.messages)
  {
    FireAdvances(env, db, i, outboxId, now);
  }

  lemma FireKeepsEscalation(env: Env, db: Db, i: Id, outboxId: Id, now: Time)
    requires EscalationOk(db) && PagesOk(db) && i in db.incidents
    ensures EscalationOk(FireRow(env, db, i, outboxId, now).db)
  {
    var inc := db.incidents[i];
    if PassesRecheck(inc) {
      FireEffect(env, db, i, outboxId, now);
      var tr := TransitionFor(inc.status, inc.currentTier).value;
      var d := FireRow(env, db, i, outboxId, now).db;
      assert d.idempotency == db.idempotency + {(i, inc.currentTier + 1)};
      forall j: Id ensures FiredOnce(d, j) {
        assert FiredOnce(db, j);
        FireCounts(db, d, i, FireEvent(i, inc, tr, now), j);
      }
    }
  }

  /** The event and the idempotency row of a fire carry incident i to its next tier, and leave j where it was. */
  lemma FireCounts(db: Db, d: Db, i: Id, e: Event, j: Id)
    requires FiredOnce(db, j) && i in db.incidents && i in d.incidents && d.incidents.Keys == db.incidents.Keys
    requires db.incidents[i].currentTier <= 2 && d.incidents[i].currentTier == db.incidents[i].currentTier + 1
    requires j in db.incidents && j != i ==> d.incidents[j] == db.incidents[j]
    requires d.idempotency == db.idempotency + {(i, db.incidents[i].currentTier + 1)}
    requires d.events == db.events + [e] && e.incident == i && e.kind == FIRE_ORDER[db.incidents[i].currentTier]
    ensures FiredOnce(d, j)
  {
    LogGrows(db.events, e, j);
    if j == i {
      OneMoreFire(FiresOf(db.events, i), e, db.incidents[i].currentTier);
      assert forall t: nat :: (i, t) in d.idempotency <==> (i, t) in db.idempotency || t == TierOf(d, i);
    } else {
      assert forall t: nat :: (j, t) in d.idempotency <==> (j, t) in db.idempotency;
    }
  }

  lemma OneMoreFire(fires: seq<Event>, e: Event, tier: nat)
    requires |fires| == tier <= 2 && e.kind == FIRE_ORDER[tier]
    requires forall k :: 0 <= k < tier ==> fires[k].kind == FIRE_ORDER[k]
    ensures forall k :: 0 <= k < tier + 1 ==> (fires + [e])[k].kind == FIRE_ORDER[k]
  {
  }

  lemma FireKeepsPages(env: Env, db: Db, i: Id, outboxId: Id, now: Time)
    requires EscalationOk(db) && PagesOk(db) && i in db.incidents && outboxId !in db.outbox
    ensures PagesOk(FireRow(env, db, i, outboxId, now).db)
  {
    if PassesRecheck(db.incidents[i]) {
      FireEffect(env, db, i, outboxId, now);
      FireAdvances(env, db, i, outboxId, now);
    }
  }

  lemma CloseKeepsEscalation(db: Db, seen: Seen, now: Time)
    requires EscalationOk(db) && seen.incident in db.incidents
    requires !seen.armed ==> db.incidents[seen.incident].nextFireAt.None?
    requires !seen.hasDeadline ==> db.incidents[seen.incident].deadlineAt.None?
    ensures EscalationOk(CloseWrite(db, seen, now))
  {
    var d := CloseWrite(db, seen, now);
    assert RowOk(db.incidents[seen.incident]) && FiredOnce(db, seen.incident);
    forall j: Id ensures FiredOnce(d, j) {
      assert FiredOnce(db, j);
      CloseGrows(db.events, seen, now, j);
    }
  }

  lemma EscalationFrame(d: Db, d': Db)
    requires EscalationOk(d) && d'.events == d.events && d'.idempotency == d.idempotency
    requires d'.incidents.Keys == d.incidents.Keys
    requires forall i :: i in d.incidents ==>
      && d'.incidents[i].status == d.incidents[i].status
      && d'.incidents[i].currentTier == d.incidents[i].currentTier
      && d'.incidents[i].nextFireAt == d.incidents[i].nextFireAt
      && d'.incidents[i].deadlineAt == d.incidents[i].deadlineAt
    ensures EscalationOk(d')
  {
    forall i: Id ensures FiredOnce(d', i) {
      assert FiredOnce(d, i);
    }
  }
}
