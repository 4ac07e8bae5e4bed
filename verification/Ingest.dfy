/** Turning records of the anomaly log into incidents, and the offset bookkeeping around it. */
module Ingest {
  import opened Model

  datatype Record = Malformed(raw: string) | Anomaly(eventId: Id, dedupKey: string, facts: Facts)

  /** An entry of the dead-letter topic: the raw value, and where the record stood in the anomaly log. */
  datatype DeadLetter = DeadLetter(partition: Id, offset: nat, raw: string)

  // ----- the creating transaction -----

  predicate EventSeen(events: seq<Event>, eventId: Id) {
    exists k :: 0 <= k < |events| && events[k].sourceEvent == Some(eventId)
  }

  predicate OpenExists(incidents: map<Id, Incident>, dedupKey: string) {
    exists i :: i in incidents && incidents[i].dedupKey == dedupKey && Active(incidents[i].status)
  }

  function NewIncident(env: Env, rec: Record, at: Time): Incident
    requires rec.Anomaly?
  {
    var due := Some(at + Seconds(env.graceSeconds));
    Incident(rec.facts, rec.dedupKey, AwaitingOperator, 0, due, due, None, None, None, None, at, at)
  }

  function CreationEvent(rec: Record, i: Id, at: Time): Event
    requires rec.Anomaly?
  {
    Event(i, CreatedEvent, None, AwaitingOperator, 0, Some(rec.eventId), at)
  }

  /** The operator's page for tier 0, when a recipient and a configuration exist. */
  function OperatorPage(env: Env, rec: Record, i: Id, at: Time): Option<OutboxRow>
    requires rec.Anomaly?
  {
    match (env.config(rec.facts, 0, at), env.onCall(Operator, rec.facts, at))
    case (Some(cfg), Some(phone)) => Some(NewOutboxRow(i, 0, phone, cfg.template, at))
    case _ => None
  }

  /** The inserts of one creating transaction, all or nothing: None when a unique index refuses one
      of them (an open incident with the dedup key, the source event id, or the outbox key). */
  function Insert(env: Env, db: Db, rec: Record, i: Id, outboxId: Id, at: Time): Option<Db>
    requires rec.Anomaly?
  {
    var page := OperatorPage(env, rec, i, at);
    if OpenExists(db.incidents, rec.dedupKey) || EventSeen(db.events, rec.eventId)
       || (page.Some? && KeyTaken(db.outbox, i, 0)) then None
    else
      Some(db.(incidents := db.incidents[i := NewIncident(env, rec, at)],
               events := db.events + [CreationEvent(rec, i, at)],
               outbox := if page.Some? then db.outbox[outboxId := page.value] else db.outbox))
  }

  // ----- what handling a record came to -----

  datatype Fate = ToDlq | MadeIncident(i: Id) | DuplicateEventId | DuplicateOpenDedup

  /** The fate of the record at (partition, offset) shows in the tables or in the dead-letter topic. */
  ghost predicate FateOk(db: Db, dlq: seq<DeadLetter>, at: (Id, nat), rec: Record, fate: Fate) {
    match fate
    case ToDlq => rec.Malformed? && DeadLetter(at.0, at.1, rec.raw) in dlq
    case MadeIncident(i) =>
      && rec.Anomaly? && i in db.incidents && db.incidents[i].dedupKey == rec.dedupKey
      && (exists k :: 0 <= k < |db.events| && db.events[k].sourceEvent == Some(rec.eventId)
                      && db.events[k].incident == i)
    case DuplicateEventId => rec.Anomaly? && EventSeen(db.events, rec.eventId)
    case DuplicateOpenDedup =>
      rec.Anomaly? && (exists i :: i in db.incidents && db.incidents[i].dedupKey == rec.dedupKey)
  }

  // ----- consumers and offsets -----

  /** Ready: at a record, nothing read.  Checked: both lookups found nothing.  Conflicted: an insert
      was refused and rolled back.  Handled: the transaction is over, the offset not yet committed. */
  datatype Phase = Ready | Checked(at: Time) | Conflicted | Handled

  datatype Consumer = Consumer(partition: Id, pos: nat, phase: Phase)

  datatype Intake = Intake(
    log: map<Id, seq<Record>>,
    committed: map<Id, nat>,
    consumers: map<Id, Consumer>,
    fates: map<(Id, nat), Fate>,
    dlq: seq<DeadLetter>)

  const EMPTY_INTAKE := Intake(map[], map[], map[], map[], [])

  function LogOf(q: Intake, p: Id): seq<Record> {
    if p in q.log then q.log[p] else []
  }

  function CommittedOf(q: Intake, p: Id): nat {
    if p in q.committed then q.committed[p] else 0
  }

  /** The consumer has a record to work on. */
  predicate HasRecord(q: Intake, c: Id) {
    c in q.consumers && q.consumers[c].pos < |LogOf(q, q.consumers[c].partition)|
  }

  function RecordOf(q: Intake, c: Id): Record
    requires HasRecord(q, c)
  {
    LogOf(q, q.consumers[c].partition)[q.consumers[c].pos]
  }

  function PositionOf(q: Intake, c: Id): (Id, nat)
    requires c in q.consumers
  {
    (q.consumers[c].partition, q.consumers[c].pos)
  }

  function Rephase(q: Intake, c: Id, phase: Phase): Intake
    requires c in q.consumers
  {
    q.(consumers := q.consumers[c := q.consumers[c].(phase := phase)])
  }

  function Decided(q: Intake, c: Id, fate: Fate): Intake
    requires c in q.consumers
  {
    Rephase(q.(fates := q.fates[PositionOf(q, c) := fate]), c, Handled)
  }

  /** The record goes to the dead-letter topic; the consumer's offset is still uncommitted then. */
  function DeadLettered(q: Intake, c: Id): Intake
    requires HasRecord(q, c) && RecordOf(q, c).Malformed?
  {
    var at := PositionOf(q, c);
    q.(dlq := q.dlq + [DeadLetter(at.0, at.1, RecordOf(q, c).raw)])
  }

  // ----- invariants -----

  /** Incidents and source event ids correspond one to one: every incident has a creation event,
      no two events share a source id, and no incident has two. */
  ghost predicate SourcesOk(db: Db) {
    && (forall k :: 0 <= k < |db.events| ==>
          && db.events[k].incident in db.incidents
          && (db.events[k].kind.CreatedEvent? <==> db.events[k].sourceEvent.Some?))
    && (forall i :: i in db.incidents ==> HasSource(db.events, i))
    && SourcesUnique(db.events)
  }

  ghost predicate HasSource(events: seq<Event>, i: Id) {
    exists k :: 0 <= k < |events| && events[k].incident == i && events[k].sourceEvent.Some?
  }

  ghost predicate SourcesUnique(events: seq<Event>) {
    forall j, k :: 0 <= j < k < |events| && events[j].sourceEvent.Some? && events[k].sourceEvent.Some? ==>
      events[j].sourceEvent != events[k].sourceEvent && events[j].incident != events[k].incident
  }

  ghost predicate OpenKeysOk(incidents: map<Id, Incident>) {
    forall i, j ::
      (i in incidents && j in incidents && Active(incidents[i].status) && Active(incidents[j].status)
       && incidents[i].dedupKey == incidents[j].dedupKey) ==> i == j
  }

  /** Everything below a committed offset, or behind a consumer, has been dealt with. */
  ghost predicate OffsetsOk(q: Intake) {
    && (forall p: Id, o: nat :: o < CommittedOf(q, p) ==> (p, o) in q.fates)
    && (forall c, o: nat :: c in q.consumers && o < q.consumers[c].pos ==> (q.consumers[c].partition, o) in q.fates)
    && (forall c :: c in q.consumers ==>
          match q.consumers[c].phase
          case Ready => true
          case Handled => PositionOf(q, c) in q.fates
          case _ => HasRecord(q, c) && RecordOf(q, c).Anomaly?)
  }

  ghost predicate FatesOk(db: Db, q: Intake) {
    forall f :: f in q.fates ==>
      f.1 < |LogOf(q, f.0)| && FateOk(db, q.dlq, f, LogOf(q, f.0)[f.1], q.fates[f])
  }

  ghost predicate IntakeOk(db: Db, q: Intake) {
    SourcesOk(db) && OpenKeysOk(db.incidents) && OffsetsOk(q) && FatesOk(db, q)
  }

  // ----- what every other transaction keeps -----

  /** A change to the tables that creates no incident: rows keep their identity, none becomes active,
      a cleared timer stays cleared, and the log only grows, by events without a source id. */
  ghost predicate Evolves(d: Db, d': Db) {
    && d'.incidents.Keys == d.incidents.Keys
    && (forall i :: i in d.incidents ==> RowEvolves(d.incidents[i], d'.incidents[i]))
    && |d.events| <= |d'.events| && d'.events[..|d.events|] == d.events
    && (forall k :: |d.events| <= k < |d'.events| ==>
          && d'.events[k].incident in d.incidents
          && !d'.events[k].kind.CreatedEvent? && d'.events[k].sourceEvent.None?)
  }

  predicate RowEvolves(a: Incident, b: Incident) {
    && b.facts == a.facts && b.dedupKey == a.dedupKey && b.createdAt == a.createdAt
    && b.currentTier >= a.currentTier
    && (Active(b.status) ==> Active(a.status))
    && (a.nextFireAt.None? ==> b.nextFireAt.None?)
    && (a.deadlineAt.None? ==> b.deadlineAt.None?)
  }

  lemma EvolvesKeepsSources(d: Db, d': Db)
    requires Evolves(d, d') && SourcesOk(d)
    ensures SourcesOk(d')
  {
    assert forall k :: 0 <= k < |d.events| ==> d'.events[k] == d'.events[..|d.events|][k];
    forall i | i in d'.incidents
      ensures HasSource(d'.events, i)
    {
      assert HasSource(d.events, i);
      var k :| 0 <= k < |d.events| && d.events[k].incident == i && d.events[k].sourceEvent.Some?;
      assert d'.events[k] == d.events[k];
    }
  }

  lemma EvolvesKeepsFate(d: Db, d': Db, dlq: seq<DeadLetter>, at: (Id, nat), rec: Record, fate: Fate)
    requires d.incidents.Keys <= d'.incidents.Keys
    requires forall i :: i in d.incidents ==> d'.incidents[i].dedupKey == d.incidents[i].dedupKey
    requires |d.events| <= |d'.events| && d'.events[..|d.events|] == d.events
    requires FateOk(d, dlq, at, rec, fate)
    ensures FateOk(d', dlq, at, rec, fate)
  {
    assert forall k :: 0 <= k < |d.events| ==> d'.events[k] == d'.events[..|d.events|][k];
    match fate
    case MadeIncident(i) =>
      var k :| 0 <= k < |d.events| && d.events[k].sourceEvent == Some(rec.eventId) && d.events[k].incident == i;
      assert d'.events[k] == d.events[k];
    case DuplicateEventId =>
      var k :| 0 <= k < |d.events| && d.events[k].sourceEvent == Some(rec.eventId);
      assert d'.events[k] == d.events[k];
    case _ =>
  }

  lemma EvolvesKeepsIntake(d: Db, d': Db, q: Intake)
    requires Evolves(d, d') && IntakeOk(d, q)
    ensures IntakeOk(d', q)
  {
    EvolvesKeepsSources(d, d');
    forall f | f in q.fates ensures FateOk(d', q.dlq, f, LogOf(q, f.0)[f.1], q.fates[f]) {
      EvolvesKeepsFate(d, d', q.dlq, f, LogOf(q, f.0)[f.1], q.fates[f]);
    }
  }

  lemma InsertKeepsSources(env: Env, db: Db, rec: Record, i: Id, o: Id, at: Time)
    requires rec.Anomaly? && SourcesOk(db) && OpenKeysOk(db.incidents) && i !in db.incidents
    requires Insert(env, db, rec, i, o, at).Some?
    ensures SourcesOk(Insert(env, db, rec, i, o, at).value)
    ensures OpenKeysOk(Insert(env, db, rec, i, o, at).value.incidents)
  {
    var d := Insert(env, db, rec, i, o, at).value;
    var e := CreationEvent(rec, i, at);
    assert d.events == db.events + [e];
    NewSourceIsUnique(db, e);
    forall j | j in d.incidents ensures HasSource(d.events, j) {
      HasSourceGrows(db.events, e, j);
    }
  }

  lemma NewSourceIsUnique(db: Db, e: Event)
    requires SourcesOk(db) && e.incident !in db.incidents
    requires e.sourceEvent.Some? && !EventSeen(db.events, e.sourceEvent.value)
    ensures SourcesUnique(db.events + [e])
  {
    assert forall k :: 0 <= k < |db.events| ==> db.events[k].sourceEvent != e.sourceEvent;
    var all := db.events + [e];
    forall j, k | 0 <= j < k < |all| && all[j].sourceEvent.Some? && all[k].sourceEvent.Some?
      ensures all[j].sourceEvent != all[k].sourceEvent && all[j].incident != all[k].incident
    {
      assert all[j] == db.events[j];
      if k < |db.events| {
        assert all[k] == db.events[k];
      }
    }
  }

  lemma HasSourceGrows(events: seq<Event>, e: Event, i: Id)
    requires HasSource(events, i) || (e.incident == i && e.sourceEvent.Some?)
    ensures HasSource(events + [e], i)
  {
    var all := events + [e];
    if HasSource(events, i) {
      var k :| 0 <= k < |events| && events[k].incident == i && events[k].sourceEvent.Some?;
      assert all[k] == events[k];
    } else {
      assert all[|events|] == e;
    }
  }

  // ----- the consumers' own steps -----

  lemma DecidedKeeps(db: Db, q: Intake, c: Id, fate: Fate)
    requires OffsetsOk(q) && FatesOk(db, q) && HasRecord(q, c)
    requires FateOk(db, q.dlq, PositionOf(q, c), RecordOf(q, c), fate)
    ensures OffsetsOk(Decided(q, c, fate)) && FatesOk(db, Decided(q, c, fate))
  {
    DecidedKeepsOffsets(q, c, fate);
  }

  lemma DecidedKeepsOffsets(q: Intake, c: Id, fate: Fate)
    requires OffsetsOk(q) && HasRecord(q, c)
    ensures OffsetsOk(Decided(q, c, fate))
  {
    var q' := Decided(q, c, fate);
    forall d | d in q'.consumers && d != c && !q'.consumers[d].phase.Ready? && !q'.consumers[d].phase.Handled?
      ensures HasRecord(q', d) && RecordOf(q', d).Anomaly?
    {
      assert HasRecord(q, d) && RecordOf(q, d).Anomaly?;
    }
  }

  lemma DlqKeepsFates(db: Db, q: Intake, letter: DeadLetter)
    requires FatesOk(db, q)
    ensures FatesOk(db, q.(dlq := q.dlq + [letter]))
  {
  }

  lemma RephaseKeeps(db: Db, q: Intake, c: Id, phase: Phase)
    requires OffsetsOk(q) && FatesOk(db, q) && HasRecord(q, c) && RecordOf(q, c).Anomaly?
    requires phase.Checked? || phase.Conflicted?
    ensures OffsetsOk(Rephase(q, c, phase)) && FatesOk(db, Rephase(q, c, phase))
  {
    var q' := Rephase(q, c, phase);
    forall d | d in q'.consumers && !q'.consumers[d].phase.Ready? && !q'.consumers[d].phase.Handled?
      ensures HasRecord(q', d) && RecordOf(q', d).Anomaly?
    {
      if d != c {
        assert HasRecord(q, d) && RecordOf(q, d).Anomaly?;
      }
    }
  }

  function Produced(q: Intake, p: Id, rec: Record): Intake {
    q.(log := q.log[p := LogOf(q, p) + [rec]])
  }

  lemma ProducedKeeps(db: Db, q: Intake, p: Id, rec: Record)
    requires OffsetsOk(q) && FatesOk(db, q)
    ensures OffsetsOk(Produced(q, p, rec)) && FatesOk(db, Produced(q, p, rec))
  {
    var q' := Produced(q, p, rec);
    assert forall x: Id :: LogOf(q, x) <= LogOf(q', x);
    forall d | d in q'.consumers && !q'.consumers[d].phase.Ready? && !q'.consumers[d].phase.Handled?
      ensures HasRecord(q', d) && RecordOf(q', d).Anomaly?
    {
      assert HasRecord(q, d) && RecordOf(q, d).Anomaly?;
    }
    forall f | f in q'.fates
      ensures f.1 < |LogOf(q', f.0)| && FateOk(db, q'.dlq, f, LogOf(q', f.0)[f.1], q'.fates[f])
    {
      assert f in q.fates;
    }
  }

  function Joined(q: Intake, c: Id, p: Id): Intake {
    q.(consumers := q.consumers[c := Consumer(p, CommittedOf(q, p), Ready)])
  }

  function Left(q: Intake, c: Id): Intake {
    q.(consumers := q.consumers - {c})
  }

  /** Kafka's committed offset becomes the consumer's position. */
  function Committed(q: Intake, c: Id): Intake
    requires c in q.consumers
  {
    var k := q.consumers[c];
    q.(committed := q.committed[k.partition := k.pos + 1],
       consumers := q.consumers[c := Consumer(k.partition, k.pos + 1, Ready)])
  }

  /** The consumers that are in the middle of a record stay so when others come, go or move on. */
  lemma BusyStayBusy(q: Intake, q': Intake, d: Id)
    requires OffsetsOk(q) && q'.log == q.log && d in q.consumers && d in q'.consumers
    requires q'.consumers[d] == q.consumers[d]
    requires !q.consumers[d].phase.Ready? && !q.consumers[d].phase.Handled?
    ensures HasRecord(q', d) && RecordOf(q', d).Anomaly?
  {
    assert HasRecord(q, d) && RecordOf(q, d).Anomaly?;
  }

  lemma JoinedKeeps(db: Db, q: Intake, c: Id, p: Id)
    requires OffsetsOk(q) && FatesOk(db, q)
    ensures OffsetsOk(Joined(q, c, p)) && FatesOk(db, Joined(q, c, p))
  {
    var q' := Joined(q, c, p);
    forall d | d in q'.consumers && !q'.consumers[d].phase.Ready? && !q'.consumers[d].phase.Handled?
      ensures HasRecord(q', d) && RecordOf(q', d).Anomaly?
    {
      BusyStayBusy(q, q', d);
    }
  }

  lemma LeftKeeps(db: Db, q: Intake, c: Id)
    requires OffsetsOk(q) && FatesOk(db, q)
    ensures OffsetsOk(Left(q, c)) && FatesOk(db, Left(q, c))
  {
    var q' := Left(q, c);
    forall d | d in q'.consumers && !q'.consumers[d].phase.Ready? && !q'.consumers[d].phase.Handled?
      ensures HasRecord(q', d) && RecordOf(q', d).Anomaly?
    {
      BusyStayBusy(q, q', d);
    }
  }

  lemma CommittedKeeps(db: Db, q: Intake, c: Id)
    requires OffsetsOk(q) && FatesOk(db, q) && c in q.consumers && q.consumers[c].phase.Handled?
    ensures OffsetsOk(Committed(q, c)) && FatesOk(db, Committed(q, c))
  {
    var q' := Committed(q, c);
    forall d | d in q'.consumers && !q'.consumers[d].phase.Ready? && !q'.consumers[d].phase.Handled?
      ensures HasRecord(q', d) && RecordOf(q', d).Anomaly?
    {
      BusyStayBusy(q, q', d);
    }
  }
}
