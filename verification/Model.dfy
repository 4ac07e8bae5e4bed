/** The tables of the incident database, as values.
    One clock stands for both the database clock and the workers' clocks; it counts microseconds. */
module Model {
  datatype Option<+T> = None | Some(value: T)

  type Id = nat
  type Time = int

  function Seconds(n: int): Time {
    n * 1_000_000
  }

  datatype Status = AwaitingOperator | Tier1 | Tier2 | Acknowledged | Resolved | CriticalUnresolved

  /** The statuses in which an incident is open and its timer can run. */
  predicate Active(s: Status) {
    s.AwaitingOperator? || s.Tier1? || s.Tier2?
  }

  /** The descriptive columns of an incident; nothing updates them. */
  datatype Facts = Facts(
    site: string,
    camera: string,
    zone: Option<string>,
    rule: string,
    anomaly: string,
    severity: string,
    objectClass: Option<string>,
    snapshotUrl: Option<string>)

  datatype Incident = Incident(
    facts: Facts,
    dedupKey: string,
    status: Status,
    currentTier: nat,
    nextFireAt: Option<Time>,
    deadlineAt: Option<Time>,
    claimedBy: Option<Id>,
    claimedUntil: Option<Time>,
    ackedAt: Option<Time>,
    resolvedAt: Option<Time>,
    createdAt: Time,
    updatedAt: Time)

  datatype EventKind = CreatedEvent | Tier1Fired | Tier2Fired | CriticalFired
                     | AckEvent | ResolvedEvent | ReplyReceived

  /** A row of the audit log; the log is kept in insertion order. */
  datatype Event = Event(
    incident: Id,
    kind: EventKind,
    fromState: Option<Status>,
    toState: Status,
    tier: nat,
    sourceEvent: Option<Id>,
    at: Time)

  datatype Delivery = Pending | Sending | Sent | Dead

  datatype OutboxRow = OutboxRow(
    incident: Id,
    tier: nat,
    phone: string,
    template: string,
    status: Delivery,
    attempts: nat,
    maxAttempts: nat,
    nextAttemptAt: Time,
    claimedBy: Option<Id>,
    claimedUntil: Option<Time>,
    sentAt: Option<Time>,
    providerSid: Option<string>,
    createdAt: Time)

  /** An outgoing row of the messages table. The table has no column for the outbox row it
      settles; `row` records it here so that settlements can be counted. */
  datatype Message = Message(row: Id, incident: Id, phone: string, channel: string, sid: Option<string>)

  datatype Db = Db(
    incidents: map<Id, Incident>,
    idempotency: set<(Id, nat)>,
    events: seq<Event>,
    outbox: map<Id, OutboxRow>,
    messages: seq<Message>)

  const EMPTY_DB := Db(map[], {}, [], map[], [])

  datatype Role = FloorManager | PlantDirector | Operator

  datatype TierConfig = TierConfig(delaySeconds: int, template: string)

  /** What the tier-configuration and on-call tables answer, and the configured periods. */
  datatype Env = Env(
    graceSeconds: int,
    backoffBase: nat,
    config: (Facts, nat, Time) -> Option<TierConfig>,
    onCall: (Role, Facts, Time) -> Option<string>)

  const MAX_ATTEMPTS: nat := 6

  /** The unique column outbox.idempotency_key, "incident|tier", is taken. */
  predicate KeyTaken(outbox: map<Id, OutboxRow>, i: Id, tier: nat) {
    exists o :: o in outbox && outbox[o].incident == i && outbox[o].tier == tier
  }

  function NewOutboxRow(i: Id, tier: nat, phone: string, template: string, now: Time): OutboxRow {
    OutboxRow(i, tier, phone, template, Pending, 0, MAX_ATTEMPTS, now, None, None, None, None, now)
  }

  /** Some identifier is unused in any finite set. */
  lemma {:induction false} FreshId(used: set<Id>) returns (x: Id)
    ensures x !in used
    ensures forall y :: y in used ==> y < x
  {
    if used == {} {
      x := 0;
    } else {
      var y :| y in used;
      var z := FreshId(used - {y});
      x := if z > y then z else y + 1;
      assert used == (used - {y}) + {y};
    }
  }
}
