/** Runs from an empty database that reach the states the counterexamples start from. */
module Witness {
  import opened Model
  import opened Protocol
  import opened Recovery
  import Escalation
  import Guarantees
  import Ingest
  import Relay
  import Timers

  /** One untouched incident, and its page if the operator is on call. */
  ghost predicate JustOpened(env: Env, s: Sys, f: Sys, rec: Ingest.Record)
    requires rec.Anomaly?
  {
    && f.now == s.now && f.tickets == map[] && f.looks == map[] && f.parcels == map[]
    && f.db.incidents == map[0 := Ingest.NewIncident(env, rec, s.now)]
    && f.db.outbox == match Ingest.OperatorPage(env, rec, 0, s.now)
                      case None => map[]
                      case Some(page) => map[0 := page]
  }

  /** A record is produced, read and turned into an incident. */
  lemma OpensIncident(env: Env, s: Sys, rec: Ingest.Record) returns (steps: seq<Step>, f: Sys)
    requires Init(s) && rec.Anomaly?
    ensures Leads(env, s, steps, f) && JustOpened(env, s, f, rec)
  {
    steps, f := [], s;
    steps, f := Continue(env, s, steps, f, Produce(0, rec));
    steps, f := Continue(env, s, steps, f, Join(0, 0));
    steps, f := Continue(env, s, steps, f, IngestRead(0));
    var past, m := steps, f;
    f := CreatesIt(env, m, rec);
    LeadsOn(env, s, past, m, [IngestInsert(0, 0, 0)], f);
    steps := past + [IngestInsert(0, 0, 0)];
  }

  lemma Continue(env: Env, s: Sys, past: seq<Step>, m: Sys, st: Step) returns (steps: seq<Step>, f: Sys)
    requires Leads(env, s, past, m) && Enabled(m, st)
    ensures Leads(env, s, steps, f) && f == Apply(env, m, st)
  {
    f := Apply(env, m, st);
    LeadsOne(env, m, st);
    LeadsOn(env, s, past, m, [st], f);
    steps := past + [st];
  }

  lemma CreatesIt(env: Env, s: Sys, rec: Ingest.Record) returns (f: Sys)
    requires s.db == EMPTY_DB && s.tickets == map[] && s.looks == map[] && s.parcels == map[] && rec.Anomaly?
    requires Ingest.HasRecord(s.intake, 0) && Ingest.RecordOf(s.intake, 0) == rec
    requires s.intake.consumers[0].phase == Ingest.Checked(s.now)
    ensures Leads(env, s, [IngestInsert(0, 0, 0)], f) && JustOpened(env, s, f, rec)
  {
    f := Apply(env, s, IngestInsert(0, 0, 0));
    LeadsOne(env, s, IngestInsert(0, 0, 0));
  }

  /** Some run takes an incident to RESOLVED and then, through a close that read it open, back to ACK. */
  lemma LeavesResolved(env: Env, s: Sys, rec: Ingest.Record) returns (steps: seq<Step>, m: Sys, r: Id)
    requires Init(s) && rec.Anomaly?
    ensures Leads(env, s, steps, m) && 0 in m.db.incidents && m.db.incidents[0].status == Resolved
    ensures Enabled(m, Close(r)) && Guarantees.Overwrites(m, Close(r), 0)
    ensures Apply(env, m, Close(r)).db.incidents[0].status == Acknowledged
  {
    var f;
    steps, f := OpensIncident(env, s, rec);
    Guarantees.RaceLeavesResolved(env, f, 0, 0, 1);
    r := 0;
    var first, second, third := Look(0, 0, Escalation.HttpAck), Look(1, 0, Escalation.HttpResolve), Close(1);
    var s1 := Apply(env, f, first);
    steps, f := Continue(env, s, steps, f, first);
    steps, f := Continue(env, s, steps, f, second);
    steps, m := Continue(env, s, steps, f, third);
    assert m.looks[0] == s1.looks[0];
  }

  /** Some run leaves two workers with tickets on an untouched incident, the first lease having run out. */
  lemma TwoTickets(env: Env, s: Sys, rec: Ingest.Record, lease: nat) returns (steps: seq<Step>, m: Sys)
    requires Init(s) && rec.Anomaly?
    ensures Leads(env, s, steps, m) && (0, 0) in m.tickets && (1, 0) in m.tickets
    ensures 0 in m.db.incidents && m.db.incidents[0].status.AwaitingOperator? && m.db.incidents[0].nextFireAt.Some?
  {
    var f;
    steps, f := OpensIncident(env, s, rec);
    var grace := if env.graceSeconds > 0 then Seconds(env.graceSeconds) else 0;
    steps, f := Ticks(env, s, steps, f, grace);
    steps, f := ClaimsIncident(env, s, steps, f, 0, lease);
    steps, f := Ticks(env, s, steps, f, lease + 1);
    steps, m := ClaimsIncident(env, s, steps, f, 1, lease);
  }

  lemma Ticks(env: Env, s: Sys, past: seq<Step>, m: Sys, d: nat) returns (steps: seq<Step>, f: Sys)
    requires Leads(env, s, past, m)
    ensures Leads(env, s, steps, f) && f == m.(now := m.now + d)
  {
    steps, f := Continue(env, s, past, m, Tick(d));
  }

  lemma ClaimsIncident(env: Env, s: Sys, past: seq<Step>, m: Sys, w: Id, lease: nat) returns (steps: seq<Step>, f: Sys)
    requires Leads(env, s, past, m) && 0 in m.db.incidents && Escalation.Claimable(m.db.incidents[0], m.now)
    ensures Leads(env, s, steps, f) && f == Timers.AfterWorkerClaim(m, w, 0, lease)
  {
    var st := Claim(w, {0}, lease);
    Timers.WorkerClaimEffect(env, m, w, 0, lease);
    steps, f := Continue(env, s, past, m, st);
  }

  /** Some run leaves two relays with unsent parcels on one SENDING row, held by the second. */
  lemma TwoParcels(env: Env, s: Sys, rec: Ingest.Record, lease: nat) returns (steps: seq<Step>, m: Sys)
    requires Init(s) && rec.Anomaly? && Ingest.OperatorPage(env, rec, 0, s.now).Some?
    ensures Leads(env, s, steps, m) && (0, 0) in m.parcels && (1, 0) in m.parcels
    ensures m.parcels[(0, 0)].outcome.None? && m.parcels[(1, 0)].outcome.None?
    ensures 0 in m.db.outbox && m.db.outbox[0].status.Sending? && m.db.outbox[0].claimedBy == Some(1)
    ensures m.db.outbox[0].attempts < m.db.outbox[0].maxAttempts
  {
    var f;
    steps, f := OpensIncident(env, s, rec);
    steps, f := ClaimsPage(env, s, steps, f, 0, lease);
    steps, f := Ticks(env, s, steps, f, lease + 1);
    steps, m := ClaimsPage(env, s, steps, f, 1, lease);
  }

  lemma ClaimsPage(env: Env, s: Sys, past: seq<Step>, m: Sys, w: Id, lease: nat) returns (steps: seq<Step>, f: Sys)
    requires Leads(env, s, past, m) && 0 in m.db.outbox && Relay.Claimable(m.db.outbox[0], m.now)
    ensures Leads(env, s, steps, f) && f == Guarantees.AfterRelayClaim(m, w, 0, lease)
  {
    var st := ClaimOutbox(w, {0}, lease);
    Guarantees.RelayClaimEffect(env, m, w, 0, lease);
    steps, f := Continue(env, s, past, m, st);
  }
}
