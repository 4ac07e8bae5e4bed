/** What each transaction does to the tables after any run, column by column and in the terms of the design. */
module Effects {
  import opened Model
  import opened Protocol
  import Escalation
  import Ingest
  import Relay

  const MICROSECONDS := 1_000_000

  // ----- claims -----

  /** A worker may claim exactly open incidents whose timer has come and whose claim, if any, has run out; the claim
      names the worker and its lease and changes nothing else. */
  lemma WorkerClaims(env: Env, s: Sys, w: Id, ids: set<Id>, lease: nat)
    ensures Enabled(s, Claim(w, ids, lease))
      <==> forall i :: i in ids ==>
             && i in s.db.incidents && s.db.incidents[i].status in {AwaitingOperator, Tier1, Tier2}
             && s.db.incidents[i].nextFireAt.Some? && s.db.incidents[i].nextFireAt.value <= s.now
             && (s.db.incidents[i].claimedUntil.Some? ==> s.db.incidents[i].claimedUntil.value < s.now)
    ensures Enabled(s, Claim(w, ids, lease)) ==>
      var d, g := s.db, Apply(env, s, Claim(w, ids, lease)).db;
      && g == d.(incidents := g.incidents) && g.incidents.Keys == d.incidents.Keys
      && forall i :: i in d.incidents ==>
           g.incidents[i] == if i in ids
                             then d.incidents[i].(claimedBy := Some(w), claimedUntil := Some(s.now + lease))
                             else d.incidents[i]
  {
    assert Enabled(s, Claim(w, ids, lease))
      <==> forall i :: i in ids ==> i in s.db.incidents && Escalation.Claimable(s.db.incidents[i], s.now);
  }

  /** The release after a transaction that raised leaves the incident unclaimed, and so due at once if its timer has
      come. */
  lemma ReleasedAtOnce(env: Env, s: Sys, w: Id, i: Id, v: Id, lease: nat)
    requires Enabled(s, ReleaseAfterError(w, i)) && s.db.incidents[i].status in {AwaitingOperator, Tier1, Tier2}
    requires s.db.incidents[i].nextFireAt.Some? && s.db.incidents[i].nextFireAt.value <= s.now
    ensures Enabled(Apply(env, s, ReleaseAfterError(w, i)), Claim(v, {i}, lease))
  {
    WorkerClaims(env, Apply(env, s, ReleaseAfterError(w, i)), v, {i}, lease);
  }

  /** A relay may claim exactly pending pages whose time has come and pages in sending whose lease has run out; the
      claim puts them into sending, names the relay and its lease, counts one attempt more, and changes no other. */
  lemma RelayClaims(env: Env, s: Sys, w: Id, ids: set<Id>, lease: nat)
    ensures Enabled(s, ClaimOutbox(w, ids, lease))
      <==> forall o :: o in ids ==>
             && o in s.db.outbox
             && ((s.db.outbox[o].status == Pending && s.db.outbox[o].nextAttemptAt <= s.now)
                 || (s.db.outbox[o].status == Sending && s.db.outbox[o].claimedUntil.Some?
                     && s.db.outbox[o].claimedUntil.value < s.now))
    ensures Enabled(s, ClaimOutbox(w, ids, lease)) ==>
      var d, g := s.db, Apply(env, s, ClaimOutbox(w, ids, lease)).db;
      && g == d.(outbox := g.outbox) && g.outbox.Keys == d.outbox.Keys
      && forall o :: o in d.outbox ==>
           g.outbox[o] == if o in ids
                          then d.outbox[o].(status := Sending, attempts := d.outbox[o].attempts + 1,
                                            claimedBy := Some(w), claimedUntil := Some(s.now + lease))
                          else d.outbox[o]
  {
    assert Enabled(s, ClaimOutbox(w, ids, lease))
      <==> forall o :: o in ids ==> o in s.db.outbox && Relay.Claimable(s.db.outbox[o], s.now);
  }

  /** A page after one more attempt: claimed, tried and settled by the answer r that came at a given time.  A page
      that is neither taken nor out of attempts waits base * 2^attempts seconds, an hour at most. */
  function Tried(row: OutboxRow, r: Relay.ProviderResult, at: Time, base: nat): OutboxRow {
    var wait := base * Relay.Pow2(row.attempts);
    var freed := row.(attempts := row.attempts + 1, claimedBy := None, claimedUntil := None);
    if r.status.SentOk? then freed.(status := Sent, sentAt := Some(at), providerSid := r.sid)
    else if row.attempts + 1 >= row.maxAttempts then freed.(status := Dead)
    else freed.(status := Pending, nextAttemptAt := at + MICROSECONDS * (if wait < 3600 then wait else 3600))
  }

  lemma SettledIsTried(row: OutboxRow, claimed: OutboxRow, r: Relay.ProviderResult, at: Time, base: nat)
    requires claimed == row.(status := Sending, attempts := row.attempts + 1, claimedBy := claimed.claimedBy,
                             claimedUntil := claimed.claimedUntil)
    ensures Relay.SettledRow(claimed, r, at, base) == Tried(row, r, at, base)
  {
  }

  // ----- a fire -----

  const LADDER: seq<Status> := [AwaitingOperator, Tier1, Tier2, CriticalUnresolved]

  /** Incident i has gone one rung up the ladder: to its next status and tier, with the timer that the configuration
      of that tier sets, unclaimed and stamped; the log has that tier's event, and the one on call for it a page. */
  ghost predicate OneRungUp(env: Env, d: Db, g: Db, i: Id, o: Id, now: Time) {
    && i in d.incidents
    && var row, tier := d.incidents[i], d.incidents[i].currentTier + 1;
       && tier <= 3 && row.status == LADDER[tier - 1]
       && var config := if tier <= 2 then env.config(row.facts, tier, now) else None;
          var timer := if config.Some? then Some(now + config.value.delaySeconds * MICROSECONDS) else None;
          var phone := if tier <= 2 then env.onCall([FloorManager, PlantDirector][tier - 1], row.facts, now) else None;
          && g.incidents == d.incidents[
               i := row.(status := LADDER[tier], currentTier := tier, nextFireAt := timer, deadlineAt := timer,
                         claimedBy := None, claimedUntil := None, updatedAt := now)]
          && g.events == d.events + [Event(i, [Tier1Fired, Tier2Fired, CriticalFired][tier - 1],
                                           Some(row.status), LADDER[tier], tier, None, now)]
          && g.idempotency == d.idempotency + {(i, tier)} && g.messages == d.messages
          && g.outbox == (if config.Some? && phone.Some?
                          then d.outbox[o := FirstPage(i, tier, phone.value, config.value.template, now)]
                          else d.outbox)
  }

  /** A page not yet tried. */
  function FirstPage(i: Id, tier: nat, phone: string, template: string, now: Time): OutboxRow {
    OutboxRow(incident := i, tier := tier, phone := phone, template := template, status := Pending, attempts := 0,
              maxAttempts := 6, nextAttemptAt := now, claimedBy := None, claimedUntil := None, sentAt := None,
              providerSid := None, createdAt := now)
  }

  /** After every run a fire takes exactly an open incident with a timer one rung up and leaves any other alone. */
  lemma FireInColumns(env: Env, start: Sys, past: seq<Step>, w: Id, i: Id, o: Id)
    requires Init(start) && Feasible(env, start, past) && Enabled(Run(env, start, past), Fire(w, i, o))
    ensures var f := Run(env, start, past);
            var g := Apply(env, f, Fire(w, i, o));
            if f.db.incidents[i].status in {AwaitingOperator, Tier1, Tier2} && f.db.incidents[i].nextFireAt.Some?
            then OneRungUp(env, f.db, g.db, i, o, f.now)
            else g.db == f.db
  {
    EscalationHolds(env, start, past);
    var f := Run(env, start, past);
    FireStepKeeps(env, f, Fire(w, i, o));
    FiresOneRung(env, f.db, i, o, f.now);
  }

  lemma FiresOneRung(env: Env, db: Db, i: Id, o: Id, now: Time)
    requires Escalation.EscalationOk(db) && Escalation.PagesOk(db) && i in db.incidents
    ensures var g := Escalation.FireRow(env, db, i, o, now).db;
            if db.incidents[i].status in {AwaitingOperator, Tier1, Tier2} && db.incidents[i].nextFireAt.Some?
            then OneRungUp(env, db, g, i, o, now)
            else g == db
  {
    Escalation.FireAdvances(env, db, i, o, now);
    if Escalation.PassesRecheck(db.incidents[i]) {
      Escalation.FireEffect(env, db, i, o, now);
    }
  }

  // ----- a close -----

  /** Which statuses a request acts on, and how. */
  predicate Acknowledges(action: Escalation.Action, status: Status) {
    && status in {AwaitingOperator, Tier1, Tier2}
    && (action.HttpAck? || (action.Reply? && action.keyword in {"ACK", "ACKNOWLEDGE", "NOTED"}))
  }

  predicate Resolves(action: Escalation.Action, status: Status) {
    && status in {AwaitingOperator, Tier1, Tier2, Acknowledged}
    && (action.HttpResolve?
        || (action.Reply? && action.keyword in {"RESOLVED", "RESOLVE", "DONE", "FIXED", "CLOSED"}))
  }

  /** A request remembers the row as it reads it; an HTTP request that would change nothing ends with the read. */
  lemma LookInColumns(env: Env, s: Sys, r: Id, i: Id, action: Escalation.Action)
    requires Enabled(s, Look(r, i, action))
    ensures var row, g := s.db.incidents[i], Apply(env, s, Look(r, i, action));
            && g.db == s.db
            && (if action.Reply? || Acknowledges(action, row.status) || Resolves(action, row.status) then
                  && g.looks.Keys == s.looks.Keys + {r}
                  && var seen := g.looks[r];
                     && seen.incident == i && seen.action == action && seen.at == s.now
                     && seen.status == row.status && seen.tier == row.currentTier
                     && seen.armed == row.nextFireAt.Some? && seen.hasDeadline == row.deadlineAt.Some?
                else
                  g.looks == s.looks)
  {
  }

  /** After every run: a close writes the status it decided on, the time of its read as that status's time and as
      the row's stamp, clears the timer and touches no other column; it logs the status under its own name, after
      the reply that caused it, if one did; and a reply that decides nothing is logged only. */
  lemma CloseInColumns(env: Env, start: Sys, past: seq<Step>, r: Id)
    requires Init(start) && Feasible(env, start, past) && Enabled(Run(env, start, past), Close(r))
    ensures var f := Run(env, start, past);
            var g := Apply(env, f, Close(r)).db;
            var seen := f.looks[r];
            ClosedInColumns(f.db, g, seen, f.db.incidents[seen.incident], f.now)
  {
    ReachableInv(env, start, past);
    EscalationPart(Run(env, start, past));
    var f := Run(env, start, past);
    Closes(f.db, f.looks[r], f.now);
  }

  ghost predicate ClosedInColumns(d: Db, g: Db, seen: Escalation.Seen, row: Incident, now: Time) {
    var i := seen.incident;
    var reply := if seen.action.Reply?
                 then [Event(i, ReplyReceived, Some(seen.status), seen.status, seen.tier, None, now)] else [];
    && g.outbox == d.outbox && g.messages == d.messages && g.idempotency == d.idempotency
    && if Acknowledges(seen.action, seen.status) then
         && g.incidents == d.incidents[i := row.(status := Acknowledged, ackedAt := Some(seen.at),
                                                 nextFireAt := None, deadlineAt := None, updatedAt := seen.at)]
         && g.events == d.events + reply + [Event(i, AckEvent, Some(seen.status), Acknowledged, seen.tier, None, now)]
       else if Resolves(seen.action, seen.status) then
         && g.incidents == d.incidents[i := row.(status := Resolved, resolvedAt := Some(seen.at),
                                                 nextFireAt := None, deadlineAt := None, updatedAt := seen.at)]
         && g.events == d.events + reply + [Event(i, ResolvedEvent, Some(seen.status), Resolved, seen.tier, None, now)]
       else
         g.incidents == d.incidents && g.events == d.events + reply
  }

  lemma Closes(db: Db, seen: Escalation.Seen, now: Time)
    requires seen.incident in db.incidents
    requires !seen.armed ==> db.incidents[seen.incident].nextFireAt.None?
    requires !seen.hasDeadline ==> db.incidents[seen.incident].deadlineAt.None?
    ensures ClosedInColumns(db, Escalation.CloseWrite(db, seen, now), seen, db.incidents[seen.incident], now)
  {
    var g, row := Escalation.CloseWrite(db, seen, now), db.incidents[seen.incident];
    assert Acknowledges(seen.action, seen.status) <==> Escalation.Decide(seen.action, seen.status).ToAcknowledged?;
    assert Resolves(seen.action, seen.status) && !Acknowledges(seen.action, seen.status)
      <==> Escalation.Decide(seen.action, seen.status).ToResolved?;
    assert db.incidents[seen.incident := row] == db.incidents;
    if seen.action.Reply? {
      assert |Escalation.CloseEvents(seen, now)| >= 1;
    }
  }

  // ----- an insert -----

  /** After every run: the inserts of a record go through exactly when no event carries its id and no open incident
      its key.  They make one incident, as the record describes it, waiting for its operator with the grace period
      as its timer, one event, and the operator's page if there is someone to page. */
  lemma InsertInColumns(env: Env, start: Sys, past: seq<Step>, c: Id, i: Id, o: Id)
    requires Init(start) && Feasible(env, start, past) && Enabled(Run(env, start, past), IngestInsert(c, i, o))
    ensures var f := Run(env, start, past);
            var g := Apply(env, f, IngestInsert(c, i, o));
            var rec, at := Ingest.RecordOf(f.intake, c), f.intake.consumers[c].phase.at;
            if (exists k :: 0 <= k < |f.db.events| && f.db.events[k].sourceEvent == Some(rec.eventId))
               || (exists j :: j in f.db.incidents && f.db.incidents[j].dedupKey == rec.dedupKey
                               && f.db.incidents[j].status in {AwaitingOperator, Tier1, Tier2})
            then g.db == f.db
            else MadeInColumns(env, f.db, g.db, rec, i, o, at)
  {
    EscalationHolds(env, start, past);
    var f := Run(env, start, past);
    Inserts(env, f.db, Ingest.RecordOf(f.intake, c), i, o, f.intake.consumers[c].phase.at);
  }

  ghost predicate MadeInColumns(env: Env, d: Db, g: Db, rec: Ingest.Record, i: Id, o: Id, at: Time)
    requires rec.Anomaly?
  {
    var due := Some(at + env.graceSeconds * MICROSECONDS);
    var config, phone := env.config(rec.facts, 0, at), env.onCall(Operator, rec.facts, at);
    && g.incidents == d.incidents[
         i := Incident(facts := rec.facts, dedupKey := rec.dedupKey, status := AwaitingOperator, currentTier := 0,
                       nextFireAt := due, deadlineAt := due, claimedBy := None, claimedUntil := None,
                       ackedAt := None, resolvedAt := None, createdAt := at, updatedAt := at)]
    && g.events == d.events + [Event(i, CreatedEvent, None, AwaitingOperator, 0, Some(rec.eventId), at)]
    && g.outbox == (if config.Some? && phone.Some?
                    then d.outbox[o := FirstPage(i, 0, phone.value, config.value.template, at)] else d.outbox)
    && g.messages == d.messages && g.idempotency == d.idempotency
  }

  lemma Inserts(env: Env, db: Db, rec: Ingest.Record, i: Id, o: Id, at: Time)
    requires Escalation.PagesOk(db) && rec.Anomaly? && i !in db.incidents
    ensures var r := Ingest.Insert(env, db, rec, i, o, at);
            if (exists k :: 0 <= k < |db.events| && db.events[k].sourceEvent == Some(rec.eventId))
               || (exists j :: j in db.incidents && db.incidents[j].dedupKey == rec.dedupKey
                               && db.incidents[j].status in {AwaitingOperator, Tier1, Tier2})
            then r.None?
            else r.Some? && MadeInColumns(env, db, r.value, rec, i, o, at)
  {
    assert forall j :: j in db.incidents ==>
      (Active(db.incidents[j].status) <==> db.incidents[j].status in {AwaitingOperator, Tier1, Tier2});
    assert !KeyTaken(db.outbox, i, 0);
  }
}
