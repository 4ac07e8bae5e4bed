/** The workers' code on the shared tables, statement by statement, against the functions that specify
    each transaction.  Nothing else runs meanwhile; interleavings are the subject of Protocol. */
module Store {
  import opened Model
  import Effects
  import Escalation
  import Relay
  import Ingest
  import Recovery

  datatype ActionResult = NotFound | Unchanged | Conflict | Done

  datatype Reason = Created(i: Id) | DuplicateEventId | DuplicateOpenDedup | Dlq | Raised

  class Database {
    var incidents: map<Id, Incident>
    var idempotency: set<(Id, nat)>
    var events: seq<Event>
    var outbox: map<Id, OutboxRow>
    var messages: seq<Message>
    var unmatched: seq<(string, string)>
    var dlq: seq<Ingest.Record>

    function Tables(): Db
      reads this
    {
      Db(incidents, idempotency, events, outbox, messages)
    }

    ghost predicate Valid()
      reads this
    {
      Escalation.EscalationOk(Tables()) && Escalation.PagesOk(Tables())
    }

    constructor ()
      ensures Tables() == EMPTY_DB && unmatched == [] && dlq == []
    {
      incidents, idempotency, events, outbox, messages := map[], {}, [], map[], [];
      unmatched, dlq := [], [];
    }

    method Restore(db: Db)
      modifies this`incidents, this`idempotency, this`events, this`outbox, this`messages
      ensures Tables() == db
    {
      incidents, idempotency, events, outbox, messages :=
        db.incidents, db.idempotency, db.events, db.outbox, db.messages;
    }

    // ----- escalation worker -----

    /** INSERT ... ON CONFLICT DO NOTHING. */
    method InsertIdempotency(i: Id, tier: nat) returns (inserted: bool)
      modifies this`idempotency
      ensures inserted <==> (i, tier) !in old(idempotency)
      ensures idempotency == old(idempotency) + {(i, tier)}
    {
      inserted := (i, tier) !in idempotency;
      idempotency := idempotency + {(i, tier)};
    }

    /** INSERT of an outbox row; false when the unique key refuses it. */
    method InsertOutbox(id: Id, row: OutboxRow) returns (ok: bool)
      modifies this`outbox
      ensures ok <==> !KeyTaken(old(outbox), row.incident, row.tier)
      ensures outbox == if ok then old(outbox)[id := row] else old(outbox)
    {
      ok := !KeyTaken(outbox, row.incident, row.tier);
      if ok {
        outbox := outbox[id := row];
      }
    }

    /** One transition in the order the code performs it; a refused outbox row rolls everything back. */
    method FireTransition(env: Env, i: Id, outboxId: Id, now: Time) returns (outcome: Escalation.Outcome)
      requires i in incidents
      modifies this`incidents, this`idempotency, this`events, this`outbox, this`messages
      ensures Escalation.FireResult(outcome, Tables())
           == Escalation.FireTransition(env, old(Tables()), i, outboxId, now)
    {
      var savepoint := Tables();
      var inc := incidents[i];
      var found := Escalation.TransitionFor(inc.status, inc.currentTier);
      if found.None? {
        return Escalation.NotEligible;
      }
      var tr := found.value;
      var inserted := InsertIdempotency(i, tr.tier);
      if !inserted {
        assert idempotency == savepoint.idempotency;
        return Escalation.SkippedIdempotent;
      }
      var config := None;
      if !tr.status.CriticalUnresolved? {
        config := env.config(inc.facts, tr.tier, now);
      }
      var timer := None;
      if config.Some? {
        timer := Some(now + Seconds(config.value.delaySeconds));
      }
      var phone, template := None, None;
      if tr.role.Some? {
        phone := env.onCall(tr.role.value, inc.facts, now);
        if config.Some? {
          template := Some(config.value.template);
        }
      }
      events := events + [Event(i, tr.event, Some(inc.status), tr.status, tr.tier, None, now)];
      incidents := incidents[i := inc.(status := tr.status, currentTier := tr.tier, nextFireAt := timer,
                                       deadlineAt := timer, claimedBy := None, claimedUntil := None,
                                       updatedAt := now)];
      if phone.Some? && template.Some? {
        var ok := InsertOutbox(outboxId, NewOutboxRow(i, tr.tier, phone.value, template.value, now));
        if !ok {
          Restore(savepoint);
          return Escalation.UniqueViolation;
        }
      }
      outcome := Escalation.Fired(tr.status);
    }

    method ReleaseClaim(i: Id)
      modifies this`incidents
      ensures Tables() == if i in old(incidents) then Escalation.ReleaseClaim(old(Tables()), i) else old(Tables())
    {
      if i in incidents {
        incidents := incidents[i := incidents[i].(claimedBy := None, claimedUntil := None)];
      }
    }

    /** The claiming UPDATE over the selected due rows. */
    method ClaimDue(w: Id, lease: nat, batch: nat, now: Time) returns (claimed: seq<Id>)
      modifies this`incidents
      ensures Recovery.IsBatch(old(incidents), DueRows(old(incidents), now), Ids(claimed), batch)
      ensures NoRepeats(claimed)
      ensures forall i :: i in claimed ==>
        && i in old(incidents) && old(incidents)[i].status in {AwaitingOperator, Tier1, Tier2}
        && old(incidents)[i].nextFireAt.Some? && old(incidents)[i].nextFireAt.value <= now
        && (old(incidents)[i].claimedUntil.Some? ==> old(incidents)[i].claimedUntil.value < now)
      ensures incidents == Escalation.ClaimRows(old(incidents), w, Ids(claimed), now + lease)
    {
      var due := map i | i in incidents && Escalation.Claimable(incidents[i], now) :: incidents[i].nextFireAt.value;
      claimed := SelectEarliest(due, batch);
      assert due.Keys == DueRows(incidents, now);
      assert forall i :: i in claimed ==> i in Ids(claimed);
      incidents := Escalation.ClaimRows(incidents, w, Ids(claimed), now + lease);
    }

    /** One claimed row in its own transaction: lock and re-check, fire, commit; release the claim if the
        transaction raised. */
    method ProcessRow(env: Env, i: Id, now: Time) returns (outcome: Escalation.Outcome, ghost o: Id)
      requires i in incidents
      modifies this`incidents, this`idempotency, this`events, this`outbox, this`messages
      ensures o !in old(outbox)
      ensures var r := Escalation.FireRow(env, old(Tables()), i, o, now);
              && outcome == r.outcome
              && Tables() == if outcome.UniqueViolation? then Escalation.ReleaseClaim(old(Tables()), i) else r.db
    {
      ghost var unused := FreshId(outbox.Keys);
      var id :| id !in outbox;
      o := id;
      if !Escalation.PassesRecheck(incidents[i]) {
        return Escalation.NotEligible, o;
      }
      outcome := FireTransition(env, i, id, now);
      if outcome.UniqueViolation? {
        ReleaseClaim(i);
      }
    }

    /** One poll: claim a batch, then process each row.  It returns exactly the claimed incidents, each
        one tier further. */
    method PollOnceIds(env: Env, w: Id, lease: nat, batch: nat, now: Time) returns (fired: seq<Id>)
      requires Valid()
      modifies this`incidents, this`idempotency, this`events, this`outbox, this`messages
      ensures Valid() && messages == old(messages) && incidents.Keys == old(incidents.Keys)
      ensures Recovery.IsBatch(old(incidents), DueRows(old(incidents), now), Ids(fired), batch)
      ensures forall i :: i in old(incidents) ==>
        if i in fired then Recovery.Advanced(env, now, old(incidents)[i], incidents[i])
        else incidents[i] == old(incidents)[i]
    {
      ghost var before := Tables();
      var rows := ClaimDue(w, lease, batch, now);
      ClaimKeepsEscalation(before, Tables(), w, Ids(rows), now + lease);
      ClaimKeepsPages(before, Tables(), w, Ids(rows), now + lease);
      ClaimStarts(env, now, before.incidents, incidents, w, Ids(rows), batch, now + lease);
      fired := ProcessRows(env, rows, now, before.incidents);
      PollEnds(env, now, before.incidents, incidents, fired);
    }

    method ProcessRows(env: Env, rows: seq<Id>, now: Time, ghost before: map<Id, Incident>) returns (fired: seq<Id>)
      requires Valid() && NoRepeats(rows)
      requires PolledSoFar(env, now, before, incidents, Ids(rows), {})
      modifies this`incidents, this`idempotency, this`events, this`outbox, this`messages
      ensures Valid() && messages == old(messages) && fired == rows
      ensures PolledSoFar(env, now, before, incidents, Ids(rows), Ids(rows))
    {
      fired := [];
      var k := 0;
      while k < |rows|
        invariant 0 <= k <= |rows| && fired == rows[..k] && Valid() && messages == old(messages)
        invariant PolledSoFar(env, now, before, incidents, Ids(rows), Ids(rows[..k]))
      {
        NextRow(rows, k);
        var outcome := ProcessClaimed(env, rows[k], now, before, Ids(rows), Ids(rows[..k]));
        if outcome.Fired? {
          fired := fired + [rows[k]];
        }
        k := k + 1;
      }
      assert rows[..k] == rows;
    }

    /** A row of this poll's own batch always fires when nothing else runs. */
    method ProcessClaimed(env: Env, i: Id, now: Time, ghost before: map<Id, Incident>, ghost claimed: set<Id>,
                          ghost done: set<Id>)
        returns (outcome: Escalation.Outcome)
      requires Valid() && PolledSoFar(env, now, before, incidents, claimed, done) && i in claimed && i !in done
      modifies this`incidents, this`idempotency, this`events, this`outbox, this`messages
      ensures Valid() && messages == old(messages) && outcome.Fired?
      ensures PolledSoFar(env, now, before, incidents, claimed, done + {i})
    {
      ghost var was := Tables();
      ClaimedPasses(env, now, before, incidents, claimed, done, i);
      ghost var o;
      outcome, o := ProcessRow(env, i, now);
      FireKeepsValid(env, was, i, o, now);
      PollsOn(env, now, before, was.incidents, incidents, claimed, done, i);
    }

    // ----- acknowledge, resolve, reply -----

    /** Acknowledging twice changes nothing the second time; a closed incident is a conflict. */
    method Acknowledge(i: Id, now: Time) returns (r: ActionResult)
      modifies this`incidents, this`events
      ensures r.NotFound? <==> i !in old(incidents)
      ensures r.Unchanged? <==> i in old(incidents) && old(incidents)[i].status.Acknowledged?
      ensures r.Done? <==> i in old(incidents) && old(incidents)[i].status in {AwaitingOperator, Tier1, Tier2}
      ensures Tables() == if r.Done?
        then Escalation.CloseWrite(old(Tables()), Escalation.Look(i, old(incidents)[i], Escalation.HttpAck, now), now)
        else old(Tables())
      ensures r.Done? ==>
        var row := old(incidents)[i];
        && incidents == old(incidents)[i := row.(status := Acknowledged, ackedAt := Some(now), nextFireAt := None,
                                                 deadlineAt := None, updatedAt := now)]
        && events == old(events) + [Event(i, AckEvent, Some(row.status), Acknowledged, row.currentTier, None, now)]
    {
      if i !in incidents {
        return NotFound;
      }
      var inc := incidents[i];
      if inc.status.Acknowledged? {
        return Unchanged;
      }
      if !Active(inc.status) {
        return Conflict;
      }
      incidents := incidents[i := inc.(status := Acknowledged, nextFireAt := None, deadlineAt := None,
                                       ackedAt := Some(now), updatedAt := now)];
      events := events + [Event(i, AckEvent, Some(inc.status), Acknowledged, inc.currentTier, None, now)];
      r := Done;
    }

    /** Resolving is possible from every status but RESOLVED and CRITICAL_UNRESOLVED. */
    method ResolveIncident(i: Id, now: Time) returns (r: ActionResult)
      modifies this`incidents, this`events
      ensures r.NotFound? <==> i !in old(incidents)
      ensures r.Unchanged? <==> i in old(incidents) && old(incidents)[i].status.Resolved?
      ensures r.Conflict? <==> i in old(incidents) && old(incidents)[i].status.CriticalUnresolved?
      ensures Tables() == if r.Done?
        then Escalation.CloseWrite(
          old(Tables()), Escalation.Look(i, old(incidents)[i], Escalation.HttpResolve, now), now)
        else old(Tables())
      ensures r.Done? ==>
        var row := old(incidents)[i];
        && incidents == old(incidents)[i := row.(status := Resolved, resolvedAt := Some(now), nextFireAt := None,
                                                 deadlineAt := None, updatedAt := now)]
        && events == old(events) + [Event(i, ResolvedEvent, Some(row.status), Resolved, row.currentTier, None, now)]
    {
      if i !in incidents {
        return NotFound;
      }
      var inc := incidents[i];
      if inc.status.Resolved? {
        return Unchanged;
      }
      if !Active(inc.status) && !inc.status.Acknowledged? {
        return Conflict;
      }
      incidents := incidents[i := inc.(status := Resolved, nextFireAt := None, deadlineAt := None,
                                       resolvedAt := Some(now), updatedAt := now)];
      events := events + [Event(i, ResolvedEvent, Some(inc.status), Resolved, inc.currentTier, None, now)];
      r := Done;
    }

    /** SELECT ... ORDER BY created_at DESC LIMIT 1 over the messages to a phone. */
    method LatestTo(phone: string) returns (found: Option<Id>)
      ensures found == LastTo(messages, phone)
    {
      var k := |messages|;
      assert messages[..k] == messages;
      while k > 0 && messages[k - 1].phone != phone
        invariant 0 <= k <= |messages|
        invariant LastTo(messages, phone) == LastTo(messages[..k], phone)
      {
        assert messages[..k][..k - 1] == messages[..k - 1];
        k := k - 1;
      }
      found := if k == 0 then None else Some(messages[k - 1].incident);
    }

    /** An inbound reply acts on the incident of the latest message sent to that phone. */
    method InboundReply(phone: string, keyword: string, now: Time)
      modifies this`incidents, this`events, this`unmatched
      ensures match LastTo(messages, phone)
              case None => Tables() == old(Tables()) && unmatched == old(unmatched) + [(phone, keyword)]
              case Some(i) =>
                && unmatched == old(unmatched)
                && (i !in old(incidents) ==> Tables() == old(Tables()))
                && (i in old(incidents) ==>
                      && Replied(old(Tables()), Tables(), i, keyword, now)
                      && Tables() == Escalation.CloseWrite(
                           old(Tables()), Escalation.Look(i, old(incidents)[i], Escalation.Reply(keyword), now), now))
    {
      var found := LatestTo(phone);
      if found.None? {
        unmatched := unmatched + [(phone, keyword)];
      } else if found.value in incidents {
        ReplyTo(found.value, keyword, now);
      }
    }

    /** The reply is logged, and its keyword may close the incident. */
    method ReplyTo(i: Id, keyword: string, now: Time)
      requires i in incidents
      modifies this`incidents, this`events
      ensures Replied(old(Tables()), Tables(), i, keyword, now)
      ensures Tables() == Escalation.CloseWrite(
        old(Tables()), Escalation.Look(i, old(incidents)[i], Escalation.Reply(keyword), now), now)
    {
      var inc := incidents[i];
      events := events + [Event(i, ReplyReceived, Some(inc.status), inc.status, inc.currentTier, None, now)];
      if keyword in Escalation.ACK_KEYWORDS && Active(inc.status) {
        incidents := incidents[i := inc.(status := Acknowledged, nextFireAt := None, deadlineAt := None,
                                         ackedAt := Some(now), updatedAt := now)];
        events := events + [Event(i, AckEvent, Some(inc.status), Acknowledged, inc.currentTier, None, now)];
      } else if keyword in Escalation.RESOLVE_KEYWORDS && (Active(inc.status) || inc.status.Acknowledged?) {
        incidents := incidents[i := inc.(status := Resolved, nextFireAt := None, deadlineAt := None,
                                         resolvedAt := Some(now), updatedAt := now)];
        events := events + [Event(i, ResolvedEvent, Some(inc.status), Resolved, inc.currentTier, None, now)];
      }
      assert events == old(events) + Escalation.CloseEvents(
        Escalation.Look(i, inc, Escalation.Reply(keyword), now), now);
    }

    // ----- ingest -----

    /** The lookups, then the inserts in one transaction with both unique indexes behind them. */
    method CreateIncident(env: Env, rec: Ingest.Record, i: Id, outboxId: Id, at: Time) returns (r: Reason)
      requires rec.Anomaly? && i !in incidents
      modifies this`incidents, this`idempotency, this`events, this`outbox, this`messages
      ensures var inserted := Ingest.Insert(env, old(Tables()), rec, i, outboxId, at);
              && Tables() == (if inserted.Some? then inserted.value else old(Tables()))
              && (r == Created(i) <==> inserted.Some?) && !r.Dlq?
      ensures r.DuplicateEventId?
        <==> exists k :: 0 <= k < |old(events)| && old(events)[k].sourceEvent == Some(rec.eventId)
      ensures r.DuplicateOpenDedup?
        <==> !r.DuplicateEventId?
             && exists j :: j in old(incidents) && old(incidents)[j].dedupKey == rec.dedupKey
                            && old(incidents)[j].status in {AwaitingOperator, Tier1, Tier2}
      ensures r.Created? ==> Effects.MadeInColumns(env, old(Tables()), Tables(), rec, i, outboxId, at)
    {
      if Ingest.EventSeen(events, rec.eventId) {
        return DuplicateEventId;
      }
      if Ingest.OpenExists(incidents, rec.dedupKey) {
        return DuplicateOpenDedup;
      }
      var savepoint := Tables();
      var due := Some(at + Seconds(env.graceSeconds));
      incidents := incidents[i := Incident(rec.facts, rec.dedupKey, AwaitingOperator, 0, due, due,
                                           None, None, None, None, at, at)];
      events := events + [Event(i, CreatedEvent, None, AwaitingOperator, 0, Some(rec.eventId), at)];
      var config := env.config(rec.facts, 0, at);
      var phone := env.onCall(Operator, rec.facts, at);
      if phone.Some? && config.Some? {
        var ok := InsertOutbox(outboxId, NewOutboxRow(i, 0, phone.value, config.value.template, at));
        if !ok {
          Restore(savepoint);
          return Raised;
        }
      }
      r := Created(i);
    }

    /** A malformed record goes to the dead-letter queue and touches no table. */
    method HandleMessage(env: Env, rec: Ingest.Record, i: Id, outboxId: Id, at: Time) returns (r: Reason)
      requires i !in incidents
      modifies this`incidents, this`idempotency, this`events, this`outbox, this`messages, this`dlq
      ensures r.Dlq? <==> rec.Malformed?
      ensures rec.Malformed? ==> dlq == old(dlq) + [rec] && Tables() == old(Tables())
      ensures rec.Anomaly? ==> dlq == old(dlq)
      ensures rec.Anomaly? ==>
        var inserted := Ingest.Insert(env, old(Tables()), rec, i, outboxId, at);
        Tables() == if inserted.Some? then inserted.value else old(Tables())
    {
      if rec.Malformed? {
        dlq := dlq + [rec];
        return Dlq;
      }
      r := CreateIncident(env, rec, i, outboxId, at);
    }

    // ----- relay -----

    /** Phase one: flip due PENDING rows, and SENDING rows whose lease ran out, to SENDING. */
    method ClaimOutbox(w: Id, lease: nat, batch: nat, now: Time) returns (claimed: seq<Id>)
      modifies this`outbox
      ensures NoRepeats(claimed) && |claimed| <= batch
      ensures forall o :: o in claimed ==>
        && o in old(outbox)
        && ((old(outbox)[o].status.Pending? && old(outbox)[o].nextAttemptAt <= now)
            || (old(outbox)[o].status.Sending? && old(outbox)[o].claimedUntil.Some?
                && old(outbox)[o].claimedUntil.value < now))
      ensures forall b ::
        (b in old(outbox) && b !in claimed
         && ((old(outbox)[b].status.Pending? && old(outbox)[b].nextAttemptAt <= now)
             || (old(outbox)[b].status.Sending? && old(outbox)[b].claimedUntil.Some?
                 && old(outbox)[b].claimedUntil.value < now))) ==>
        && |claimed| == batch
        && forall a :: a in claimed ==> old(outbox)[a].nextAttemptAt <= old(outbox)[b].nextAttemptAt
      ensures outbox.Keys == old(outbox.Keys)
      ensures forall o :: o in old(outbox) ==>
        outbox[o] == if o in claimed
                     then old(outbox)[o].(status := Sending, claimedBy := Some(w), claimedUntil := Some(now + lease),
                                          attempts := old(outbox)[o].attempts + 1)
                     else old(outbox)[o]
      ensures outbox == Relay.ClaimOutbox(old(outbox), w, Ids(claimed), now + lease)
    {
      var due := map o | o in outbox && Relay.Claimable(outbox[o], now) :: outbox[o].nextAttemptAt;
      claimed := SelectEarliest(due, batch);
      assert forall o :: o in claimed <==> o in Ids(claimed);
      if |claimed| < batch {
        AllPicked(due.Keys, Ids(claimed));
      }
      forall a, b | a in claimed && b in outbox && b !in claimed && Relay.Claimable(outbox[b], now)
        ensures outbox[a].nextAttemptAt <= outbox[b].nextAttemptAt
      {
        assert b in due.Keys - Ids(claimed) && due[b] == outbox[b].nextAttemptAt;
      }
      outbox := Relay.ClaimOutbox(outbox, w, Ids(claimed), now + lease);
    }

    /** Phase three for one row: settle it if it is still SENDING. */
    method SettleRow(o: Id, result: Relay.ProviderResult, at: Time, base: nat)
      modifies this`outbox, this`messages
      ensures Tables() == Relay.Settle(old(Tables()), o, result, at, base)
    {
      if o !in outbox || !outbox[o].status.Sending? {
        return;
      }
      var row := outbox[o];
      if result.status.SentOk? {
        messages := messages + [Message(o, row.incident, row.phone, result.channel, result.sid)];
        row := row.(status := Sent, sentAt := Some(at), providerSid := result.sid,
                    claimedBy := None, claimedUntil := None);
      } else if row.attempts >= row.maxAttempts {
        row := row.(status := Dead, claimedBy := None, claimedUntil := None);
      } else {
        row := row.(status := Pending, nextAttemptAt := at + Seconds(Relay.BackoffSeconds(row.attempts, base)),
                    claimedBy := None, claimedUntil := None);
      }
      outbox := outbox[o := row];
    }

    /** Claim a batch, then send and settle each row.  Every claimed row ends as its chain's answer and
        its attempts decide, once, and no other row changes. */
    method RunOnce(w: Id, lease: nat, batch: nat, now: Time, base: nat, answers: map<Id, seq<Relay.ProviderResult>>)
        returns (claimed: seq<Id>, ghost results: seq<Relay.ProviderResult>)
      requires forall o :: o in outbox ==> o in answers && answers[o] != []
      modifies this`outbox, this`messages
      ensures |results| == |claimed| && NoRepeats(claimed)
      ensures forall o :: o in claimed ==> o in old(outbox)
      ensures forall k :: 0 <= k < |claimed| ==>
        TriedOnce(old(outbox), outbox, claimed[k], results[k], now, base, answers)
      ensures outbox.Keys == old(outbox.Keys)
      ensures forall o :: o in old(outbox) && o !in claimed ==> outbox[o] == old(outbox)[o]
      ensures messages == old(messages) + Relay.SentMessages(old(outbox), claimed, results)
    {
      claimed := ClaimOutbox(w, lease, batch, now);
      ghost var taken := outbox;
      results := SendAndSettle(claimed, now, base, answers);
      EachTried(old(outbox), taken, outbox, claimed, results, now, base, answers);
      Relay.SameMessages(old(outbox), taken, claimed, results);
    }

    /** Ask the providers, then settle the row by their answer. */
    method SendAndSettleRow(o: Id, now: Time, base: nat, answers: seq<Relay.ProviderResult>)
        returns (r: Relay.ProviderResult)
      requires o in outbox && outbox[o].status.Sending? && answers != []
      modifies this`outbox, this`messages
      ensures Relay.ChainAnswer(answers, r)
      ensures outbox == old(outbox)[o := Relay.SettledRow(old(outbox)[o], r, now, base)]
      ensures messages == old(messages)
        + (if r.status.SentOk? then [Relay.MessageOf(o, old(outbox)[o], r)] else [])
    {
      var result, tried := Relay.ChainSend(answers);
      r := result.value;
      SettleRow(o, r, now, base);
    }

    method SendAndSettle(claimed: seq<Id>, now: Time, base: nat, answers: map<Id, seq<Relay.ProviderResult>>)
        returns (ghost results: seq<Relay.ProviderResult>)
      requires NoRepeats(claimed)
      requires forall o :: o in claimed ==> o in outbox && outbox[o].status.Sending? && o in answers && answers[o] != []
      modifies this`outbox, this`messages
      ensures |results| == |claimed| && outbox.Keys == old(outbox.Keys)
      ensures forall k :: 0 <= k < |claimed| ==>
        && Relay.ChainAnswer(answers[claimed[k]], results[k])
        && outbox[claimed[k]] == Relay.SettledRow(old(outbox)[claimed[k]], results[k], now, base)
      ensures forall o :: o in old(outbox) && o !in claimed ==> outbox[o] == old(outbox)[o]
      ensures messages == old(messages) + Relay.SentMessages(old(outbox), claimed, results)
    {
      results := [];
      var k := 0;
      while k < |claimed|
        invariant 0 <= k <= |claimed|
        invariant SettledSoFar(old(outbox), outbox, claimed, k, results, now, base, answers)
        invariant messages == old(messages) + Relay.SentMessages(old(outbox), claimed[..k], results)
      {
        ghost var before := outbox;
        var result := SendAndSettleRow(claimed[k], now, base, answers[claimed[k]]);
        SettleNext(old(outbox), before, claimed, k, results, now, base, answers, result);
        OneMoreMessage(old(outbox), old(messages), claimed, k, results, result);
        results := results + [result];
        k := k + 1;
      }
      assert claimed[..k] == claimed;
    }
  }

  /** The row was pending and due, or in sending with its lease run out; what its providers would answer is its
      chain's answer, and by that answer and its attempts it is sent, dead or pending again. */
  ghost predicate TriedOnce(was: map<Id, OutboxRow>, outbox: map<Id, OutboxRow>, o: Id, r: Relay.ProviderResult,
                            now: Time, base: nat, answers: map<Id, seq<Relay.ProviderResult>>) {
    && o in was && o in outbox && o in answers
    && ((was[o].status.Pending? && was[o].nextAttemptAt <= now)
        || (was[o].status.Sending? && was[o].claimedUntil.Some? && was[o].claimedUntil.value < now))
    && Relay.ChainAnswer(answers[o], r)
    && outbox[o] == Effects.Tried(was[o], r, now, base)
  }

  lemma EachTried(was: map<Id, OutboxRow>, taken: map<Id, OutboxRow>, outbox: map<Id, OutboxRow>, claimed: seq<Id>,
                  results: seq<Relay.ProviderResult>, now: Time, base: nat,
                  answers: map<Id, seq<Relay.ProviderResult>>)
    requires |results| == |claimed|
    requires forall o :: o in claimed ==>
      && o in was && o in taken && o in answers
      && ((was[o].status.Pending? && was[o].nextAttemptAt <= now)
          || (was[o].status.Sending? && was[o].claimedUntil.Some? && was[o].claimedUntil.value < now))
      && taken[o] == was[o].(status := Sending, attempts := was[o].attempts + 1, claimedBy := taken[o].claimedBy,
                             claimedUntil := taken[o].claimedUntil)
    requires forall k :: 0 <= k < |claimed| ==>
      && claimed[k] in outbox && Relay.ChainAnswer(answers[claimed[k]], results[k])
      && outbox[claimed[k]] == Relay.SettledRow(taken[claimed[k]], results[k], now, base)
    ensures forall k :: 0 <= k < |claimed| ==> TriedOnce(was, outbox, claimed[k], results[k], now, base, answers)
  {
    forall k | 0 <= k < |claimed| ensures TriedOnce(was, outbox, claimed[k], results[k], now, base, answers) {
      assert claimed[k] in claimed;
      Effects.SettledIsTried(was[claimed[k]], taken[claimed[k]], results[k], now, base);
    }
  }

  /** The first k of the claimed rows are settled by their chains' answers, the others are as they were. */
  ghost predicate SettledSoFar(was: map<Id, OutboxRow>, outbox: map<Id, OutboxRow>, claimed: seq<Id>, k: nat,
                               results: seq<Relay.ProviderResult>, now: Time, base: nat,
                               answers: map<Id, seq<Relay.ProviderResult>>)
    requires forall o :: o in claimed ==> o in was && o in answers
  {
    && k <= |claimed| && |results| == k && outbox.Keys == was.Keys
    && (forall j :: 0 <= j < k ==> SettledBy(was, outbox, claimed[j], results[j], now, base, answers))
    && (forall j :: k <= j < |claimed| ==> outbox[claimed[j]] == was[claimed[j]])
    && (forall o :: o in was && o !in claimed ==> outbox[o] == was[o])
  }

  ghost predicate SettledBy(was: map<Id, OutboxRow>, outbox: map<Id, OutboxRow>, o: Id, r: Relay.ProviderResult,
                            now: Time, base: nat, answers: map<Id, seq<Relay.ProviderResult>>)
    requires o in was && o in outbox && o in answers
  {
    Relay.ChainAnswer(answers[o], r) && outbox[o] == Relay.SettledRow(was[o], r, now, base)
  }

  lemma SettleNext(was: map<Id, OutboxRow>, outbox: map<Id, OutboxRow>, claimed: seq<Id>, k: nat,
                   results: seq<Relay.ProviderResult>, now: Time, base: nat,
                   answers: map<Id, seq<Relay.ProviderResult>>, r: Relay.ProviderResult)
    requires NoRepeats(claimed) && k < |claimed|
    requires forall o :: o in claimed ==> o in was && o in answers
    requires SettledSoFar(was, outbox, claimed, k, results, now, base, answers)
    requires Relay.ChainAnswer(answers[claimed[k]], r)
    ensures SettledSoFar(was, outbox[claimed[k] := Relay.SettledRow(was[claimed[k]], r, now, base)],
                         claimed, k + 1, results + [r], now, base, answers)
  {
    var next := outbox[claimed[k] := Relay.SettledRow(was[claimed[k]], r, now, base)];
    forall j | 0 <= j < k + 1
      ensures SettledBy(was, next, claimed[j], (results + [r])[j], now, base, answers)
    {
      if j < k {
        assert SettledBy(was, outbox, claimed[j], results[j], now, base, answers) && claimed[j] != claimed[k];
      }
    }
  }

  lemma OneMoreMessage(outbox: map<Id, OutboxRow>, sent: seq<Message>, rows: seq<Id>, k: nat,
                       results: seq<Relay.ProviderResult>,
                       r: Relay.ProviderResult)
    requires k < |rows| && |results| == k && forall o :: o in rows ==> o in outbox
    ensures sent + Relay.SentMessages(outbox, rows[..k + 1], results + [r])
            == sent + Relay.SentMessages(outbox, rows[..k], results)
               + (if r.status.SentOk? then [Relay.MessageOf(rows[k], outbox[rows[k]], r)] else [])
  {
    assert rows[..k + 1][..k] == rows[..k] && (results + [r])[..k] == results;
  }

  /** A reply on incident i: logged in the incident's status, it acknowledges an open incident by one set of keywords
      and resolves an open or acknowledged one by another, each under its own name in the log. */
  ghost predicate Replied(d: Db, g: Db, i: Id, keyword: string, now: Time)
    requires i in d.incidents
  {
    var row := d.incidents[i];
    var reply := Event(i, ReplyReceived, Some(row.status), row.status, row.currentTier, None, now);
    var stopped := row.(nextFireAt := None, deadlineAt := None, updatedAt := now);
    && g.idempotency == d.idempotency && g.outbox == d.outbox && g.messages == d.messages
    && if keyword in {"ACK", "ACKNOWLEDGE", "NOTED"} && row.status in {AwaitingOperator, Tier1, Tier2} then
         && g.incidents == d.incidents[i := stopped.(status := Acknowledged, ackedAt := Some(now))]
         && g.events == d.events + [reply, Event(i, AckEvent, Some(row.status), Acknowledged, row.currentTier, None,
                                                 now)]
       else if keyword in {"RESOLVED", "RESOLVE", "DONE", "FIXED", "CLOSED"}
               && row.status in {AwaitingOperator, Tier1, Tier2, Acknowledged} then
         && g.incidents == d.incidents[i := stopped.(status := Resolved, resolvedAt := Some(now))]
         && g.events == d.events + [reply, Event(i, ResolvedEvent, Some(row.status), Resolved, row.currentTier, None,
                                                 now)]
       else
         g.incidents == d.incidents && g.events == d.events + [reply]
  }

  /** The incident of the latest message to a phone. */
  function LastTo(messages: seq<Message>, phone: string): Option<Id> {
    if messages == [] then None
    else if messages[|messages| - 1].phone == phone then Some(messages[|messages| - 1].incident)
    else LastTo(messages[..|messages| - 1], phone)
  }

  /** It is found if there is one, and no later message went to that phone. */
  lemma {:induction false} LatestOfAll(messages: seq<Message>, phone: string)
    ensures LastTo(messages, phone).None? <==> forall k :: 0 <= k < |messages| ==> messages[k].phone != phone
    ensures LastTo(messages, phone).Some? ==>
      exists k :: 0 <= k < |messages| && messages[k].phone == phone
                  && messages[k].incident == LastTo(messages, phone).value
                  && forall j :: k < j < |messages| ==> messages[j].phone != phone
  {
    if messages != [] && messages[|messages| - 1].phone != phone {
      var front := messages[..|messages| - 1];
      LatestOfAll(front, phone);
      assert forall k :: 0 <= k < |front| ==> front[k] == messages[k];
    }
  }

  lemma AllPicked(all: set<Id>, picked: set<Id>)
    requires picked <= all && |picked| == |all|
    ensures picked == all
  {
    assert all == picked + (all - picked);
    assert |all - picked| == 0;
  }

  lemma ClaimedPasses(env: Env, now: Time, before: map<Id, Incident>, rows: map<Id, Incident>,
                      claimed: set<Id>, processed: set<Id>, i: Id)
    requires PolledSoFar(env, now, before, rows, claimed, processed) && i in claimed && i !in processed
    ensures i in rows && Escalation.PassesRecheck(rows[i])
  {
    assert OnlyClaimed(before[i], rows[i]);
  }

  /** SELECT ... ORDER BY key LIMIT batch: the ids with the earliest keys. */
  method SelectEarliest(keys: map<Id, Time>, batch: nat) returns (picked: seq<Id>)
    ensures Ids(picked) <= keys.Keys && NoRepeats(picked)
    ensures |Ids(picked)| == |picked| == if |keys| <= batch then |keys| else batch
    ensures forall a, b :: a in Ids(picked) && b in keys.Keys - Ids(picked) ==> keys[a] <= keys[b]
  {
    var left := keys.Keys;
    picked := [];
    while |picked| < batch && left != {}
      invariant Ids(picked) <= keys.Keys && left == keys.Keys - Ids(picked)
      invariant |Ids(picked)| == |picked| <= batch && NoRepeats(picked)
      invariant forall a, b :: a in Ids(picked) && b in left ==> keys[a] <= keys[b]
      decreases left
    {
      ghost var first := Earliest(keys, left);
      var next :| next in left && forall b :: b in left ==> keys[next] <= keys[b];
      assert Ids(picked + [next]) == Ids(picked) + {next};
      picked := picked + [next];
      left := left - {next};
    }
    assert |keys.Keys| == |Ids(picked)| + |left|;
  }

  lemma {:induction false} Earliest(keys: map<Id, Time>, left: set<Id>) returns (a: Id)
    requires left != {} && left <= keys.Keys
    ensures a in left && forall b :: b in left ==> keys[a] <= keys[b]
    decreases |left|
  {
    a :| a in left;
    if left != {a} {
      var b := Earliest(keys, left - {a});
      a := if keys[b] < keys[a] then b else a;
    }
  }

  ghost predicate NoRepeats(s: seq<Id>) {
    forall j, k :: 0 <= j < k < |s| ==> s[j] != s[k]
  }

  /** Part of a poll: the processed incidents are a tier further, the other claimed ones differ in their
      claim only, the rest not at all. */
  ghost predicate PolledSoFar(env: Env, now: Time, before: map<Id, Incident>, rows: map<Id, Incident>,
                              claimed: set<Id>, processed: set<Id>) {
    && rows.Keys == before.Keys && claimed <= before.Keys
    && (forall i :: i in before ==>
          if i in processed then Recovery.Advanced(env, now, before[i], rows[i])
          else if i in claimed then OnlyClaimed(before[i], rows[i])
          else rows[i] == before[i])
    && (forall i :: i in claimed ==> Escalation.PassesRecheck(before[i]))
  }

  predicate OnlyClaimed(a: Incident, b: Incident) {
    b == a.(claimedBy := b.claimedBy, claimedUntil := b.claimedUntil)
  }

  lemma NextRow(rows: seq<Id>, k: nat)
    requires NoRepeats(rows) && k < |rows|
    ensures rows[k] in Ids(rows) && rows[k] !in Ids(rows[..k]) && Ids(rows[..k + 1]) == Ids(rows[..k]) + {rows[k]}
    ensures rows[..k] + [rows[k]] == rows[..k + 1]
  {
  }

  lemma ClaimStarts(env: Env, now: Time, before: map<Id, Incident>, rows: map<Id, Incident>, w: Id, ids: set<Id>,
                    batch: nat, until: Time)
    requires Recovery.IsBatch(before, DueRows(before, now), ids, batch)
    requires rows == Escalation.ClaimRows(before, w, ids, until)
    ensures PolledSoFar(env, now, before, rows, ids, {})
  {
    assert forall i :: i in ids ==> i in DueRows(before, now);
  }

  lemma PollEnds(env: Env, now: Time, before: map<Id, Incident>, rows: map<Id, Incident>, fired: seq<Id>)
    requires PolledSoFar(env, now, before, rows, Ids(fired), Ids(fired))
    ensures rows.Keys == before.Keys
    ensures forall i :: i in before ==>
      if i in fired then Recovery.Advanced(env, now, before[i], rows[i]) else rows[i] == before[i]
  {
  }

  lemma PollsOn(env: Env, now: Time, before: map<Id, Incident>, was: map<Id, Incident>, rows: map<Id, Incident>,
                claimed: set<Id>, processed: set<Id>, i: Id)
    requires PolledSoFar(env, now, before, was, claimed, processed) && i in claimed && i !in processed
    requires rows.Keys == was.Keys && Recovery.Advanced(env, now, was[i], rows[i])
    requires forall j :: j in was && j != i ==> rows[j] == was[j]
    ensures PolledSoFar(env, now, before, rows, claimed, processed + {i})
  {
    assert OnlyClaimed(before[i], was[i]);
  }

  ghost function DueRows(rows: map<Id, Incident>, now: Time): set<Id> {
    set i | i in rows && Escalation.Claimable(rows[i], now)
  }

  function Ids(s: seq<Id>): set<Id> {
    set i | i in s
  }

  lemma FireKeepsValid(env: Env, db: Db, i: Id, o: Id, now: Time)
    requires Escalation.EscalationOk(db) && Escalation.PagesOk(db) && i in db.incidents && o !in db.outbox
    requires Escalation.PassesRecheck(db.incidents[i])
    ensures var r := Escalation.FireTransition(env, db, i, o, now);
            && r == Escalation.FireRow(env, db, i, o, now)
            && r.outcome.Fired? && Escalation.EscalationOk(r.db) && Escalation.PagesOk(r.db)
            && r.db.incidents.Keys == db.incidents.Keys && r.db.messages == db.messages
            && Recovery.Advanced(env, now, db.incidents[i], r.db.incidents[i])
            && (forall j :: j in db.incidents && j != i ==> r.db.incidents[j] == db.incidents[j])
  {
    Escalation.FireAdvances(env, db, i, o, now);
    Escalation.FireEffect(env, db, i, o, now);
    Escalation.FireKeepsEscalation(env, db, i, o, now);
    Escalation.FireKeepsPages(env, db, i, o, now);
  }

  lemma ClaimKeepsEscalation(d: Db, d': Db, w: Id, ids: set<Id>, until: Time)
    requires Escalation.EscalationOk(d) && d' == d.(incidents := Escalation.ClaimRows(d.incidents, w, ids, until))
    ensures Escalation.EscalationOk(d')
  {
    Escalation.EscalationFrame(d, d');
  }

  lemma ClaimKeepsPages(d: Db, d': Db, w: Id, ids: set<Id>, until: Time)
    requires Escalation.PagesOk(d) && d' == d.(incidents := Escalation.ClaimRows(d.incidents, w, ids, until))
    ensures Escalation.PagesOk(d')
  {
  }
}
