/** The notifier relay: claiming outbox rows, sending through a chain of providers, settling. */
module Relay {
  import opened Model

  // ----- the provider chain -----

  datatype SendStatus = SentOk | Degraded | Failed

  datatype ProviderResult = ProviderResult(status: SendStatus, channel: string, sid: Option<string>)

  /** The result of a chain whose providers would answer `answers`: the first 'sent', else the last. */
  ghost predicate ChainAnswer(answers: seq<ProviderResult>, r: ProviderResult) {
    exists k :: 0 <= k < |answers| && answers[k] == r
      && (forall j :: 0 <= j < k ==> !answers[j].status.SentOk?)
      && (r.status.SentOk? || k == |answers| - 1)
  }

  /** A chain accepts a message if and only if one of its providers does. */
  lemma ChainAcceptsIff(answers: seq<ProviderResult>, r: ProviderResult)
    requires ChainAnswer(answers, r)
    ensures r.status.SentOk? <==> exists k :: 0 <= k < |answers| && answers[k].status.SentOk?
  {
  }

  /** Tries the providers in order and stops at the first that sent. */
  method ChainSend(answers: seq<ProviderResult>) returns (r: Option<ProviderResult>, ghost tried: nat)
    ensures r.None? <==> answers == []
    ensures r.Some? ==> ChainAnswer(answers, r.value)
    ensures r.Some? && r.value.status.SentOk? <==> exists k :: 0 <= k < |answers| && answers[k].status.SentOk?
    ensures r.Some? ==> 1 <= tried <= |answers| && r.value == answers[tried - 1]
  {
    r, tried := None, 0;
    var n := 0;
    while n < |answers|
      invariant 0 <= n <= |answers| && tried == n
      invariant forall j :: 0 <= j < n ==> !answers[j].status.SentOk?
      invariant n == 0 ==> r == None
      invariant n > 0 ==> r == Some(answers[n - 1])
    {
      r, tried := Some(answers[n]), n + 1;
      if answers[n].status.SentOk? {
        return;
      }
      n := n + 1;
    }
  }

  // ----- backoff -----

  function Pow2(n: nat): (p: nat)
    ensures p >= 1
  {
    if n == 0 then 1 else 2 * Pow2(n - 1)
  }

  const MAX_BACKOFF_SECONDS := 3600

  function BackoffSeconds(attempts: nat, base: nat): nat {
    var delay := base * Pow2(if attempts == 0 then 0 else attempts - 1);
    if delay < MAX_BACKOFF_SECONDS then delay else MAX_BACKOFF_SECONDS
  }

  /** Seconds waited after the first n failed attempts together. */
  function TotalBackoff(n: nat, base: nat): nat {
    if n == 0 then 0 else TotalBackoff(n - 1, base) + BackoffSeconds(n, base)
  }

  lemma Doubling(base: nat, p: nat)
    ensures base * (2 * p) == 2 * (base * p)
    ensures base * (2 * p - 1) == base * (p - 1) + base * p
  {
  }

  /** Exactly when the cap has not bitten, the waits sum to base * (2^n - 1). */
  lemma {:induction false} TotalBackoffClosedForm(n: nat, base: nat)
    ensures TotalBackoff(n, base) <= base * (Pow2(n) - 1)
    ensures n >= 1 ==>
      (TotalBackoff(n, base) == base * (Pow2(n) - 1) <==> base * Pow2(n - 1) <= MAX_BACKOFF_SECONDS)
  {
    if n > 0 {
      TotalBackoffClosedForm(n - 1, base);
      Doubling(base, Pow2(n - 1));
      if n >= 2 {
        Doubling(base, Pow2(n - 2));
      }
    }
  }

  // ----- claim, send, settle -----

  predicate Claimable(row: OutboxRow, now: Time) {
    || (row.status.Pending? && row.nextAttemptAt <= now)
    || (row.status.Sending? && row.claimedUntil.Some? && row.claimedUntil.value < now)
  }

  function ClaimOutbox(outbox: map<Id, OutboxRow>, w: Id, ids: set<Id>, until: Time): map<Id, OutboxRow> {
    map o | o in outbox ::
      if o in ids then
        outbox[o].(status := Sending, claimedBy := Some(w), claimedUntil := Some(until),
                   attempts := outbox[o].attempts + 1)
      else outbox[o]
  }

  /** What a relay holds for a row it claimed: the attempt it counted, the end of its lease, and the outcome
      once its send has returned. */
  datatype Parcel = Parcel(attempt: nat, until: Time, outcome: Option<(ProviderResult, Time)>)

  function NewParcels(outbox: map<Id, OutboxRow>, w: Id, ids: set<Id>, until: Time): map<(Id, Id), Parcel> {
    map o | o in ids && o in outbox :: (w, o) := Parcel(outbox[o].attempts + 1, until, None)
  }

  function SettledRow(row: OutboxRow, result: ProviderResult, at: Time, base: nat): OutboxRow {
    var free := row.(claimedBy := None, claimedUntil := None);
    if result.status.SentOk? then
      free.(status := Sent, sentAt := Some(at), providerSid := result.sid)
    else if row.attempts >= row.maxAttempts then
      free.(status := Dead)
    else
      free.(status := Pending, nextAttemptAt := at + Seconds(BackoffSeconds(row.attempts, base)))
  }

  /** The out-message of an accepted send. */
  function MessageOf(o: Id, row: OutboxRow, r: ProviderResult): Message {
    Message(o, row.incident, row.phone, r.channel, r.sid)
  }

  /** Settles a row that is SENDING, whoever claimed it; leaves any other row alone. */
  function Settle(db: Db, o: Id, result: ProviderResult, at: Time, base: nat): Db {
    if o !in db.outbox || !db.outbox[o].status.Sending? then db
    else
      var row := db.outbox[o];
      db.(outbox := db.outbox[o := SettledRow(row, result, at, base)],
          messages := if result.status.SentOk?
                      then db.messages + [MessageOf(o, row, result)]
                      else db.messages)
  }

  /** The out-messages of rows settled one after the other: one for each accepted send, addressed as its row. */
  function SentMessages(outbox: map<Id, OutboxRow>, rows: seq<Id>, results: seq<ProviderResult>): seq<Message>
    requires |results| == |rows| && forall k :: 0 <= k < |rows| ==> rows[k] in outbox
  {
    if rows == [] then []
    else
      var n := |rows| - 1;
      var row, r := outbox[rows[n]], results[n];
      SentMessages(outbox, rows[..n], results[..n])
      + (if r.status.SentOk? then [MessageOf(rows[n], row, r)] else [])
  }

  /** Rows that are addressed alike get the same messages. */
  lemma {:induction false} SameMessages(a: map<Id, OutboxRow>, b: map<Id, OutboxRow>, rows: seq<Id>,
                                        results: seq<ProviderResult>)
    requires |results| == |rows|
    requires forall o :: o in rows ==> o in a && o in b && a[o].incident == b[o].incident && a[o].phone == b[o].phone
    ensures SentMessages(a, rows, results) == SentMessages(b, rows, results)
    decreases |rows|
  {
    if rows != [] {
      var n := |rows| - 1;
      assert rows[n] in rows;
      SameMessages(a, b, rows[..n], results[..n]);
    }
  }

  // ----- invariants -----

  /** Number of out-messages written for outbox row o. */
  function MessagesFor(messages: seq<Message>, o: Id): nat {
    if messages == [] then 0
    else MessagesFor(messages[..|messages| - 1], o) + (if messages[|messages| - 1].row == o then 1 else 0)
  }

  lemma MessagesGrow(messages: seq<Message>, m: Message, o: Id)
    ensures MessagesFor(messages + [m], o) == MessagesFor(messages, o) + (if m.row == o then 1 else 0)
  {
    assert (messages + [m])[..|messages|] == messages;
  }

  /** One out-message for each SENT row, none for any other. */
  ghost predicate SettledOnce(db: Db, o: Id) {
    MessagesFor(db.messages, o) == if o in db.outbox && db.outbox[o].status.Sent? then 1 else 0
  }

  ghost predicate RelayOk(db: Db, parcels: map<(Id, Id), Parcel>, accepted: set<Id>) {
    && (forall o: Id :: SettledOnce(db, o))
    && (forall o :: o in db.outbox ==>
          var row := db.outbox[o];
          && (row.status.Sent? ==> o in accepted)
          && (row.status.Pending? ==> row.attempts < row.maxAttempts)
          && (row.status.Sending? <==> row.claimedUntil.Some?)
          && (row.status.Dead? ==> row.attempts >= row.maxAttempts)
          && (!row.status.Pending? ==> row.attempts >= 1))
    && (forall k :: k in parcels ==>
          && k.1 in db.outbox
          && (parcels[k].outcome.Some? && parcels[k].outcome.value.0.status.SentOk? ==> k.1 in accepted))
    && (forall o :: o in accepted ==> o in db.outbox)
  }

  lemma SettleKeepsRelay(db: Db, parcels: map<(Id, Id), Parcel>, accepted: set<Id>, k: (Id, Id), base: nat)
    requires RelayOk(db, parcels, accepted) && k in parcels && parcels[k].outcome.Some?
    ensures var (result, at) := parcels[k].outcome.value;
            RelayOk(Settle(db, k.1, result, at, base), parcels - {k}, accepted)
  {
    var (result, at) := parcels[k].outcome.value;
    var d := Settle(db, k.1, result, at, base);
    forall o: Id ensures SettledOnce(d, o) {
      assert SettledOnce(db, o) && SettledOnce(db, k.1);
      if d.messages != db.messages {
        MessagesGrow(db.messages, d.messages[|db.messages|], o);
      }
    }
  }

  lemma ClaimKeepsRelay(db: Db, parcels: map<(Id, Id), Parcel>, accepted: set<Id>,
                        w: Id, ids: set<Id>, now: Time, until: Time)
    requires RelayOk(db, parcels, accepted)
    requires forall o :: o in ids ==> o in db.outbox && Claimable(db.outbox[o], now)
    ensures RelayOk(db.(outbox := ClaimOutbox(db.outbox, w, ids, until)),
                    parcels + NewParcels(db.outbox, w, ids, until), accepted)
  {
    var d := db.(outbox := ClaimOutbox(db.outbox, w, ids, until));
    forall o: Id ensures SettledOnce(d, o) {
      assert SettledOnce(db, o);
    }
  }
}
