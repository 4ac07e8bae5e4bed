/** What consumers achieve: every record that was ever produced gets handled and its offset committed. */
module CatchUp {
  import opened Model
  import opened Protocol
  import opened Effects
  import opened Recovery
  import Escalation
  import Guarantees
  import Ingest

  /** A consumer stands at an offset, in some phase of handling the record there. */
  ghost predicate StandsAt(q: Ingest.Intake, c: Id, p: Id, o: nat, phase: Ingest.Phase) {
    c in q.consumers && q.consumers[c] == Ingest.Consumer(p, o, phase)
  }

  /** A record that makes an incident: its event id is new, and no open incident has its key. */
  ghost predicate IsNew(db: Db, rec: Ingest.Record) {
    && rec.Anomaly?
    && !(exists k :: 0 <= k < |db.events| && db.events[k].sourceEvent == Some(rec.eventId))
    && !(exists j :: j in db.incidents && db.incidents[j].dedupKey == rec.dedupKey
                     && db.incidents[j].status in {AwaitingOperator, Tier1, Tier2})
  }

  /** What handling the record at (p, o) comes to: a malformed one goes to the dead-letter topic, a new one makes an
      incident, and any other changes nothing. */
  ghost predicate HandledInColumns(env: Env, s: Sys, f: Sys, p: Id, o: nat, rec: Ingest.Record) {
    && f.intake.dlq == (if rec.Malformed? then s.intake.dlq + [Ingest.DeadLetter(p, o, rec.raw)] else s.intake.dlq)
    && if IsNew(s.db, rec)
       then exists i, page :: i !in s.db.incidents && MadeInColumns(env, s.db, f.db, rec, i, page, s.now)
       else f.db == s.db
  }

  /** The record is read: a new one is to be inserted, any other is done with. */
  lemma ReadsOne(env: Env, s: Sys, c: Id, p: Id, o: nat) returns (m: Sys)
    requires StandsAt(s.intake, c, p, o, Ingest.Ready) && o < |Ingest.LogOf(s.intake, p)|
    ensures Enabled(s, IngestRead(c)) && m == Apply(env, s, IngestRead(c))
    ensures m.db == s.db && m.now == s.now && m.intake.log == s.intake.log
    ensures var rec := Ingest.LogOf(s.intake, p)[o];
            if IsNew(s.db, rec)
            then StandsAt(m.intake, c, p, o, Ingest.Checked(s.now)) && m.intake.dlq == s.intake.dlq
            else StandsAt(m.intake, c, p, o, Ingest.Handled) && HandledInColumns(env, s, m, p, o, rec)
  {
    m := Apply(env, s, IngestRead(c));
    var rec := Ingest.LogOf(s.intake, p)[o];
    assert Ingest.RecordOf(s.intake, c) == rec;
    NewIff(s.db, rec);
  }

  lemma NewIff(db: Db, rec: Ingest.Record)
    ensures IsNew(db, rec)
      <==> rec.Anomaly? && !Ingest.EventSeen(db.events, rec.eventId) && !Ingest.OpenExists(db.incidents, rec.dedupKey)
  {
  }

  /** The inserts go through when nothing has come in between. */
  lemma InsertsOne(env: Env, m: Sys, c: Id, p: Id, o: nat) returns (i: Id, page: Id, f: Sys)
    requires Escalation.PagesOk(m.db) && StandsAt(m.intake, c, p, o, Ingest.Checked(m.now))
    requires o < |Ingest.LogOf(m.intake, p)| && IsNew(m.db, Ingest.LogOf(m.intake, p)[o])
    ensures Enabled(m, IngestInsert(c, i, page)) && f == Apply(env, m, IngestInsert(c, i, page))
    ensures StandsAt(f.intake, c, p, o, Ingest.Handled) && Escalation.PagesOk(f.db)
    ensures f.intake.log == m.intake.log && f.intake.dlq == m.intake.dlq
    ensures i !in m.db.incidents
    ensures MadeInColumns(env, m.db, f.db, Ingest.LogOf(m.intake, p)[o], i, page, m.now)
  {
    i := FreshId(m.db.incidents.Keys);
    page := FreshId(m.db.outbox.Keys);
    var rec := Ingest.LogOf(m.intake, p)[o];
    assert Ingest.RecordOf(m.intake, c) == rec;
    Inserts(env, m.db, rec, i, page, m.now);
    InsertKeepsPages(env, m.db, rec, i, page, m.now);
    f := Apply(env, m, IngestInsert(c, i, page));
  }

  lemma CommitsOne(env: Env, m: Sys, c: Id, p: Id, o: nat) returns (f: Sys)
    requires StandsAt(m.intake, c, p, o, Ingest.Handled)
    ensures Enabled(m, CommitOffset(c)) && f == Apply(env, m, CommitOffset(c))
    ensures f.db == m.db && f.intake.log == m.intake.log && f.intake.dlq == m.intake.dlq
    ensures StandsAt(f.intake, c, p, o + 1, Ingest.Ready) && Ingest.CommittedOf(f.intake, p) == o + 1
  {
    f := Apply(env, m, CommitOffset(c));
  }

  lemma LeadsNext(env: Env, s: Sys, past: seq<Step>, m: Sys, st: Step)
    requires Leads(env, s, past, m) && Enabled(m, st)
    ensures Leads(env, s, past + [st], Apply(env, m, st))
  {
    LeadsOne(env, m, st);
    LeadsOn(env, s, past, m, [st], Apply(env, m, st));
  }

  /** One record, handled alone, takes at most three steps. */
  lemma HandleOne(env: Env, s: Sys, c: Id, p: Id, o: nat) returns (steps: seq<Step>, f: Sys)
    requires Escalation.PagesOk(s.db) && StandsAt(s.intake, c, p, o, Ingest.Ready) && o < |Ingest.LogOf(s.intake, p)|
    ensures Leads(env, s, steps, f) && |steps| <= 3 && Escalation.PagesOk(f.db)
    ensures HandledInColumns(env, s, f, p, o, Ingest.LogOf(s.intake, p)[o])
    ensures StandsAt(f.intake, c, p, o + 1, Ingest.Ready) && f.intake.log == s.intake.log
    ensures Ingest.CommittedOf(f.intake, p) == o + 1
  {
    var m := ReadsOne(env, s, c, p, o);
    LeadsOne(env, s, IngestRead(c));
    steps := [IngestRead(c)];
    if IsNew(s.db, Ingest.LogOf(s.intake, p)[o]) {
      var i, page, made := InsertsOne(env, m, c, p, o);
      LeadsNext(env, s, steps, m, IngestInsert(c, i, page));
      steps, m := steps + [IngestInsert(c, i, page)], made;
    }
    f := CommitsOne(env, m, c, p, o);
    LeadsNext(env, s, steps, m, CommitOffset(c));
    steps := steps + [CommitOffset(c)];
  }

  lemma {:induction false} HandleRest(env: Env, s: Sys, c: Id, p: Id, o: nat) returns (steps: seq<Step>, f: Sys)
    requires Escalation.PagesOk(s.db) && StandsAt(s.intake, c, p, o, Ingest.Ready) && o <= |Ingest.LogOf(s.intake, p)|
    requires Ingest.CommittedOf(s.intake, p) == o
    ensures Leads(env, s, steps, f) && |steps| <= 3 * (|Ingest.LogOf(s.intake, p)| - o)
    ensures f.intake.log == s.intake.log && Ingest.CommittedOf(f.intake, p) == |Ingest.LogOf(s.intake, p)|
    decreases |Ingest.LogOf(s.intake, p)| - o
  {
    if o == |Ingest.LogOf(s.intake, p)| {
      steps, f := [], s;
    } else {
      var first, m := HandleOne(env, s, c, p, o);
      var rest;
      rest, f := HandleRest(env, m, c, p, o + 1);
      LeadsOn(env, s, first, m, rest, f);
      steps := first + rest;
    }
  }

  /** After every run, whatever consumers have crashed or stand where: a consumer that joins commits the whole log of
      its partition in at most three steps a record, and every record of it has then become an incident, is one that
      an event id or an incident with its key has suppressed, or is itself in the dead-letter topic. */
  lemma CatchesUp(env: Env, start: Sys, past: seq<Step>, c: Id, p: Id) returns (steps: seq<Step>, f: Sys)
    requires Init(start) && Feasible(env, start, past) && c !in Run(env, start, past).intake.consumers
    ensures var q := Run(env, start, past).intake;
            && Leads(env, Run(env, start, past), steps, f) && f.intake.log == q.log
            && |steps| <= 1 + 3 * (|Ingest.LogOf(q, p)| - Ingest.CommittedOf(q, p))
            && Ingest.CommittedOf(f.intake, p) == |Ingest.LogOf(q, p)|
    ensures forall o :: 0 <= o < |Ingest.LogOf(f.intake, p)| ==>
      Accounted(f, p, o, Ingest.LogOf(f.intake, p)[o])
  {
    ReachableInv(env, start, past);
    steps, f := JoinAndHandle(env, Run(env, start, past), c, p);
    LeadsOn(env, start, past, Run(env, start, past), steps, f);
    AllAccounted(env, start, past + steps, f, p);
  }

  lemma JoinAndHandle(env: Env, s: Sys, c: Id, p: Id) returns (steps: seq<Step>, f: Sys)
    requires Inv(s) && c !in s.intake.consumers
    ensures Leads(env, s, steps, f) && f.intake.log == s.intake.log
    ensures |steps| <= 1 + 3 * (|Ingest.LogOf(s.intake, p)| - Ingest.CommittedOf(s.intake, p))
    ensures Ingest.CommittedOf(f.intake, p) == |Ingest.LogOf(s.intake, p)|
  {
    CommittedInLog(s, p);
    LeadsOne(env, s, Join(c, p));
    var m := Apply(env, s, Join(c, p));
    var rest;
    rest, f := HandleRest(env, m, c, p, Ingest.CommittedOf(s.intake, p));
    LeadsOn(env, s, [Join(c, p)], m, rest, f);
    steps := [Join(c, p)] + rest;
  }

  lemma AllAccounted(env: Env, start: Sys, steps: seq<Step>, f: Sys, p: Id)
    requires Init(start) && Leads(env, start, steps, f)
    requires Ingest.CommittedOf(f.intake, p) == |Ingest.LogOf(f.intake, p)|
    ensures forall o :: 0 <= o < |Ingest.LogOf(f.intake, p)| ==> Accounted(f, p, o, Ingest.LogOf(f.intake, p)[o])
  {
    forall o | 0 <= o < |Ingest.LogOf(f.intake, p)| ensures Accounted(f, p, o, Ingest.LogOf(f.intake, p)[o]) {
      Guarantees.NothingLost(env, start, steps, p, o);
    }
  }

  /** Nothing is committed beyond the end of the log. */
  lemma CommittedInLog(s: Sys, p: Id)
    requires Inv(s)
    ensures Ingest.CommittedOf(s.intake, p) <= |Ingest.LogOf(s.intake, p)|
    ensures Escalation.PagesOk(s.db)
  {
    IntakePart(s);
    if Ingest.CommittedOf(s.intake, p) > 0 {
      assert (p, Ingest.CommittedOf(s.intake, p) - 1) in s.intake.fates;
    }
  }

  ghost predicate Accounted(f: Sys, p: Id, o: nat, rec: Ingest.Record) {
    match rec
    case Malformed(raw) => Ingest.DeadLetter(p, o, raw) in f.intake.dlq
    case Anomaly(eventId, dedupKey, _) =>
      || (exists k :: 0 <= k < |f.db.events| && f.db.events[k].sourceEvent == Some(eventId))
      || (exists i :: i in f.db.incidents && f.db.incidents[i].dedupKey == dedupKey)
  }
}
