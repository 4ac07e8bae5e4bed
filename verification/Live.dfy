/** The live view: what the server puts in an envelope and what the browser's reducer makes of it. */
module Live {
  import opened Model

  // ----- tier labels, computed on both sides -----

  function TierLabelFor(s: Status, tier: nat): string {
    if s.CriticalUnresolved? then "CRITICAL"
    else match tier
         case 0 => "Operator"
         case 1 => "Floor Manager"
         case 2 => "Plant Director"
         case 3 => "CRITICAL"
         case _ => "Operator"
  }

  function TierLabelFromIncident(tier: nat, s: Status): string {
    if s.CriticalUnresolved? then "CRITICAL"
    else if tier >= 2 then "Plant Director"
    else if tier == 1 then "Floor Manager"
    else "Operator"
  }

  /** The two sides print the same label exactly for critical incidents and tiers up to 2. */
  lemma LabelsAgreeIff(s: Status, tier: nat)
    ensures TierLabelFor(s, tier) == TierLabelFromIncident(tier, s) <==> s.CriticalUnresolved? || tier <= 2
  {
    assert "CRITICAL"[0] != "Plant Director"[0] && "Operator"[0] != "Plant Director"[0];
  }

  // ----- views and envelopes -----

  datatype View = View(
    id: Id,
    camera: string,
    zone: Option<string>,
    rule: string,
    anomaly: string,
    severity: string,
    objectClass: Option<string>,
    status: Status,
    currentTier: nat,
    deadlineAt: Option<Time>,
    openedAt: Time,
    snapshotUrl: Option<string>,
    tierLabel: string)

  function BuildView(i: Id, inc: Incident): View {
    View(i, inc.facts.camera, inc.facts.zone, inc.facts.rule, inc.facts.anomaly, inc.facts.severity,
         inc.facts.objectClass, inc.status, inc.currentTier, inc.deadlineAt, inc.createdAt,
         if inc.facts.snapshotUrl == Some("") then None else inc.facts.snapshotUrl,
         TierLabelFor(inc.status, inc.currentTier))
  }

  /** The view v shows row inc of incident i: the columns of the one are the columns of the other. */
  predicate ShowsRow(v: View, i: Id, inc: Incident) {
    && v.id == i && v.camera == inc.facts.camera && v.zone == inc.facts.zone
    && v.rule == inc.facts.rule && v.anomaly == inc.facts.anomaly
    && v.severity == inc.facts.severity && v.objectClass == inc.facts.objectClass
    && v.status == inc.status && v.currentTier == inc.currentTier
    && v.deadlineAt == inc.deadlineAt && v.openedAt == inc.createdAt
    && v.snapshotUrl == (if inc.facts.snapshotUrl == Some("") then None else inc.facts.snapshotUrl)
    && v.tierLabel == LabelInWords(inc)
  }

  function LabelInWords(inc: Incident): string {
    if inc.status == CriticalUnresolved || inc.currentTier == 3 then "CRITICAL"
    else if inc.currentTier == 2 then "Plant Director"
    else if inc.currentTier == 1 then "Floor Manager"
    else "Operator"
  }

  /** The server's view of an incident is the one that shows its row. */
  lemma ViewShowsRow(v: View, i: Id, inc: Incident)
    ensures v == BuildView(i, inc) <==> ShowsRow(v, i, inc)
  {
  }

  function ViewsOf(rows: map<Id, Incident>, listed: seq<Id>): seq<View>
    requires forall k :: 0 <= k < |listed| ==> listed[k] in rows
  {
    seq(|listed|, k requires 0 <= k < |listed| => BuildView(listed[k], rows[listed[k]]))
  }

  datatype TimerRow = TimerRow(id: Id, deadlineAt: Option<Time>, currentTier: nat)

  datatype Payload =
    | Snapshot(views: seq<View>)
    | IncidentCreated(view: View)
    | IncidentUpdated(view: View)
    | TierAdvanced(id: Id, currentTier: nat, status: Status, deadlineAt: Option<Time>)
    | IncidentResolved(id: Id, resolvedAt: Option<Time>)
    | TimerSnapshot(rows: seq<TimerRow>)
    | Heartbeat

  datatype Envelope = Envelope(seqNo: nat, serverNow: Time, payload: Payload)

  datatype ChangeType = ChangeCreated | ChangeUpdated | ChangeTierAdvanced | ChangeResolved

  /** The payload for a change, from the row as it is read again when broadcasting. */
  function BuildData(change: ChangeType, i: Id, inc: Incident): Payload {
    match change
    case ChangeCreated => IncidentCreated(BuildView(i, inc))
    case ChangeUpdated => IncidentUpdated(BuildView(i, inc))
    case ChangeTierAdvanced => TierAdvanced(i, inc.currentTier, inc.status, inc.deadlineAt)
    case ChangeResolved => IncidentResolved(i, inc.resolvedAt)
  }

  // ----- the reducer -----

  datatype LiveState = LiveState(incidents: map<Id, View>, lastSeq: nat, lastServerNow: Option<Time>)

  datatype ApplyResult = ApplyResult(state: LiveState, gap: bool, applied: bool)

  predicate IsForwardGap(lastSeq: nat, incoming: nat) {
    incoming > lastSeq + 1
  }

  function FromSnapshot(views: seq<View>): map<Id, View> {
    if views == [] then map[]
    else FromSnapshot(views[..|views| - 1])[views[|views| - 1].id := views[|views| - 1]]
  }

  function PatchTimer(known: map<Id, View>, row: TimerRow): map<Id, View> {
    if row.id in known
    then known[row.id := known[row.id].(deadlineAt := row.deadlineAt, currentTier := row.currentTier)]
    else known
  }

  function PatchTimers(known: map<Id, View>, rows: seq<TimerRow>): map<Id, View> {
    if rows == [] then known
    else PatchTimer(PatchTimers(known, rows[..|rows| - 1]), rows[|rows| - 1])
  }

  function ApplyPayload(known: map<Id, View>, p: Payload): map<Id, View> {
    match p
    case Snapshot(views) => FromSnapshot(views)
    case IncidentCreated(v) => known[v.id := v]
    case IncidentUpdated(v) => known[v.id := v]
    case TierAdvanced(i, tier, status, deadline) =>
      if i in known
      then known[i := known[i].(currentTier := tier, status := status, deadlineAt := deadline,
                                tierLabel := TierLabelFromIncident(tier, status))]
      else known
    case IncidentResolved(i, _) =>
      if i in known
      then known[i := known[i].(status := Resolved, deadlineAt := None,
                                tierLabel := TierLabelFromIncident(known[i].currentTier, Resolved))]
      else known
    case TimerSnapshot(rows) => PatchTimers(known, rows)
    case Heartbeat => known
  }

  /** A snapshot always re-anchors; before one, anything is taken; after it, only newer numbers are. */
  function Reduce(state: LiveState, env: Envelope): ApplyResult {
    var next := LiveState(ApplyPayload(state.incidents, env.payload), env.seqNo, Some(env.serverNow));
    if env.payload.Snapshot? then ApplyResult(next, false, true)
    else if state.lastSeq != 0 && env.seqNo <= state.lastSeq then ApplyResult(state, false, false)
    else ApplyResult(next, state.lastSeq != 0 && IsForwardGap(state.lastSeq, env.seqNo), true)
  }

  /** The reducer as the browser runs it, building its maps in loops. */
  method ApplyEnvelope(state: LiveState, env: Envelope) returns (r: ApplyResult)
    ensures r == Reduce(state, env)
  {
    if env.payload.Snapshot? {
      var views := env.payload.views;
      var fromViews: map<Id, View> := map[];
      for k := 0 to |views|
        invariant fromViews == FromSnapshot(views[..k])
      {
        assert views[..k + 1][..k] == views[..k];
        fromViews := fromViews[views[k].id := views[k]];
      }
      assert views[..|views|] == views;
      return ApplyResult(LiveState(fromViews, env.seqNo, Some(env.serverNow)), false, true);
    }
    var first := state.lastSeq == 0;
    if !first && env.seqNo <= state.lastSeq {
      return ApplyResult(state, false, false);
    }
    var gap := !first && IsForwardGap(state.lastSeq, env.seqNo);
    var incidents := state.incidents;
    match env.payload {
      case Snapshot(_) =>
      case IncidentCreated(v) => incidents := incidents[v.id := v];
      case IncidentUpdated(v) => incidents := incidents[v.id := v];
      case TierAdvanced(i, tier, status, deadline) =>
        if i in incidents {
          incidents := incidents[i := incidents[i].(currentTier := tier, status := status, deadlineAt := deadline,
                                                    tierLabel := TierLabelFromIncident(tier, status))];
        }
      case IncidentResolved(i, _) =>
        if i in incidents {
          var tier := incidents[i].currentTier;
          incidents := incidents[i := incidents[i].(status := Resolved, deadlineAt := None,
                                                    tierLabel := TierLabelFromIncident(tier, Resolved))];
        }
      case TimerSnapshot(rows) =>
        for k := 0 to |rows|
          invariant incidents == PatchTimers(state.incidents, rows[..k])
        {
          assert rows[..k + 1][..k] == rows[..k];
          incidents := PatchTimer(incidents, rows[k]);
        }
        assert rows[..|rows|] == rows;
      case Heartbeat =>
    }
    r := ApplyResult(LiveState(incidents, env.seqNo, Some(env.serverNow)), gap, true);
  }

  function ReduceAll(state: LiveState, envs: seq<Envelope>): LiveState {
    if envs == [] then state else Reduce(ReduceAll(state, envs[..|envs| - 1]), envs[|envs| - 1]).state
  }
}
