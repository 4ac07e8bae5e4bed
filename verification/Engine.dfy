/** The vision engine: every frame, every tracked person, every zone, through one debouncer. */
module Engine {
  import opened Model
  import opened Debounce

  const PERSON_CLASS := "person"
  const REQUIRED_PPE := "required_ppe"
  const RULE_ID := "PPE_NO_HARDHAT"

  datatype Box = Box(x: int, y: int, w: int, h: int)

  datatype Detection = Detection(objectClass: string, bbox: Box, noHardhat: bool)

  datatype Tracked = Tracked(rawId: int, detection: Detection)

  type Polygon = seq<(int, int)>

  /** Point-in-polygon, boundary included. */
  type Covers = ((real, real), Polygon) -> bool

  datatype Zone = Zone(zoneId: string, kind: string, polygon: Polygon)

  datatype CameraConfig = CameraConfig(cameraId: string, zones: seq<Zone>)

  datatype Anomaly = Anomaly(cameraId: string, zoneId: string, trackId: string, objectClass: string, bbox: Box)

  /** Bottom centre of the box: where the person stands. */
  function Anchor(b: Box): (real, real) {
    (b.x as real + b.w as real / 2.0, (b.y + b.h) as real)
  }

  // ----- keys -----

  function Digit(n: nat): char
    requires n < 10
  {
    '0' + n as char
  }

  function Digits(n: nat): string {
    if n < 10 then [Digit(n)] else Digits(n / 10) + [Digit(n % 10)]
  }

  function Decimal(n: int): string {
    if n < 0 then "-" + Digits(-n) else Digits(n)
  }

  function TrackId(camera: string, raw: int): string {
    camera + ":" + Decimal(raw)
  }

  function DebounceKey(camera: string, raw: int, zone: string): string {
    TrackId(camera, raw) + ":" + zone
  }

  lemma {:induction false} DigitsAreDigits(n: nat)
    ensures |Digits(n)| > 0
    ensures forall i :: 0 <= i < |Digits(n)| ==> '0' <= Digits(n)[i] <= '9'
  {
    if n >= 10 { DigitsAreDigits(n / 10); }
  }

  /** The number that a string of digits spells. */
  function Value(s: string): int {
    if s == "" then 0 else Value(s[..|s| - 1]) * 10 + (s[|s| - 1] as int - '0' as int)
  }

  lemma {:induction false} DigitsSpell(n: nat)
    ensures Value(Digits(n)) == n
  {
    var s := Digits(n);
    if n < 10 {
      assert s[..0] == "";
    } else {
      DigitsSpell(n / 10);
      assert s[..|s| - 1] == Digits(n / 10);
    }
  }

  lemma DigitsInjective(a: nat, b: nat)
    requires Digits(a) == Digits(b)
    ensures a == b
  {
    DigitsSpell(a);
    DigitsSpell(b);
  }

  lemma DecimalHasNoColon(n: int)
    ensures forall i :: 0 <= i < |Decimal(n)| ==> Decimal(n)[i] != ':'
  {
    DigitsAreDigits(if n < 0 then -n else n);
  }

  lemma DecimalInjective(a: int, b: int)
    requires Decimal(a) == Decimal(b)
    ensures a == b
  {
    var p, q := if a < 0 then -a else a, if b < 0 then -b else b;
    DigitsAreDigits(p);
    DigitsAreDigits(q);
    assert a < 0 <==> Decimal(a)[0] == '-';
    assert b < 0 <==> Decimal(b)[0] == '-';
    if a < 0 {
      assert Decimal(a)[1..] == Digits(p) && Decimal(b)[1..] == Digits(q);
    }
    DigitsInjective(p, q);
  }

  lemma FirstColonSplits(p: string, x: string, q: string, y: string)
    requires p + ":" + x == q + ":" + y
    requires forall i :: 0 <= i < |p| ==> p[i] != ':'
    requires forall i :: 0 <= i < |q| ==> q[i] != ':'
    ensures p == q && x == y
  {
    var s, t := p + ":" + x, q + ":" + y;
    assert s[|p|] == ':' && t[|q|] == ':';
    assert forall i :: 0 <= i < |p| ==> s[i] == p[i];
    assert forall i :: 0 <= i < |q| ==> t[i] == q[i];
    assert |p| == |q|;
    assert p == s[..|p|] == t[..|q|] == q;
    assert x == s[|p| + 1..] == t[|q| + 1..] == y;
  }

  lemma AfterCamera(camera: string, raw: int, zone: string)
    ensures |DebounceKey(camera, raw, zone)| > |camera|
    ensures DebounceKey(camera, raw, zone)[|camera| + 1..] == Decimal(raw) + ":" + zone
  {
  }

  /** On one camera a debounce key names one track and one zone, whatever the zone ids contain. */
  lemma KeyInjective(camera: string, raw: int, zone: string, raw': int, zone': string)
    requires DebounceKey(camera, raw, zone) == DebounceKey(camera, raw', zone')
    ensures raw == raw' && zone == zone'
  {
    AfterCamera(camera, raw, zone);
    AfterCamera(camera, raw', zone');
    DecimalHasNoColon(raw);
    DecimalHasNoColon(raw');
    FirstColonSplits(Decimal(raw), zone, Decimal(raw'), zone');
    DecimalInjective(raw, raw');
  }

  // ----- what the loops visit -----

  datatype Visit = Visit(raw: int, zone: string, violating: bool, detection: Detection)

  function RequiredZones(zones: seq<Zone>): seq<Zone> {
    if zones == [] then []
    else RequiredZones(zones[..|zones| - 1])
         + (if zones[|zones| - 1].kind == REQUIRED_PPE then [zones[|zones| - 1]] else [])
  }

  function VisitOf(covers: Covers, t: Tracked, zone: Zone): Visit {
    Visit(t.rawId, zone.zoneId, covers(Anchor(t.detection.bbox), zone.polygon) && t.detection.noHardhat, t.detection)
  }

  function ZoneVisits(covers: Covers, t: Tracked, zones: seq<Zone>): seq<Visit> {
    seq(|zones|, j requires 0 <= j < |zones| => VisitOf(covers, t, zones[j]))
  }

  function TrackVisits(covers: Covers, tracked: seq<Tracked>, zones: seq<Zone>): seq<Visit> {
    if tracked == [] then []
    else TrackVisits(covers, tracked[..|tracked| - 1], zones)
         + (var t := tracked[|tracked| - 1];
            if t.detection.objectClass == PERSON_CLASS then ZoneVisits(covers, t, zones) else [])
  }

  function FrameVisits(covers: Covers, frames: seq<seq<Tracked>>, zones: seq<Zone>): seq<Visit> {
    if frames == [] then []
    else FrameVisits(covers, frames[..|frames| - 1], zones) + TrackVisits(covers, frames[|frames| - 1], zones)
  }

  lemma ZoneVisitsGrow(covers: Covers, visits: seq<Visit>, t: Tracked, zones: seq<Zone>, j: nat)
    requires j < |zones|
    ensures visits + ZoneVisits(covers, t, zones[..j + 1])
            == visits + ZoneVisits(covers, t, zones[..j]) + [VisitOf(covers, t, zones[j])]
  {
    assert ZoneVisits(covers, t, zones[..j + 1]) == ZoneVisits(covers, t, zones[..j]) + [VisitOf(covers, t, zones[j])];
  }

  lemma TrackVisitsGrow(covers: Covers, visits: seq<Visit>, tracked: seq<Tracked>, zones: seq<Zone>, i: nat)
    requires i < |tracked|
    ensures var before := visits + TrackVisits(covers, tracked[..i], zones);
            visits + TrackVisits(covers, tracked[..i + 1], zones)
            == if tracked[i].detection.objectClass == PERSON_CLASS
               then before + ZoneVisits(covers, tracked[i], zones) else before
  {
    assert tracked[..i + 1][..i] == tracked[..i];
    var some, more := TrackVisits(covers, tracked[..i], zones), ZoneVisits(covers, tracked[i], zones);
    assert visits + some + more == visits + (some + more);
    assert some + [] == some;
  }

  lemma FrameVisitsGrow(covers: Covers, frames: seq<seq<Tracked>>, zones: seq<Zone>, f: nat)
    requires f < |frames|
    ensures FrameVisits(covers, frames[..f + 1], zones)
            == FrameVisits(covers, frames[..f], zones) + TrackVisits(covers, frames[f], zones)
  {
    assert frames[..f + 1][..f] == frames[..f];
  }

  function FramesRun(available: nat, maxFrames: Option<int>): nat {
    match maxFrames
    case None => available
    case Some(m) => if m < 0 then 0 else if m < available then m else available
  }

  /** The frames run are those below the limit. */
  lemma FrameRunsIff(available: nat, maxFrames: Option<int>, f: nat)
    ensures f < FramesRun(available, maxFrames) <==> f < available && (maxFrames.Some? ==> f < maxFrames.value)
  {
  }

  // ----- what the debouncer sees and what is published -----

  type Streams = map<Key, seq<bool>>

  function KeyOf(camera: string, v: Visit): Key {
    (DebounceKey(camera, v.raw, v.zone), RULE_ID)
  }

  function Fed(start: Streams, camera: string, visits: seq<Visit>): Streams {
    if visits == [] then start
    else var v, before := visits[|visits| - 1], Fed(start, camera, visits[..|visits| - 1]);
         before[KeyOf(camera, v) := StreamOf(before, KeyOf(camera, v)) + [v.violating]]
  }

  /** Does this frame of this stream open an anomaly? */
  predicate Opens(cfg: Config, before: seq<bool>, violating: bool) {
    Observed(cfg, StateAfter(cfg, before), violating).event == Some(Opened)
  }

  function Announced(cfg: Config, start: Streams, camera: string, visits: seq<Visit>): seq<Anomaly> {
    if visits == [] then []
    else var v, front := visits[|visits| - 1], visits[..|visits| - 1];
         Announced(cfg, start, camera, front)
         + (if Opens(cfg, StreamOf(Fed(start, camera, front), KeyOf(camera, v)), v.violating)
            then [AnomalyOf(camera, v)] else [])
  }

  lemma OneMoreVisit(cfg: Config, start: Streams, camera: string, visits: seq<Visit>, v: Visit)
    ensures var before := Fed(start, camera, visits); var key := KeyOf(camera, v);
            && Fed(start, camera, visits + [v]) == before[key := StreamOf(before, key) + [v.violating]]
            && Announced(cfg, start, camera, visits + [v])
               == Announced(cfg, start, camera, visits)
                  + (if Opens(cfg, StreamOf(before, key), v.violating) then [AnomalyOf(camera, v)] else [])
  {
    assert (visits + [v])[..|visits|] == visits;
  }

  /** The streams fed and the anomalies sent are those of the visits. */
  ghost predicate Recorded(cfg: Config, start: Streams, camera: string, visits: seq<Visit>, seen: Streams,
                           published: nat, sent: seq<Anomaly>)
  {
    published == |sent| && seen == Fed(start, camera, visits) && sent == Announced(cfg, start, camera, visits)
  }

  lemma RecordOne(cfg: Config, start: Streams, camera: string, visits: seq<Visit>, seen: Streams,
                  published: nat, sent: seq<Anomaly>, v: Visit)
    requires Recorded(cfg, start, camera, visits, seen, published, sent)
    ensures var key := KeyOf(camera, v);
            var seen' := seen[key := StreamOf(seen, key) + [v.violating]];
            if Opens(cfg, StreamOf(seen, key), v.violating)
            then Recorded(cfg, start, camera, visits + [v], seen', published + 1, sent + [AnomalyOf(camera, v)])
            else Recorded(cfg, start, camera, visits + [v], seen', published, sent)
  {
    OneMoreVisit(cfg, start, camera, visits, v);
    assert sent + [] == sent;
  }

  function AnomalyOf(camera: string, v: Visit): Anomaly {
    Anomaly(camera, v.zone, TrackId(camera, v.raw), v.detection.objectClass, v.detection.bbox)
  }

  // ----- which anomalies are sent -----

  /** A person without a hardhat stands, by the bottom centre of the box, in a zone that requires one. */
  predicate BreaksRule(covers: Covers, t: Tracked, zone: Zone) {
    && t.detection.objectClass == "person" && t.detection.noHardhat
    && zone.kind == "required_ppe"
    && var box := t.detection.bbox;
       covers((box.x as real + box.w as real / 2.0, (box.y + box.h) as real), zone.polygon)
  }

  /** The anomaly names the camera, the zone and the track, and shows what was detected. */
  predicate Reports(camera: string, t: Tracked, zone: Zone, a: Anomaly) {
    && a.cameraId == camera && a.zoneId == zone.zoneId && a.trackId == camera + ":" + Decimal(t.rawId)
    && a.objectClass == t.detection.objectClass && a.bbox == t.detection.bbox
  }

  lemma {:induction false} RequiredZoneIff(zones: seq<Zone>, zone: Zone)
    ensures zone in RequiredZones(zones) <==> zone in zones && zone.kind == "required_ppe"
  {
    if zones != [] {
      var n := |zones| - 1;
      RequiredZoneIff(zones[..n], zone);
      assert zones == zones[..n] + [zones[n]];
    }
  }

  lemma {:induction false} TrackVisitCame(covers: Covers, tracked: seq<Tracked>, zones: seq<Zone>, v: Visit)
      returns (t: Tracked, zone: Zone)
    requires v in TrackVisits(covers, tracked, zones)
    ensures t in tracked && zone in zones && t.detection.objectClass == PERSON_CLASS && v == VisitOf(covers, t, zone)
  {
    var n := |tracked| - 1;
    if v in TrackVisits(covers, tracked[..n], zones) {
      t, zone := TrackVisitCame(covers, tracked[..n], zones, v);
    } else {
      t := tracked[n];
      var j :| 0 <= j < |zones| && ZoneVisits(covers, t, zones)[j] == v;
      zone := zones[j];
    }
  }

  lemma {:induction false} FrameVisitCame(covers: Covers, frames: seq<seq<Tracked>>, zones: seq<Zone>, v: Visit)
      returns (f: nat, t: Tracked, zone: Zone)
    requires v in FrameVisits(covers, frames, zones)
    ensures f < |frames| && t in frames[f] && zone in zones
    ensures t.detection.objectClass == PERSON_CLASS && v == VisitOf(covers, t, zone)
  {
    var n := |frames| - 1;
    if v in FrameVisits(covers, frames[..n], zones) {
      f, t, zone := FrameVisitCame(covers, frames[..n], zones, v);
    } else {
      f := n;
      t, zone := TrackVisitCame(covers, frames[n], zones, v);
    }
  }

  /** With m at least 1 only a violating visit is announced. */
  lemma {:induction false} AnnouncedFor(cfg: Config, start: Streams, camera: string, visits: seq<Visit>, k: nat)
      returns (v: Visit)
    requires cfg.mOfN >= 1 && k < |Announced(cfg, start, camera, visits)|
    ensures v in visits && v.violating && Announced(cfg, start, camera, visits)[k] == AnomalyOf(camera, v)
  {
    var last, front := visits[|visits| - 1], visits[..|visits| - 1];
    if k < |Announced(cfg, start, camera, front)| {
      v := AnnouncedFor(cfg, start, camera, front, k);
    } else {
      v := last;
      CalmOpensNothingIff(cfg);
      var before := StreamOf(Fed(start, camera, front), KeyOf(camera, v));
      assert Observed(cfg, StateAfter(cfg, before), false).event != Some(Opened);
    }
  }

  /** Somebody broke the rule in one of the frames below the limit, and the anomaly reports that. */
  ghost predicate Deserved(camera: string, covers: Covers, zones: seq<Zone>, frames: seq<seq<Tracked>>,
                           maxFrames: Option<int>, a: Anomaly) {
    exists f, t, zone :: 0 <= f < |frames| && (maxFrames.Some? ==> f < maxFrames.value)
                         && t in frames[f] && zone in zones
                         && BreaksRule(covers, t, zone) && Reports(camera, t, zone, a)
  }

  lemma SentIsDeserved(cfg: Config, start: Streams, camera: string, covers: Covers, zones: seq<Zone>,
                       frames: seq<seq<Tracked>>, maxFrames: Option<int>)
    requires cfg.mOfN >= 1
    ensures var visits := FrameVisits(covers, frames[..FramesRun(|frames|, maxFrames)], RequiredZones(zones));
            forall a :: a in Announced(cfg, start, camera, visits) ==>
              Deserved(camera, covers, zones, frames, maxFrames, a)
  {
    var run := frames[..FramesRun(|frames|, maxFrames)];
    var visits := FrameVisits(covers, run, RequiredZones(zones));
    var sent := Announced(cfg, start, camera, visits);
    forall a | a in sent ensures Deserved(camera, covers, zones, frames, maxFrames, a) {
      var k :| 0 <= k < |sent| && sent[k] == a;
      var v := AnnouncedFor(cfg, start, camera, visits, k);
      var f, t, zone := FrameVisitCame(covers, run, RequiredZones(zones), v);
      FrameRunsIff(|frames|, maxFrames, f);
      RequiredZoneIff(zones, zone);
      assert BreaksRule(covers, t, zone) && Reports(camera, t, zone, a);
      assert t in frames[f];
    }
  }

  // ----- which violations are sent -----

  type Pair = (int, string)

  function Projected(visits: seq<Visit>, p: Pair): seq<bool> {
    if visits == [] then []
    else var v := visits[|visits| - 1];
         Projected(visits[..|visits| - 1], p) + (if (v.raw, v.zone) == p then [v.violating] else [])
  }

  /** The tracker gives an id once in a frame, and the configured zones have ids of their own. */
  ghost predicate TracksDistinct(frames: seq<seq<Tracked>>) {
    forall f :: 0 <= f < |frames| ==> IdsDistinct(frames[f])
  }

  ghost predicate IdsDistinct(tracked: seq<Tracked>) {
    forall i, j :: 0 <= i < j < |tracked| ==> tracked[i].rawId != tracked[j].rawId
  }

  ghost predicate ZonesDistinct(zones: seq<Zone>) {
    forall i, j :: 0 <= i < j < |zones| ==> zones[i].zoneId != zones[j].zoneId
  }

  /** Track `raw` breaks the rule of a zone in a frame. */
  ghost predicate BreaksAt(covers: Covers, tracked: seq<Tracked>, raw: int, zone: Zone) {
    exists t :: t in tracked && t.rawId == raw && BreaksRule(covers, t, zone)
  }

  /** The frames from `from` on, before `to`, in which it does. */
  ghost function BreakingFrames(covers: Covers, frames: seq<seq<Tracked>>, raw: int, zone: Zone, from: int, to: int):
      set<int> {
    set f | from <= f < to && 0 <= f < |frames| && BreaksAt(covers, frames[f], raw, zone)
  }

  /** At least m frames below the limit, within one window, are such, and at least one is. */
  ghost predicate Persists(covers: Covers, frames: seq<seq<Tracked>>, maxFrames: Option<int>, config: Config, raw: int,
                           zone: Zone, from: int, to: int) {
    && 0 <= from < to <= |frames| && (maxFrames.Some? ==> to <= maxFrames.value)
    && to - from <= config.window
    && |BreakingFrames(covers, frames, raw, zone, from, to)| >= config.mOfN
    && |BreakingFrames(covers, frames, raw, zone, from, to)| >= 1
  }

  /** An anomaly for this track and zone is among those sent. */
  ghost predicate Reported(camera: string, raw: int, zone: Zone, sent: seq<Anomaly>) {
    exists a :: a in sent && a.cameraId == camera && a.zoneId == zone.zoneId
                && a.trackId == camera + ":" + Decimal(raw)
  }

  lemma {:induction false} RequiredDistinct(zones: seq<Zone>)
    requires ZonesDistinct(zones)
    ensures ZonesDistinct(RequiredZones(zones))
  {
    if zones != [] {
      var n := |zones| - 1;
      var front := RequiredZones(zones[..n]);
      RequiredDistinct(zones[..n]);
      forall i | 0 <= i < |front| ensures front[i].zoneId != zones[n].zoneId {
        RequiredZoneIff(zones[..n], front[i]);
        var k :| 0 <= k < n && zones[..n][k] == front[i];
      }
    }
  }

  lemma {:induction false} ProjectedJoins(a: seq<Visit>, b: seq<Visit>, p: Pair)
    ensures Projected(a + b, p) == Projected(a, p) + Projected(b, p)
    decreases |b|
  {
    if b == [] {
      assert a + b == a;
    } else {
      var n := |b| - 1;
      assert (a + b)[..|a + b| - 1] == a + b[..n];
      ProjectedJoins(a, b[..n], p);
    }
  }

  /** One person in one zone leaves one flag. */
  lemma {:induction false} ZoneFlags(covers: Covers, t: Tracked, zones: seq<Zone>, p: Pair)
    requires ZonesDistinct(zones)
    ensures var flags := Projected(ZoneVisits(covers, t, zones), p);
            && |flags| <= 1
            && (t.rawId != p.0 || (forall z :: z in zones ==> z.zoneId != p.1) ==> flags == [])
            && (forall z :: z in zones && t.rawId == p.0 && z.zoneId == p.1 ==>
                  flags == [covers(Anchor(t.detection.bbox), z.polygon) && t.detection.noHardhat])
    decreases |zones|
  {
    var visits := ZoneVisits(covers, t, zones);
    if zones != [] {
      var n := |zones| - 1;
      assert visits[..n] == ZoneVisits(covers, t, zones[..n]);
      ZoneFlags(covers, t, zones[..n], p);
      assert forall z :: z in zones <==> z in zones[..n] || z == zones[n];
      assert forall z :: z in zones[..n] ==> z.zoneId != zones[n].zoneId;
    }
  }

  lemma OneTrackFlags(covers: Covers, t: Tracked, zones: seq<Zone>, raw: int, zone: Zone)
    requires ZonesDistinct(zones) && zone in zones
    ensures var visits := if t.detection.objectClass == PERSON_CLASS then ZoneVisits(covers, t, zones) else [];
            var flags := Projected(visits, (raw, zone.zoneId));
            && |flags| <= 1
            && (t.rawId != raw ==> flags == [])
            && (t.rawId == raw && BreaksRule(covers, t, zone) ==> flags == [true])
  {
    ZoneFlags(covers, t, zones, (raw, zone.zoneId));
  }

  ghost predicate Shows(tracked: seq<Tracked>, raw: int) {
    exists t :: t in tracked && t.rawId == raw
  }

  /** A frame that shows each track once leaves at most one flag for a pair, and a set one if it breaks the rule. */
  lemma {:induction false} TrackFlags(covers: Covers, tracked: seq<Tracked>, zones: seq<Zone>, raw: int, zone: Zone)
    requires IdsDistinct(tracked) && ZonesDistinct(zones) && zone in zones
    ensures var flags := Projected(TrackVisits(covers, tracked, zones), (raw, zone.zoneId));
            && |flags| <= 1
            && (!Shows(tracked, raw) ==> flags == [])
            && (BreaksAt(covers, tracked, raw, zone) ==> flags == [true])
    decreases |tracked|
  {
    if tracked != [] {
      var n := |tracked| - 1;
      var front, t, p := tracked[..n], tracked[n], (raw, zone.zoneId);
      TrackFlags(covers, front, zones, raw, zone);
      OneTrackFlags(covers, t, zones, raw, zone);
      ProjectedJoins(TrackVisits(covers, front, zones),
                     if t.detection.objectClass == PERSON_CLASS then ZoneVisits(covers, t, zones) else [], p);
      LastTrack(covers, tracked, raw, zone);
    }
  }

  lemma LastTrack(covers: Covers, tracked: seq<Tracked>, raw: int, zone: Zone)
    requires IdsDistinct(tracked) && tracked != []
    ensures var front, t := tracked[..|tracked| - 1], tracked[|tracked| - 1];
            && IdsDistinct(front)
            && (Shows(tracked, raw) <==> Shows(front, raw) || t.rawId == raw)
            && !(Shows(front, raw) && t.rawId == raw)
            && (BreaksAt(covers, front, raw, zone) ==> Shows(front, raw))
            && (BreaksAt(covers, tracked, raw, zone)
                <==> BreaksAt(covers, front, raw, zone) || (t.rawId == raw && BreaksRule(covers, t, zone)))
  {
    var front, t := tracked[..|tracked| - 1], tracked[|tracked| - 1];
    assert forall u :: u in tracked <==> u in front || u == t;
  }

  /** The flags a pair has got in the first f frames. */
  ghost function FlagsOf(covers: Covers, frames: seq<seq<Tracked>>, zones: seq<Zone>, raw: int, zone: Zone, f: nat):
      seq<bool>
    requires f <= |frames|
  {
    Projected(FrameVisits(covers, frames[..f], zones), (raw, zone.zoneId))
  }

  /** A frame adds one flag or none; one that breaks the rule adds a set one. */
  predicate OneMoreFlag(was: seq<bool>, flags: seq<bool>, breaks: bool) {
    || (flags == was && !breaks)
    || (|flags| == |was| + 1 && flags[..|was|] == was && (breaks ==> flags[|was|]))
  }

  lemma OneMoreFrameOf(covers: Covers, frames: seq<seq<Tracked>>, zones: seq<Zone>, raw: int, zone: Zone, f: nat)
    requires f < |frames| && TracksDistinct(frames) && ZonesDistinct(zones) && zone in zones
    ensures OneMoreFlag(FlagsOf(covers, frames, zones, raw, zone, f), FlagsOf(covers, frames, zones, raw, zone, f + 1),
                        BreaksAt(covers, frames[f], raw, zone))
  {
    FrameVisitsGrow(covers, frames, zones, f);
    TrackFlags(covers, frames[f], zones, raw, zone);
    var p := (raw, zone.zoneId);
    ProjectedJoins(FrameVisits(covers, frames[..f], zones), TrackVisits(covers, frames[f], zones), p);
  }

  /** When every frame adds one flag or none, a stretch of frames adds no more flags than frames, and a set one for
      each frame that breaks the rule. */
  lemma {:induction false} StretchAdds(history: seq<seq<bool>>, breaks: seq<bool>, from: nat, end: nat)
    requires from <= end <= |breaks| < |history|
    requires forall f {:trigger breaks[f]} :: 0 <= f < |breaks| ==> OneMoreFlag(history[f], history[f + 1], breaks[f])
    ensures |history[from]| <= |history[end]| <= |history[from]| + (end - from)
    ensures |Hits(history[end], |history[from]|, |history[end]|)| >= |Hits(breaks, from, end)|
    decreases end
  {
    if from == end {
      assert Hits(breaks, from, end) == {};
    } else {
      StretchAdds(history, breaks, from, end - 1);
      OneMoreHit(breaks, from, end - 1);
      OneFrameLonger(history[end - 1], history[end], |history[from]|, breaks[end - 1]);
    }
  }

  lemma OneFrameLonger(was: seq<bool>, flags: seq<bool>, first: nat, breaks: bool)
    requires first <= |was| && OneMoreFlag(was, flags, breaks)
    ensures |Hits(flags, first, |flags|)| >= |Hits(was, first, |was|)| + (if breaks then 1 else 0)
  {
    if flags != was {
      assert forall i :: 0 <= i < |was| ==> flags[i] == flags[..|was|][i];
      assert Hits(flags, first, |was|) == Hits(was, first, |was|);
      OneMoreHit(flags, first, |was|);
    }
  }

  lemma StretchFlags(covers: Covers, frames: seq<seq<Tracked>>, zones: seq<Zone>, raw: int, zone: Zone, from: nat,
                     end: nat)
    requires from <= end <= |frames| && TracksDistinct(frames) && ZonesDistinct(zones) && zone in zones
    ensures var first, flags := |FlagsOf(covers, frames, zones, raw, zone, from)|,
                                FlagsOf(covers, frames, zones, raw, zone, end);
            && first <= |flags| <= first + (end - from)
            && |Hits(flags, first, |flags|)| >= |BreakingFrames(covers, frames, raw, zone, from, end)|
  {
    var n := |frames|;
    var breaks := seq(n, f requires 0 <= f < n => BreaksAt(covers, frames[f], raw, zone));
    var history := seq(n + 1, f requires 0 <= f < n + 1 => FlagsOf(covers, frames, zones, raw, zone, f));
    forall f | 0 <= f < n ensures OneMoreFlag(history[f], history[f + 1], breaks[f]) {
      OneMoreFrameOf(covers, frames, zones, raw, zone, f);
    }
    StretchAdds(history, breaks, from, end);
    assert Hits(breaks, from, end) == BreakingFrames(covers, frames, raw, zone, from, end);
  }

  /** If a pair's stream has opened, its anomaly has been announced. */
  lemma {:induction false} OpenedIsAnnounced(cfg: Config, camera: string, visits: seq<Visit>, p: Pair, k: nat)
      returns (v: Visit)
    requires k < |Projected(visits, p)| && EventsOf(cfg, Projected(visits, p))[k] == Some(Opened)
    ensures (v.raw, v.zone) == p && AnomalyOf(camera, v) in Announced(cfg, map[], camera, visits)
    decreases |visits|
  {
    var last, front := visits[|visits| - 1], visits[..|visits| - 1];
    var xs := Projected(front, p);
    if (last.raw, last.zone) != p {
      assert xs + [] == xs;
      v := OpenedIsAnnounced(cfg, camera, front, p, k);
    } else {
      OneMoreFrame(cfg, xs, last.violating);
      if k < |xs| {
        v := OpenedIsAnnounced(cfg, camera, front, p, k);
      } else {
        v := last;
        StreamIsProjection(map[], camera, front, p);
        assert StartOf(map[], camera, p) + xs == xs;
      }
    }
  }

  lemma {:induction false} AnnouncedStays(cfg: Config, start: Streams, camera: string, visits: seq<Visit>,
                                          more: seq<Visit>, a: Anomaly)
    requires a in Announced(cfg, start, camera, visits)
    ensures a in Announced(cfg, start, camera, visits + more)
    decreases |more|
  {
    if more == [] {
      assert visits + more == visits;
    } else {
      var n := |more| - 1;
      AnnouncedStays(cfg, start, camera, visits, more[..n], a);
      assert (visits + more)[..|visits + more| - 1] == visits + more[..n];
    }
  }

  lemma {:induction false} LaterFrames(covers: Covers, frames: seq<seq<Tracked>>, zones: seq<Zone>, f: nat, g: nat)
      returns (more: seq<Visit>)
    requires f <= g <= |frames|
    ensures FrameVisits(covers, frames[..g], zones) == FrameVisits(covers, frames[..f], zones) + more
    decreases g
  {
    if f == g {
      more := [];
    } else {
      more := LaterFrames(covers, frames, zones, f, g - 1);
      FrameVisitsGrow(covers, frames, zones, g - 1);
      more := more + TrackVisits(covers, frames[g - 1], zones);
    }
  }

  lemma PersistingIsReported(cfg: Config, camera: string, covers: Covers, zones: seq<Zone>, frames: seq<seq<Tracked>>,
                             maxFrames: Option<int>, raw: int, zone: Zone, from: int, to: int)
    requires TracksDistinct(frames) && ZonesDistinct(zones) && zone in zones
    requires Persists(covers, frames, maxFrames, cfg, raw, zone, from, to)
    ensures var visits := FrameVisits(covers, frames[..FramesRun(|frames|, maxFrames)], RequiredZones(zones));
            Reported(camera, raw, zone, Announced(cfg, map[], camera, visits))
  {
    var required, p := RequiredZones(zones), (raw, zone.zoneId);
    BreakingNeedsRequired(covers, frames, zones, raw, zone, from, to);
    RequiredDistinct(zones);
    var k := PersistingOpens(cfg, covers, required, frames, raw, zone, from, to);
    var v := OpenedIsAnnounced(cfg, camera, FrameVisits(covers, frames[..to], required), p, k);
    var more := LaterFrames(covers, frames, required, to, FramesRun(|frames|, maxFrames));
    AnnouncedStays(cfg, map[], camera, FrameVisits(covers, frames[..to], required), more, AnomalyOf(camera, v));
  }

  lemma PersistingOpens(cfg: Config, covers: Covers, zones: seq<Zone>, frames: seq<seq<Tracked>>, raw: int, zone: Zone,
                        from: nat, to: nat)
      returns (k: nat)
    requires TracksDistinct(frames) && ZonesDistinct(zones) && zone in zones
    requires from < to <= |frames| && to - from <= cfg.window
    requires |BreakingFrames(covers, frames, raw, zone, from, to)| >= cfg.mOfN
    requires |BreakingFrames(covers, frames, raw, zone, from, to)| >= 1
    ensures k < |FlagsOf(covers, frames, zones, raw, zone, to)|
    ensures EventsOf(cfg, FlagsOf(covers, frames, zones, raw, zone, to))[k] == Some(Opened)
  {
    StretchFlags(covers, frames, zones, raw, zone, from, to);
    var first := |FlagsOf(covers, frames, zones, raw, zone, from)|;
    var flags := FlagsOf(covers, frames, zones, raw, zone, to);
    NoHitsInNothing(flags, first);
    HitsOpen(cfg, flags, first, |flags|);
    k :| 0 <= k < |flags| && EventsOf(cfg, flags)[k] == Some(Opened);
  }

  lemma NoHitsInNothing(flags: seq<bool>, first: nat)
    requires first <= |flags| && |Hits(flags, first, |flags|)| >= 1
    ensures first < |flags|
  {
    assert first == |flags| ==> Hits(flags, first, |flags|) == {};
  }

  lemma BreakingNeedsRequired(covers: Covers, frames: seq<seq<Tracked>>, zones: seq<Zone>, raw: int, zone: Zone,
                              from: int, to: int)
    requires zone in zones && |BreakingFrames(covers, frames, raw, zone, from, to)| >= 1
    ensures zone in RequiredZones(zones)
  {
    var f :| f in BreakingFrames(covers, frames, raw, zone, from, to);
    assert BreaksAt(covers, frames[f], raw, zone);
    RequiredZoneIff(zones, zone);
  }

  /** Whatever persists is reported. */
  ghost predicate NoneMissed(cfg: Config, camera: string, covers: Covers, zones: seq<Zone>, frames: seq<seq<Tracked>>,
                             maxFrames: Option<int>, sent: seq<Anomaly>) {
    forall raw, zone, from, to ::
      zone in zones && Persists(covers, frames, maxFrames, cfg, raw, zone, from, to) ==>
      Reported(camera, raw, zone, sent)
  }

  lemma PersistingAreReported(cfg: Config, camera: string, covers: Covers, zones: seq<Zone>, frames: seq<seq<Tracked>>,
                              maxFrames: Option<int>)
    requires TracksDistinct(frames) && ZonesDistinct(zones)
    ensures var visits := FrameVisits(covers, frames[..FramesRun(|frames|, maxFrames)], RequiredZones(zones));
            NoneMissed(cfg, camera, covers, zones, frames, maxFrames, Announced(cfg, map[], camera, visits))
  {
    forall raw, zone, from, to | zone in zones && Persists(covers, frames, maxFrames, cfg, raw, zone, from, to)
      ensures var visits := FrameVisits(covers, frames[..FramesRun(|frames|, maxFrames)], RequiredZones(zones));
              Reported(camera, raw, zone, Announced(cfg, map[], camera, visits))
    {
      PersistingIsReported(cfg, camera, covers, zones, frames, maxFrames, raw, zone, from, to);
    }
  }

  class VisionEngine {
    const cfg: CameraConfig
    const zones: seq<Zone>
    const debouncer: TrackDebouncer
    const covers: Covers

    constructor (cfg: CameraConfig, debouncer: TrackDebouncer, covers: Covers)
      ensures this.cfg == cfg && this.debouncer == debouncer && this.covers == covers
      ensures WellBuilt()
    {
      this.cfg := cfg;
      this.debouncer := debouncer;
      this.covers := covers;
      this.zones := RequiredZones(cfg.zones);
    }

    /** Of the configured zones the engine watches those that require protective equipment. */
    ghost predicate WellBuilt() {
      zones == RequiredZones(cfg.zones)
    }

    /** Runs over what detector and tracker give for each frame; returns what went to the publisher. */
    method Run(frames: seq<seq<Tracked>>, maxFrames: Option<int>) returns (published: nat, sent: seq<Anomaly>)
      requires debouncer.Valid() && WellBuilt()
      modifies debouncer
      ensures debouncer.Valid() && published == |sent|
      ensures debouncer.config.mOfN >= 1 ==>
        forall a :: a in sent ==> Deserved(cfg.cameraId, covers, cfg.zones, frames, maxFrames, a)
      ensures old(debouncer.seen) == map[] && TracksDistinct(frames) && ZonesDistinct(cfg.zones) ==>
        NoneMissed(debouncer.config, cfg.cameraId, covers, cfg.zones, frames, maxFrames, sent)
      ensures var visits := FrameVisits(covers, frames[..FramesRun(|frames|, maxFrames)], zones);
              && debouncer.seen == Fed(old(debouncer.seen), cfg.cameraId, visits)
              && sent == Announced(debouncer.config, old(debouncer.seen), cfg.cameraId, visits)
              && published == OpensPerPair(debouncer.config, old(debouncer.seen), cfg.cameraId, visits, PairsOf(visits))
    {
      ghost var start := debouncer.seen;
      published, sent := RunFrames(frames, maxFrames);
      if debouncer.config.mOfN >= 1 {
        SentIsDeserved(debouncer.config, start, cfg.cameraId, covers, cfg.zones, frames, maxFrames);
      }
      if start == map[] && TracksDistinct(frames) && ZonesDistinct(cfg.zones) {
        PersistingAreReported(debouncer.config, cfg.cameraId, covers, cfg.zones, frames, maxFrames);
      }
    }

    /** The outer loop. */
    method RunFrames(frames: seq<seq<Tracked>>, maxFrames: Option<int>) returns (published: nat, sent: seq<Anomaly>)
      requires debouncer.Valid()
      modifies debouncer
      ensures debouncer.Valid() && published == |sent|
      ensures var visits := FrameVisits(covers, frames[..FramesRun(|frames|, maxFrames)], zones);
              && debouncer.seen == Fed(old(debouncer.seen), cfg.cameraId, visits)
              && sent == Announced(debouncer.config, old(debouncer.seen), cfg.cameraId, visits)
              && published == OpensPerPair(debouncer.config, old(debouncer.seen), cfg.cameraId, visits, PairsOf(visits))
    {
      ghost var start := debouncer.seen;
      published, sent := 0, [];
      var f := 0;
      while f < |frames|
        invariant 0 <= f <= FramesRun(|frames|, maxFrames)
        invariant Matches(start, FrameVisits(covers, frames[..f], zones), published, sent)
      {
        if maxFrames.Some? && f >= maxFrames.value { break; }
        FrameVisitsGrow(covers, frames, zones, f);
        published, sent := RunFrame(frames[f], start, FrameVisits(covers, frames[..f], zones), published, sent);
        f := f + 1;
      }
      assert f == FramesRun(|frames|, maxFrames);
      ghost var visits := FrameVisits(covers, frames[..f], zones);
      PublishedPerPair(debouncer.config, start, cfg.cameraId, visits, PairsOf(visits));
    }

    /** The inner loops: every tracked person of one frame, and then every zone for that person. */
    method RunFrame(tracked: seq<Tracked>, ghost start: Streams, ghost visits: seq<Visit>, published: nat,
                    sent: seq<Anomaly>)
        returns (published': nat, sent': seq<Anomaly>)
      requires Matches(start, visits, published, sent)
      modifies debouncer
      ensures Matches(start, visits + TrackVisits(covers, tracked, zones), published', sent')
    {
      published', sent' := published, sent;
      assert visits + TrackVisits(covers, tracked[..0], zones) == visits;
      for i := 0 to |tracked|
        invariant Matches(start, visits + TrackVisits(covers, tracked[..i], zones), published', sent')
      {
        TrackVisitsGrow(covers, visits, tracked, zones, i);
        if tracked[i].detection.objectClass == PERSON_CLASS {
          ghost var done := visits + TrackVisits(covers, tracked[..i], zones);
          published', sent' := RunTrack(tracked[i], start, done, published', sent');
        }
      }
      assert tracked[..|tracked|] == tracked;
    }

    method RunTrack(t: Tracked, ghost start: Streams, ghost visits: seq<Visit>, published: nat, sent: seq<Anomaly>)
        returns (published': nat, sent': seq<Anomaly>)
      requires Matches(start, visits, published, sent)
      modifies debouncer
      ensures Matches(start, visits + ZoneVisits(covers, t, zones), published', sent')
    {
      published', sent' := published, sent;
      assert visits + ZoneVisits(covers, t, zones[..0]) == visits;
      for j := 0 to |zones|
        invariant Matches(start, visits + ZoneVisits(covers, t, zones[..j]), published', sent')
      {
        ZoneVisitsGrow(covers, visits, t, zones, j);
        published', sent' := Look(t, zones[j], start, visits + ZoneVisits(covers, t, zones[..j]), published', sent');
      }
      assert zones[..|zones|] == zones;
    }

    ghost predicate Matches(start: Streams, visits: seq<Visit>, published: nat, sent: seq<Anomaly>)
      reads debouncer
    {
      debouncer.Valid() && Recorded(debouncer.config, start, cfg.cameraId, visits, debouncer.seen, published, sent)
    }

    /** One person against one zone. */
    method Look(t: Tracked, zone: Zone, ghost start: Streams, ghost visits: seq<Visit>, published: nat,
                sent: seq<Anomaly>)
        returns (published': nat, sent': seq<Anomaly>)
      requires Matches(start, visits, published, sent)
      modifies debouncer
      ensures Matches(start, visits + [VisitOf(covers, t, zone)], published', sent')
    {
      ghost var v := VisitOf(covers, t, zone);
      RecordOne(debouncer.config, start, cfg.cameraId, visits, debouncer.seen, published, sent, v);
      ghost var key, before := KeyOf(cfg.cameraId, v), debouncer.seen;
      LastEvent(debouncer.config, StreamOf(before, key), v.violating);
      published', sent' := published, sent;
      var inside := covers(Anchor(t.detection.bbox), zone.polygon);
      var violating := inside && t.detection.noHardhat;
      var trackId := TrackId(cfg.cameraId, t.rawId);
      var event := debouncer.Observe(DebounceKey(cfg.cameraId, t.rawId, zone.zoneId), RULE_ID, violating);
      assert debouncer.seen == before[key := StreamOf(before, key) + [v.violating]];
      assert (event.Some? && event.value.transition == Opened)
        <==> Opens(debouncer.config, StreamOf(before, key), v.violating);
      if event.Some? && event.value.transition == Opened {
        var anomaly := Anomaly(cfg.cameraId, zone.zoneId, trackId, t.detection.objectClass, t.detection.bbox);
        sent' := sent + [anomaly];
        published' := published + 1;
      }
    }
  }

  // ----- keys do not interfere -----

  function StartOf(start: Streams, camera: string, p: Pair): seq<bool> {
    StreamOf(start, (DebounceKey(camera, p.0, p.1), RULE_ID))
  }

  /** What the debouncer holds for a pair is what that pair alone was shown. */
  lemma {:induction false} StreamIsProjection(start: Streams, camera: string, visits: seq<Visit>, p: Pair)
    ensures StartOf(Fed(start, camera, visits), camera, p) == StartOf(start, camera, p) + Projected(visits, p)
  {
    if visits != [] {
      var v, front := visits[|visits| - 1], visits[..|visits| - 1];
      StreamIsProjection(start, camera, front, p);
      if DebounceKey(camera, v.raw, v.zone) == DebounceKey(camera, p.0, p.1) {
        KeyInjective(camera, v.raw, v.zone, p.0, p.1);
      }
    }
  }

  function OpensIn(cfg: Config, xs: seq<bool>): nat {
    Number(EventsOf(cfg, xs), Opened)
  }

  lemma OpensInSnoc(cfg: Config, xs: seq<bool>, x: bool)
    ensures OpensIn(cfg, xs + [x]) == OpensIn(cfg, xs) + (if Opens(cfg, xs, x) then 1 else 0)
  {
    OneMoreFrame(cfg, xs, x);
    assert EventsOf(cfg, xs + [x])[..|xs|] == EventsOf(cfg, xs);
  }

  /** Opens on the stream of one pair, alone, while the visits are made. */
  function Gained(cfg: Config, start: Streams, camera: string, visits: seq<Visit>, p: Pair): int {
    OpensIn(cfg, StartOf(start, camera, p) + Projected(visits, p)) - OpensIn(cfg, StartOf(start, camera, p))
  }

  lemma NothingGained(cfg: Config, start: Streams, camera: string, p: Pair)
    ensures Gained(cfg, start, camera, [], p) == 0
  {
    assert StartOf(start, camera, p) + [] == StartOf(start, camera, p);
  }

  lemma GainedStep(cfg: Config, start: Streams, camera: string, visits: seq<Visit>, v: Visit, p: Pair)
    ensures Gained(cfg, start, camera, visits + [v], p)
            == Gained(cfg, start, camera, visits, p)
               + (if p == (v.raw, v.zone) && Opens(cfg, StartOf(start, camera, p) + Projected(visits, p), v.violating)
                  then 1 else 0)
  {
    var xs, more := StartOf(start, camera, p), Projected(visits, p);
    assert (visits + [v])[..|visits|] == visits;
    if p == (v.raw, v.zone) {
      assert xs + (more + [v.violating]) == xs + more + [v.violating];
      OpensInSnoc(cfg, xs + more, v.violating);
    } else {
      assert more + [] == more;
    }
  }

  ghost function SumOver(f: Pair -> int, pairs: set<Pair>): int {
    if pairs == {} then 0
    else var p :| p in pairs; f(p) + SumOver(f, pairs - {p})
  }

  /** The opens of each pair's own stream, added up. */
  ghost function OpensPerPair(cfg: Config, start: Streams, camera: string, visits: seq<Visit>, pairs: set<Pair>): int {
    SumOver(p => Gained(cfg, start, camera, visits, p), pairs)
  }

  lemma {:induction false} SumOfZero(f: Pair -> int, pairs: set<Pair>)
    requires forall p :: f(p) == 0
    ensures SumOver(f, pairs) == 0
  {
    if pairs != {} {
      var p :| p in pairs && SumOver(f, pairs) == f(p) + SumOver(f, pairs - {p});
      SumOfZero(f, pairs - {p});
    }
  }

  /** Moving the summand at one point moves the sum as much. */
  lemma {:induction false} SumMoves(f: Pair -> int, g: Pair -> int, at: Pair, d: int, pairs: set<Pair>)
    requires forall p :: g(p) == f(p) + (if p == at then d else 0)
    ensures SumOver(g, pairs) == SumOver(f, pairs) + (if at in pairs then d else 0)
  {
    if pairs != {} {
      var p :| p in pairs && SumOver(f, pairs) == f(p) + SumOver(f, pairs - {p})
               && SumOver(g, pairs) == g(p) + SumOver(g, pairs - {p});
      SumMoves(f, g, at, d, pairs - {p});
    }
  }

  function PairsOf(visits: seq<Visit>): set<Pair> {
    set i | 0 <= i < |visits| :: (visits[i].raw, visits[i].zone)
  }

  /** The number published is the sum, over (track, zone) pairs, of the opens on that pair's own stream. */
  lemma {:induction false} PublishedPerPair(cfg: Config, start: Streams, camera: string, visits: seq<Visit>,
                                            pairs: set<Pair>)
    requires PairsOf(visits) <= pairs
    ensures |Announced(cfg, start, camera, visits)| == OpensPerPair(cfg, start, camera, visits, pairs)
  {
    var g := (p: Pair) => Gained(cfg, start, camera, visits, p);
    if visits == [] {
      forall p ensures g(p) == 0 { NothingGained(cfg, start, camera, p); }
      SumOfZero(g, pairs);
      assert SumOver(g, pairs) == OpensPerPair(cfg, start, camera, visits, pairs);
    } else {
      var v, front := visits[|visits| - 1], visits[..|visits| - 1];
      assert visits == front + [v];
      PairsOfFront(front, v);
      PublishedPerPair(cfg, start, camera, front, pairs);
      PublishedPerVisit(cfg, start, camera, front, v, pairs);
    }
  }

  lemma PairsOfFront(front: seq<Visit>, v: Visit)
    ensures PairsOf(front) <= PairsOf(front + [v]) && (v.raw, v.zone) in PairsOf(front + [v])
  {
    var all := front + [v];
    assert all[|front|] == v;
    forall q | q in PairsOf(front) ensures q in PairsOf(all) {
      var i :| 0 <= i < |front| && q == (front[i].raw, front[i].zone);
      assert all[i] == front[i];
    }
  }

  lemma PublishedPerVisit(cfg: Config, start: Streams, camera: string, front: seq<Visit>, v: Visit, pairs: set<Pair>)
    requires (v.raw, v.zone) in pairs
    requires |Announced(cfg, start, camera, front)| == OpensPerPair(cfg, start, camera, front, pairs)
    ensures |Announced(cfg, start, camera, front + [v])|
            == OpensPerPair(cfg, start, camera, front + [v], pairs)
  {
    var f := (p: Pair) => Gained(cfg, start, camera, front, p);
    var g := (p: Pair) => Gained(cfg, start, camera, front + [v], p);
    var at := (v.raw, v.zone);
    var d := if Opens(cfg, StartOf(start, camera, at) + Projected(front, at), v.violating) then 1 else 0;
    forall p ensures g(p) == f(p) + (if p == at then d else 0) { GainedStep(cfg, start, camera, front, v, p); }
    SumMoves(f, g, at, d, pairs);
    OneMoreVisit(cfg, start, camera, front, v);
    StreamIsProjection(start, camera, front, at);
    assert StreamOf(Fed(start, camera, front), KeyOf(camera, v)) == StartOf(Fed(start, camera, front), camera, at);
  }
}
