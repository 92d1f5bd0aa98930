/**
 * Alert synthesis: how one classifier detection becomes an alert record.
 *
 * A detection whose lower-cased label is not monitored is dropped.  For a
 * monitored one the classifier's confidence is remapped into a per-label
 * range, jittered and clamped to [0, 1]; the severity starts at a per-label
 * base level and is nudged by a random offset, clamped into the four-level
 * order.  The two random draws and the clock are inputs here.
 */
module Alerts {
  import opened Wrappers
  import opened Text

  // ---------------------------------------------------------------- labels

  /** The monitored labels, in the order of the detector's list. */
  const AnimalClasses: seq<string> :=
    ["bird", "cat", "dog", "horse", "sheep", "cow", "elephant", "bear", "zebra", "giraffe", "rat"]

  predicate IsMonitored(name: string)
  {
    Lower(name) in AnimalClasses
  }

  // ---------------------------------------------------------------- severity

  datatype Severity = Low | Medium | High | Critical

  const SeverityOrder: seq<Severity> := [Low, Medium, High, Critical]

  /** `severity_order.index(s)` */
  function Rank(s: Severity): (i: nat)
    ensures i < |SeverityOrder| && SeverityOrder[i] == s
  {
    match s
    case Low => 0
    case Medium => 1
    case High => 2
    case Critical => 3
  }

  const BaseMap: map<string, Severity> := map[
    "bird" := Low, "rat" := Low,
    "cat" := Medium, "dog" := Medium, "sheep" := Medium,
    "horse" := High, "cow" := High, "bear" := High, "zebra" := High, "giraffe" := High,
    "elephant" := Critical]

  /** `base_map.get(key, 'medium')` */
  function BaseSeverity(key: string): Severity
  {
    if key in BaseMap then BaseMap[key] else Medium
  }

  /** The offset added to the base index for the uniform draw `r`. */
  function SeverityOffset(r: real): (o: int)
    ensures -1 <= o <= 2
    ensures r >= 0.25 <==> o == 0
  {
    if r < 0.05 then 2
    else if r < 0.20 then 1
    else if r < 0.25 then -1
    else 0
  }

  /** `max(0, min(len(severity_order) - 1, i))` */
  function ClampIndex(i: int): (j: nat)
    ensures j < |SeverityOrder|
    ensures 0 <= i < |SeverityOrder| ==> j == i
    ensures i < 0 ==> j == 0
    ensures i >= |SeverityOrder| ==> j == |SeverityOrder| - 1
  {
    if i < 0 then 0 else if i > |SeverityOrder| - 1 then |SeverityOrder| - 1 else i
  }

  function ChooseSeverity(key: string, r: real): Severity
  {
    SeverityOrder[ClampIndex(Rank(BaseSeverity(key)) + SeverityOffset(r))]
  }

  // ---------------------------------------------------------------- confidence

  const ConfRanges: map<string, (real, real)> := map[
    "elephant" := (0.8, 1.0), "bear" := (0.8, 1.0),
    "horse" := (0.7, 0.95), "cow" := (0.7, 0.95), "zebra" := (0.7, 0.95), "giraffe" := (0.7, 0.95),
    "dog" := (0.6, 0.9), "cat" := (0.6, 0.9), "sheep" := (0.6, 0.9),
    "bird" := (0.4, 0.75), "rat" := (0.4, 0.7)]

  /** `conf_ranges.get(key, (0.5, 0.9))` */
  function ConfRange(key: string): (real, real)
  {
    if key in ConfRanges then ConfRanges[key] else (0.5, 0.9)
  }

  /** `max(0.0, min(1.0, x))` */
  function Clamp01(x: real): (y: real)
    ensures 0.0 <= x <= 1.0 ==> y == x
    ensures x < 0.0 ==> y == 0.0
    ensures x > 1.0 ==> y == 1.0
  {
    if x > 1.0 then 1.0 else if x < 0.0 then 0.0 else x
  }

  /** A model confidence put into the label's range and jittered, before clamping. */
  function Mapped(key: string, modelConf: real, jitter: real): real
  {
    var (low, high) := ConfRange(key);
    low + (high - low) * modelConf + jitter
  }

  /**
   * The reported confidence on [0, 1]: the model's value (0.5 when it cannot be
   * read as a float) mapped into the label's range, plus the jitter, clamped.
   */
  function RemapConfidence(key: string, raw: Option<real>, jitter: real): (c: real)
    ensures 0.0 <= c <= 1.0
    ensures var v := Mapped(key, if raw.Some? then raw.value else 0.5, jitter);
      && (0.0 <= v <= 1.0 ==> c == v)
      && (v < 0.0 ==> c == 0.0)
      && (v > 1.0 ==> c == 1.0)
  {
    Clamp01(Mapped(key, if raw.Some? then raw.value else 0.5, jitter))
  }

  // ---------------------------------------------------------------- alert records

  datatype Location = Location(latitude: real, longitude: real, zone: string)

  const FarmLocation := Location(40.7128, -74.006, "North Pasture")

  datatype AlertEvent = AlertEvent(
    location: Location,
    detectionType: string,
    timestamp: string,
    severity: Severity,
    animalType: string,
    confidence: real,
    resolved: bool)

  /** One box from the classifier: its class name and its confidence (`None` if not a float). */
  datatype Detection = Detection(name: string, conf: Option<real>)

  /** What the environment supplies while one box is handled: jitter, severity draw, UTC time. */
  datatype Draw = Draw(jitter: real, r: real, timestamp: string)

  /** The alert record built for a detection, or `None` when its label is not monitored. */
  function Synthesize(d: Detection, draw: Draw): (a: Option<AlertEvent>)
    ensures a.Some? <==> IsMonitored(d.name)
    ensures a.Some? ==>
      && a.value.location == FarmLocation
      && a.value.detectionType == "camera"
      && a.value.timestamp == draw.timestamp
      && a.value.animalType == d.name
      && a.value.severity == ChooseSeverity(Lower(d.name), draw.r)
      && a.value.confidence == 100.0 * RemapConfidence(Lower(d.name), d.conf, draw.jitter)
      && 0.0 <= a.value.confidence <= 100.0
      && !a.value.resolved
  {
    var key := Lower(d.name);
    if key !in AnimalClasses then None
    else
      Some(AlertEvent(
        FarmLocation, "camera", draw.timestamp,
        ChooseSeverity(key, draw.r), d.name,
        100.0 * RemapConfidence(key, d.conf, draw.jitter), false))
  }

  // ---------------------------------------------------------------- properties

  /**
   * The bands of the uniform draw `r` on [0, 1): offset +2 on [0, 0.05), +1 on
   * [0.05, 0.20), -1 on [0.20, 0.25) and 0 on [0.25, 1).
   */
  function OffsetBand(offset: int): (band: (real, real))
    requires offset in {2, 1, -1, 0}
  {
    match offset
    case 2 => (0.0, 0.05)
    case 1 => (0.05, 0.20)
    case -1 => (0.20, 0.25)
    case 0 => (0.25, 1.0)
  }

  /** The offset is `k` exactly when the draw falls in `k`'s band, in both directions. */
  lemma SeverityOffsetBands(r: real, k: int)
    requires 0.0 <= r < 1.0 && k in {2, 1, -1, 0}
    ensures SeverityOffset(r) == k <==> OffsetBand(k).0 <= r < OffsetBand(k).1
  {
  }

  /**
   * The bands partition [0, 1) and their widths are the probabilities of the
   * offsets under a uniform draw: 5 %, 15 %, 5 % and 75 %.
   */
  lemma OffsetDistribution()
    ensures OffsetBand(2).1 - OffsetBand(2).0 == 0.05
    ensures OffsetBand(1).1 - OffsetBand(1).0 == 0.15
    ensures OffsetBand(-1).1 - OffsetBand(-1).0 == 0.05
    ensures OffsetBand(0).1 - OffsetBand(0).0 == 0.75
    ensures OffsetBand(2).1 == OffsetBand(1).0 && OffsetBand(1).1 == OffsetBand(-1).0
    ensures OffsetBand(-1).1 == OffsetBand(0).0
    ensures OffsetBand(2).0 == 0.0 && OffsetBand(0).1 == 1.0
  {
  }

  /**
   * The chosen severity is the base level moved by the offset and stopped at
   * the ends of the order: never more than two levels up or one level down,
   * and the base itself whenever `r >= 0.25`.
   */
  lemma SeverityWithinOrder(key: string, r: real)
    ensures var b, s := Rank(BaseSeverity(key)), Rank(ChooseSeverity(key, r));
      && s == ClampIndex(b + SeverityOffset(r))
      && b - 1 <= s <= b + 2
      && (r >= 0.25 ==> ChooseSeverity(key, r) == BaseSeverity(key))
      && (r < 0.20 ==> s >= b)
      && (0.20 <= r ==> s <= b)
  {
    var i := ClampIndex(Rank(BaseSeverity(key)) + SeverityOffset(r));
    assert Rank(SeverityOrder[i]) == i;
  }

  /** Labels without an entry of their own start at `medium` and use the range (0.5, 0.9). */
  lemma Defaults(key: string)
    requires key !in BaseMap && key !in ConfRanges
    ensures BaseSeverity(key) == Medium && ConfRange(key) == (0.5, 0.9)
  {
  }

  /** Every monitored label has its own base severity and range, so the defaults never apply to an alert. */
  lemma MonitoredLabelsConfigured(key: string)
    requires key in AnimalClasses
    ensures key in BaseMap && key in ConfRanges
    ensures ConfRanges[key].0 < ConfRanges[key].1
  {
  }

  /**
   * With a model confidence in [0, 1] and a jitter from `uniform(-0.02, 0.02)`,
   * the reported confidence lies within the label's range widened by the
   * jitter, cut to [0, 1].
   */
  lemma ConfidenceWithinRange(key: string, raw: real, jitter: real)
    requires 0.0 <= raw <= 1.0 && -0.02 <= jitter <= 0.02
    requires ConfRange(key).0 <= ConfRange(key).1
    ensures var (low, high) := ConfRange(key);
      var c := RemapConfidence(key, Some(raw), jitter);
      && (if low - 0.02 < 0.0 then 0.0 else low - 0.02) <= c
      && c <= (if high + 0.02 > 1.0 then 1.0 else high + 0.02)
  {
    var (low, high) := ConfRange(key);
    var spread := (high - low) * raw;
    assert 0.0 <= spread <= high - low by {
      assert (high - low) * raw <= (high - low) * 1.0;
    }
    var m := low + spread + jitter;
    assert low - 0.02 <= m <= high + 0.02;
    assert Mapped(key, raw, jitter) == m;
  }

  /** Case does not matter to the filter: "Dog" is monitored, and the record keeps "Dog". */
  lemma FilterIgnoresCase(d: Detection, draw: Draw)
    requires d.name == "Dog"
    ensures Synthesize(d, draw).Some? && Synthesize(d, draw).value.animalType == "Dog"
  {
    LowerAt(d.name, 0);
    LowerAt(d.name, 1);
    LowerAt(d.name, 2);
    assert Lower(d.name) == "dog";
  }

  /**
   * A dog seen at confidence 0.8: the range (0.6, 0.9) maps it to 0.84, so with
   * the jitter it is reported between 82 % and 86 %, at medium severity when the
   * draw keeps the base.
   */
  lemma DogExample(draw: Draw)
    requires -0.02 <= draw.jitter <= 0.02 && 0.25 <= draw.r < 1.0
    ensures var a := Synthesize(Detection("dog", Some(0.8)), draw);
      && a.Some? && a.value.severity == Medium
      && 82.0 <= a.value.confidence <= 86.0
  {
    assert Lower("dog") == "dog";
  }
}
