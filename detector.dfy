/**
 * The detector's control loop: auto-off, the sampling cadence and proximity
 * gates, alert dispatch and buzzer activation, and the distance cell the
 * listener overwrites.
 *
 * Camera, classifier, HTTP and clock are inputs.  One `Tick` is what the
 * environment supplies to one iteration of the loop; `StepSpec` says what the
 * iteration does, and the class `SmartAnimalDetector` carries it out on its
 * fields.
 */
module Detector {
  import opened Wrappers
  import opened Telemetry
  import opened Alerts
  import opened Text

  const BuzzerPin: int := 17
  /** Seconds the buzzer stays on before the loop turns it off. */
  const BuzzerDuration: real := 1.0
  /** Centimetres below which the classifier runs and the buzzer may sound. */
  const DistanceThreshold: real := 50.0
  /** Seconds between two sample points. */
  const SamplingInterval: real := 0.5
  const InitialDistance: Float := Finite(999.0)

  /** The outcome of one `requests.post`: a response with its status code, or an exception. */
  datatype Reply = Status(code: int) | Raised

  /** `control_buzzer(state)` records the new state only on status 200. */
  function BuzzerAfter(on: bool, state: bool, reply: Reply): bool
  {
    if reply == Status(200) then state else on
  }

  /** The body `{"pins": [{"pin": pin, "state": state}]}` posted to the pin server. */
  datatype BuzzerCommand = BuzzerCommand(pin: int, state: bool)

  const Off := BuzzerCommand(BuzzerPin, false)
  const On := BuzzerCommand(BuzzerPin, true)

  /** One box of the classifier's results, with what the environment supplies while it is handled. */
  datatype Box = Box(detection: Detection, draw: Draw, logReply: Reply)

  // ---------------------------------------------------------------- dispatch

  /** The alerts built during one sample point, and whether the loop crashed while posting one. */
  datatype Batch = Batch(alerts: seq<AlertEvent>, crashed: bool)

  /**
   * The loop over the boxes: an alert is built for each monitored box and posted.
   * When the post raises, `response` is `None` and reading its `status_code`
   * raises an `AttributeError` that nothing catches: the loop ends there.
   */
  function Dispatch(boxes: seq<Box>): Batch
    decreases |boxes|
  {
    if boxes == [] then Batch([], false)
    else
      match Synthesize(boxes[0].detection, boxes[0].draw)
      case None => Dispatch(boxes[1..])
      case Some(a) =>
        if boxes[0].logReply.Raised? then Batch([a], true)
        else
          var rest := Dispatch(boxes[1..]);
          Batch([a] + rest.alerts, rest.crashed)
  }

  /** Reference: the alerts of all monitored boxes, in order, as if every post returned. */
  function AllAlerts(boxes: seq<Box>): seq<AlertEvent>
    decreases |boxes|
  {
    if boxes == [] then []
    else
      match Synthesize(boxes[0].detection, boxes[0].draw)
      case None => AllAlerts(boxes[1..])
      case Some(a) => [a] + AllAlerts(boxes[1..])
  }

  predicate PostRaises(b: Box)
  {
    IsMonitored(b.detection.name) && b.logReply.Raised?
  }

  /** Number of boxes whose label is monitored. */
  function CountMonitored(boxes: seq<Box>): nat
    decreases |boxes|
  {
    if boxes == [] then 0 else (if IsMonitored(boxes[0].detection.name) then 1 else 0) + CountMonitored(boxes[1..])
  }

  /** The reference has exactly one alert per monitored box. */
  lemma {:induction false} AllAlertsCount(boxes: seq<Box>)
    ensures |AllAlerts(boxes)| == CountMonitored(boxes)
    decreases |boxes|
  {
    if boxes != [] {
      AllAlertsCount(boxes[1..]);
    }
  }

  /** The reference of a box alone: its alert exactly when its label is monitored. */
  lemma AllAlertsSingle(b: Box)
    ensures AllAlerts([b]) == if IsMonitored(b.detection.name) then [Synthesize(b.detection, b.draw).value] else []
  {
    assert [b][1..] == [];
  }

  /** The reference follows the boxes' order: the alerts of `x + y` are those of `x`, then those of `y`. */
  lemma {:induction false} AllAlertsAppend(x: seq<Box>, y: seq<Box>)
    ensures AllAlerts(x + y) == AllAlerts(x) + AllAlerts(y)
    decreases |x|
  {
    if x == [] {
      assert x + y == y;
    } else {
      assert (x + y)[0] == x[0];
      assert (x + y)[1..] == x[1..] + y;
      AllAlertsAppend(x[1..], y);
    }
  }

  /**
   * Dispatch builds the reference alerts in order and stops after the first
   * one whose post raises; when it does not crash it has built every alert.
   */
  lemma {:induction false} DispatchPrefix(boxes: seq<Box>)
    ensures var b := Dispatch(boxes);
      && b.alerts <= AllAlerts(boxes)
      && (!b.crashed ==> b.alerts == AllAlerts(boxes))
      && (b.crashed ==> b.alerts != [])
    decreases |boxes|
  {
    if boxes != [] {
      DispatchStep(boxes);
      DispatchPrefix(boxes[1..]);
    }
  }

  /** Dispatch crashes exactly when the post of some monitored box raises. */
  lemma {:induction false} DispatchCrashes(boxes: seq<Box>)
    ensures Dispatch(boxes).crashed <==> exists i | 0 <= i < |boxes| :: PostRaises(boxes[i])
    decreases |boxes|
  {
    if boxes != [] {
      DispatchStep(boxes);
      DispatchCrashes(boxes[1..]);
      assert forall i | 1 <= i < |boxes| :: boxes[i] == boxes[1..][i - 1];
    }
  }

  /**
   * A crash happens at the first box whose post raises: every alert up to and
   * including that box's was built, and nothing after it.
   */
  lemma {:induction false} CrashAtFirst(boxes: seq<Box>, k: nat)
    requires k < |boxes| && PostRaises(boxes[k])
    requires forall j | 0 <= j < k :: !PostRaises(boxes[j])
    ensures Dispatch(boxes) == Batch(AllAlerts(boxes[..k + 1]), true)
    decreases k
  {
    DispatchStep(boxes);
    if k > 0 {
      CrashAtFirst(boxes[1..], k - 1);
      assert boxes[..k + 1][0] == boxes[0];
      assert boxes[..k + 1][1..] == boxes[1..][..k];
    } else {
      assert boxes[..1] == [boxes[0]];
      AllAlertsSingle(boxes[0]);
    }
  }

  /** At most one alert per box, each for a monitored label; none exactly when no box is monitored. */
  lemma {:induction false} AllAlertsMonitored(boxes: seq<Box>)
    ensures |AllAlerts(boxes)| <= |boxes|
    ensures forall a | a in AllAlerts(boxes) :: Lower(a.animalType) in AnimalClasses
    ensures AllAlerts(boxes) == [] <==> forall i | 0 <= i < |boxes| :: !IsMonitored(boxes[i].detection.name)
    decreases |boxes|
  {
    if boxes != [] {
      AllAlertsMonitored(boxes[1..]);
      assert forall i | 1 <= i < |boxes| :: boxes[i] == boxes[1..][i - 1];
    }
  }

  /**
   * The loop of the sample point over the boxes: returns the alerts built, whether
   * some alert went out (`animal_detected`) and whether the loop crashed.
   */
  method BuildAlerts(boxes: seq<Box>) returns (alerts: seq<AlertEvent>, animalDetected: bool, crashed: bool)
    ensures Batch(alerts, crashed) == Dispatch(boxes)
    ensures animalDetected <==> |alerts| > (if crashed then 1 else 0)
  {
    alerts, animalDetected, crashed := [], false, false;
    var i := 0;
    while i < |boxes|
      invariant 0 <= i <= |boxes|
      invariant Dispatch(boxes) == Prepend(alerts, Dispatch(boxes[i..]))
      invariant animalDetected <==> |alerts| > 0
    {
      DispatchStep(boxes[i..]);
      assert boxes[i..][1..] == boxes[i + 1..];
      assert boxes[i..][0] == boxes[i];
      var b := boxes[i];
      var a := Synthesize(b.detection, b.draw);
      if a.Some? {
        if b.logReply.Raised? {
          alerts, crashed := alerts + [a.value], true;
          return;
        }
        ghost var rest := Dispatch(boxes[i + 1..]);
        assert alerts + ([a.value] + rest.alerts) == (alerts + [a.value]) + rest.alerts;
        alerts := alerts + [a.value];
        animalDetected := true;
      }
      i := i + 1;
    }
  }

  function Prepend(alerts: seq<AlertEvent>, b: Batch): Batch
  {
    Batch(alerts + b.alerts, b.crashed)
  }

  /** `Dispatch` of a non-empty sequence of boxes, one box at a time. */
  lemma DispatchStep(boxes: seq<Box>)
    requires boxes != []
    ensures var a := Synthesize(boxes[0].detection, boxes[0].draw);
      Dispatch(boxes) ==
        if a.None? then Dispatch(boxes[1..])
        else if boxes[0].logReply.Raised? then Batch([a.value], true)
        else Prepend([a.value], Dispatch(boxes[1..]))
  {
  }

  // ---------------------------------------------------------------- one iteration

  /** The detector's fields and the loop's local counters. */
  datatype DetectorState = DetectorState(
    buzzerOn: bool,
    lastBuzzerTime: real,
    currentDistance: Float,
    lastDetectionTime: real,
    frameCount: nat)

  const Initial := DetectorState(false, 0.0, InitialDistance, 0.0, 0)

  /** What the environment supplies to one iteration of the loop. */
  datatype Tick = Tick(
    heard: seq<Chunk>,  // chunks the listener thread handled since the previous iteration
    frameOk: bool,      // `cap.read()` returned a frame
    now: real,          // `time.time()`
    offReply: Reply,    // reply to the auto-off command, if it is sent
    boxes: seq<Box>,    // what the classifier returns, if it is invoked
    onReply: Reply)     // reply to the activation command, if it is sent

  /** What one iteration did. */
  datatype StepReport = StepReport(
    frameRead: bool,
    samplePoint: bool,
    classifierInvoked: bool,
    alerts: seq<AlertEvent>,
    commands: seq<BuzzerCommand>,
    crashed: bool)

  const NoFrame := StepReport(false, false, false, [], [], false)

  datatype Transition = Transition(next: DetectorState, report: StepReport)

  predicate Near(d: Float)
  {
    Below(d, DistanceThreshold)
  }

  /** The auto-off check that opens every iteration with a frame. */
  function AutoOffSpec(s: DetectorState, t: Tick): Transition
  {
    if s.buzzerOn && t.now - s.lastBuzzerTime >= BuzzerDuration then
      Transition(s.(buzzerOn := BuzzerAfter(s.buzzerOn, false, t.offReply)), StepReport(true, false, false, [], [Off], false))
    else
      Transition(s, StepReport(true, false, false, [], [], false))
  }

  /** The rest of the iteration: the cadence gate, the proximity gate, dispatch and activation. */
  function SampleSpec(s: DetectorState, t: Tick, commands: seq<BuzzerCommand>): Transition
  {
    if t.now - s.lastDetectionTime < SamplingInterval then
      Transition(s, StepReport(true, false, false, [], commands, false))
    else
      var invoked := Near(s.currentDistance);
      var batch := if invoked then Dispatch(t.boxes) else Batch([], false);
      if batch.crashed then
        Transition(s, StepReport(true, true, invoked, batch.alerts, commands, true))
      else
        var on := |batch.alerts| > 0 && Near(s.currentDistance);
        var s1 := if on then s.(buzzerOn := BuzzerAfter(s.buzzerOn, true, t.onReply), lastBuzzerTime := t.now) else s;
        Transition(
          s1.(lastDetectionTime := t.now),
          StepReport(true, true, invoked, batch.alerts, commands + (if on then [On] else []), false))
  }

  /** One iteration of the `while True` loop of `start_detection`; a failed read skips everything. */
  function StepSpec(s: DetectorState, t: Tick): Transition
  {
    if !t.frameOk then Transition(s, NoFrame)
    else
      var a := AutoOffSpec(s.(frameCount := s.frameCount + 1), t);
      SampleSpec(a.next, t, a.report.commands)
  }

  // ---------------------------------------------------------------- properties of one iteration

  /** The classifier runs exactly when a frame was read, the interval has elapsed and the target is near. */
  lemma StepClassifierGate(s: DetectorState, t: Tick)
    ensures StepSpec(s, t).report.classifierInvoked <==>
      t.frameOk && t.now - s.lastDetectionTime >= SamplingInterval && Near(s.currentDistance)
  {
  }

  /**
   * A sample point is due once the interval has elapsed; at every sample point
   * the clock is reset to `now` whatever the proximity gate decided, and
   * between sample points it is left alone.
   */
  lemma StepSampleClock(s: DetectorState, t: Tick)
    ensures var tr := StepSpec(s, t);
      && (tr.report.samplePoint <==> t.frameOk && t.now - s.lastDetectionTime >= SamplingInterval)
      && (tr.report.samplePoint && !tr.report.crashed ==> tr.next.lastDetectionTime == t.now)
      && (!tr.report.samplePoint || tr.report.crashed ==> tr.next.lastDetectionTime == s.lastDetectionTime)
  {
  }

  /** Auto-off: OFF is commanded exactly when the buzzer is tracked on and its time is up, and it comes first. */
  lemma StepAutoOff(s: DetectorState, t: Tick)
    ensures var r := StepSpec(s, t).report;
      && (Off in r.commands <==> t.frameOk && s.buzzerOn && t.now - s.lastBuzzerTime >= BuzzerDuration)
      && (Off in r.commands ==> r.commands[0] == Off)
  {
  }

  /**
   * Activation: ON is commanded exactly when this sample point built an alert
   * and did not crash (an alert implies the target was near); sending it
   * stamps `last_buzzer_time` even if the command fails, and nothing else does.
   */
  lemma StepActivation(s: DetectorState, t: Tick)
    ensures var tr := StepSpec(s, t);
      && (On in tr.report.commands <==>
          tr.report.samplePoint && !tr.report.crashed && |tr.report.alerts| > 0)
      && (On in tr.report.commands ==> Near(s.currentDistance) && tr.next.lastBuzzerTime == t.now)
      && (On !in tr.report.commands ==> tr.next.lastBuzzerTime == s.lastBuzzerTime)
  {
  }

  /** The tracked buzzer state changes only through a command the pin server confirmed with status 200. */
  lemma StepBuzzerConfirmed(s: DetectorState, t: Tick)
    ensures var tr := StepSpec(s, t);
      tr.next.buzzerOn != s.buzzerOn ==>
        || (tr.next.buzzerOn && On in tr.report.commands && t.onReply == Status(200))
        || (!tr.next.buzzerOn && Off in tr.report.commands && t.offReply == Status(200))
  {
  }

  /** The loop only reads the distance cell; the listener alone writes it. */
  lemma StepReadsDistanceOnly(s: DetectorState, t: Tick)
    ensures StepSpec(s, t).next.currentDistance == s.currentDistance
  {
  }

  /** Boxes with unmonitored labels produce no alert, no crash and no activation. */
  lemma StepIgnoresUnmonitored(s: DetectorState, t: Tick)
    requires forall i | 0 <= i < |t.boxes| :: !IsMonitored(t.boxes[i].detection.name)
    ensures var r := StepSpec(s, t).report;
      r.alerts == [] && !r.crashed && On !in r.commands
  {
    AllAlertsMonitored(t.boxes);
    DispatchPrefix(t.boxes);
  }

  /**
   * The loop crashes exactly when the classifier ran and the post of some
   * monitored box raised; the alerts built then are how far the reference got.
   */
  lemma StepCrash(s: DetectorState, t: Tick)
    ensures var r := StepSpec(s, t).report;
      && (r.crashed <==> r.classifierInvoked && exists i | 0 <= i < |t.boxes| :: PostRaises(t.boxes[i]))
      && (r.classifierInvoked ==> r.alerts <= AllAlerts(t.boxes))
      && (r.classifierInvoked && !r.crashed ==> r.alerts == AllAlerts(t.boxes))
  {
    DispatchPrefix(t.boxes);
    DispatchCrashes(t.boxes);
  }

  /** A distant target (80 cm): no classification, no alert, and a silent buzzer stays silent. */
  lemma FarTargetScenario(s: DetectorState, t: Tick)
    requires s.currentDistance == Finite(80.0) && !s.buzzerOn
    ensures var tr := StepSpec(s, t);
      !tr.report.classifierInvoked && tr.report.alerts == [] && tr.report.commands == [] && !tr.next.buzzerOn
  {
  }

  /**
   * A dog at 40 cm seen with confidence 0.8 at a sample point: one medium alert
   * between 82 % and 86 % (for a draw that keeps the base level), and the buzzer on.
   */
  lemma NearDogScenario(s: DetectorState, t: Tick, draw: Draw, code: int)
    requires s.currentDistance == Finite(40.0) && !s.buzzerOn
    requires t.frameOk && t.now - s.lastDetectionTime >= SamplingInterval
    requires t.boxes == [Box(Detection("dog", Some(0.8)), draw, Status(code))]
    requires -0.02 <= draw.jitter <= 0.02 && 0.25 <= draw.r < 1.0
    requires t.onReply == Status(200)
    ensures var tr := StepSpec(s, t);
      && |tr.report.alerts| == 1
      && tr.report.alerts[0].severity == Medium
      && 82.0 <= tr.report.alerts[0].confidence <= 86.0
      && tr.report.commands == [On]
      && tr.next.buzzerOn && tr.next.lastBuzzerTime == t.now
  {
    DogExample(draw);
    var a := Synthesize(Detection("dog", Some(0.8)), draw);
    assert t.boxes[1..] == [];
    assert Dispatch(t.boxes[1..]) == Batch([], false);
    assert Dispatch(t.boxes) == Batch([a.value], false);
  }

  /** The buzzer turned on at 0 s goes off at the first iteration from 1 s on that brings no new alert. */
  lemma AutoOffScenario(s: DetectorState, t: Tick)
    requires s.buzzerOn && s.lastBuzzerTime == 0.0
    requires t.frameOk && t.now >= 1.0 && t.offReply == Status(200) && t.boxes == []
    ensures !StepSpec(s, t).next.buzzerOn
  {
  }

  // ---------------------------------------------------------------- the whole loop

  datatype Run = Run(final: DetectorState, reports: seq<StepReport>)

  /**
   * What the listener thread did before an iteration: it handled the tick's
   * chunks on the distance cell, unless its loop had already ended.
   */
  function Heard(s: DetectorState, listening: bool, t: Tick): Listener
  {
    Hear(Listener(s.currentDistance, listening), Events(t.heard))
  }

  /**
   * The loop over a finite trace of iterations, with the listener's writes
   * landing between them; the first crash ends it.
   */
  function RunSpec(s: DetectorState, listening: bool, ticks: seq<Tick>): Run
    decreases |ticks|
  {
    if ticks == [] then Run(s, [])
    else
      var h := Heard(s, listening, ticks[0]);
      var tr := StepSpec(s.(currentDistance := h.distance), ticks[0]);
      if tr.report.crashed then Run(tr.next, [tr.report])
      else Extend([tr.report], RunSpec(tr.next, h.listening, ticks[1..]))
  }

  function Extend(reports: seq<StepReport>, r: Run): Run
  {
    Run(r.final, reports + r.reports)
  }

  /** `RunSpec` of a non-empty trace, one iteration at a time. */
  lemma RunStep(s: DetectorState, listening: bool, ticks: seq<Tick>)
    requires ticks != []
    ensures var h := Heard(s, listening, ticks[0]);
      var tr := StepSpec(s.(currentDistance := h.distance), ticks[0]);
      RunSpec(s, listening, ticks) ==
        if tr.report.crashed then Run(tr.next, [tr.report]) else Extend([tr.report], RunSpec(tr.next, h.listening, ticks[1..]))
  {
  }

  /** The loop invariant of the run, carried across one iteration that heard `h` first. */
  lemma RunAdvance(start: DetectorState, listening0: bool, ticks: seq<Tick>, i: nat, reports: seq<StepReport>,
                   before: DetectorState, listening: bool, h: Listener, report: StepReport, after: DetectorState)
    requires i < |ticks|
    requires RunSpec(start, listening0, ticks) == Extend(reports, RunSpec(before, listening, ticks[i..]))
    requires h == Heard(before, listening, ticks[i])
    requires Transition(after, report) == StepSpec(before.(currentDistance := h.distance), ticks[i])
    ensures report.crashed ==> RunSpec(start, listening0, ticks) == Run(after, reports + [report])
    ensures !report.crashed ==>
      RunSpec(start, listening0, ticks) == Extend(reports + [report], RunSpec(after, h.listening, ticks[i + 1..]))
  {
    var u := ticks[i..];
    assert u[0] == ticks[i];
    assert u[1..] == ticks[i + 1..];
    RunStep(before, listening, u);
    if !report.crashed {
      var rest := RunSpec(after, h.listening, ticks[i + 1..]);
      assert RunSpec(before, listening, u) == Extend([report], rest);
      assert reports + ([report] + rest.reports) == (reports + [report]) + rest.reports;
    }
  }

  /** The listener's events over a stretch of iterations, in order. */
  function HeardEvents(ticks: seq<Tick>): seq<Event>
    decreases |ticks|
  {
    if ticks == [] then [] else Events(ticks[0].heard) + HeardEvents(ticks[1..])
  }

  /** One report per iteration up to and including the first crash. */
  lemma {:induction false} RunShape(s: DetectorState, listening: bool, ticks: seq<Tick>)
    ensures var r := RunSpec(s, listening, ticks);
      && |r.reports| <= |ticks|
      && (forall i | 0 <= i < |r.reports| - 1 :: !r.reports[i].crashed)
      && (|r.reports| < |ticks| ==> r.reports != [] && r.reports[|r.reports| - 1].crashed)
    decreases |ticks|
  {
    if ticks != [] {
      var h := Heard(s, listening, ticks[0]);
      var tr := StepSpec(s.(currentDistance := h.distance), ticks[0]);
      if !tr.report.crashed {
        RunShape(tr.next, h.listening, ticks[1..]);
      }
    }
  }

  /** The loop never writes the distance: the cell ends as the listener left it. */
  lemma {:induction false} RunDistance(s: DetectorState, listening: bool, ticks: seq<Tick>, n: nat)
    requires n == |RunSpec(s, listening, ticks).reports| <= |ticks|
    ensures RunSpec(s, listening, ticks).final.currentDistance ==
      Hear(Listener(s.currentDistance, listening), HeardEvents(ticks[..n])).distance
    decreases |ticks|
  {
    if ticks != [] {
      var l := Listener(s.currentDistance, listening);
      var h := Heard(s, listening, ticks[0]);
      var tr := StepSpec(s.(currentDistance := h.distance), ticks[0]);
      StepReadsDistanceOnly(s.(currentDistance := h.distance), ticks[0]);
      if tr.report.crashed {
        assert ticks[..n] == [ticks[0]];
        assert HeardEvents([ticks[0]]) == Events(ticks[0].heard) + HeardEvents([]);
        assert Events(ticks[0].heard) + [] == Events(ticks[0].heard);
      } else {
        var rest := RunSpec(tr.next, h.listening, ticks[1..]);
        var m := |rest.reports|;
        RunShape(tr.next, h.listening, ticks[1..]);
        RunDistance(tr.next, h.listening, ticks[1..], m);
        assert ticks[..n][0] == ticks[0];
        assert ticks[..n][1..] == ticks[1..][..m];
        HearAppend(l, Events(ticks[0].heard), HeardEvents(ticks[1..][..m]));
      }
    }
  }

  /**
   * One report per iteration up to and including the first crash.  The loop
   * never writes the distance: at the end the cell holds what the listener
   * made of every chunk it handled before the iterations that ran.
   */
  lemma RunStopsAtCrash(s: DetectorState, listening: bool, ticks: seq<Tick>)
    ensures var r := RunSpec(s, listening, ticks);
      && |r.reports| <= |ticks|
      && (forall i | 0 <= i < |r.reports| - 1 :: !r.reports[i].crashed)
      && (|r.reports| < |ticks| ==> r.reports != [] && r.reports[|r.reports| - 1].crashed)
      && r.final.currentDistance == Hear(Listener(s.currentDistance, listening), HeardEvents(ticks[..|r.reports|])).distance
  {
    RunShape(s, listening, ticks);
    RunDistance(s, listening, ticks, |RunSpec(s, listening, ticks).reports|);
  }

  /**
   * A fresh detector starts at 999 cm, beyond the proximity gate; once the
   * listener has read `40` before the first sample point, that iteration runs
   * the classifier.
   */
  lemma HeardDistanceReachesLoop(start: real, startReply: Reply, t: Tick, stopReply: Reply)
    requires t.heard == [Received("40")] && t.frameOk && t.now - start >= SamplingInterval
    ensures var se := DetectSpec(Initial, true, start, startReply, [t], stopReply);
      se.reports != [] && se.reports[0].classifierInvoked
  {
    FortyRead();
    HearOneReading(InitialDistance, Received("40"), Finite(40.0));
    var s0 := Initial.(buzzerOn := BuzzerAfter(Initial.buzzerOn, false, startReply), frameCount := 0, lastDetectionTime := start);
    var h := Heard(s0, true, t);
    StepClassifierGate(s0.(currentDistance := h.distance), t);
    RunStep(s0, true, [t]);
  }

  function Crashed(reports: seq<StepReport>): bool
  {
    reports != [] && reports[|reports| - 1].crashed
  }

  /** What `start_detection` did: the buzzer commands it sent itself and the loop's reports. */
  datatype Session = Session(final: DetectorState, commands: seq<BuzzerCommand>, reports: seq<StepReport>)

  /**
   * `start_detection`: when the camera opens, force the buzzer off, start the
   * clock, run the loop; an interrupt after the trace forces the buzzer off
   * again, a crash does not.
   */
  function DetectSpec(s: DetectorState, cameraOpened: bool, start: real, startReply: Reply,
                      ticks: seq<Tick>, stopReply: Reply): Session
  {
    if !cameraOpened then Session(s, [], [])
    else
      var s0 := s.(buzzerOn := BuzzerAfter(s.buzzerOn, false, startReply), frameCount := 0, lastDetectionTime := start);
      var run := RunSpec(s0, true, ticks);
      if Crashed(run.reports) then Session(run.final, [Off], run.reports)
      else Session(run.final.(buzzerOn := BuzzerAfter(run.final.buzzerOn, false, stopReply)), [Off, Off], run.reports)
  }

  /**
   * An interrupted session ends with OFF and, when the server confirms it, a
   * silent buzzer; a crashed session leaves the buzzer as the loop left it.
   */
  lemma SessionShutdown(s: DetectorState, start: real, startReply: Reply, ticks: seq<Tick>, stopReply: Reply)
    ensures var se := DetectSpec(s, true, start, startReply, ticks, stopReply);
      && se.commands[0] == Off
      && (!Crashed(se.reports) ==> se.commands == [Off, Off] && (stopReply == Status(200) ==> !se.final.buzzerOn))
      && (Crashed(se.reports) ==> se.commands == [Off])
  {
  }

  // ---------------------------------------------------------------- the object

  class SmartAnimalDetector {
    var buzzerOn: bool
    var lastBuzzerTime: real
    var currentDistance: Float
    var lastDetectionTime: real
    var frameCount: nat

    function State(): DetectorState
      reads this
    {
      DetectorState(buzzerOn, lastBuzzerTime, currentDistance, lastDetectionTime, frameCount)
    }

    constructor ()
      ensures State() == Initial
    {
      buzzerOn := false;
      lastBuzzerTime := 0.0;
      currentDistance := InitialDistance;
      lastDetectionTime := 0.0;
      frameCount := 0;
    }

    /** `control_buzzer`: post the command; only status 200 updates the tracked state. */
    method ControlBuzzer(state: bool, reply: Reply) returns (command: BuzzerCommand)
      modifies this`buzzerOn
      ensures command == BuzzerCommand(BuzzerPin, state)
      ensures buzzerOn == (if reply == Status(200) then state else old(buzzerOn))
    {
      command := BuzzerCommand(BuzzerPin, state);
      if reply == Status(200) {
        buzzerOn := state;
      }
    }

    /** The body of `distance_listener`'s loop for one chunk. */
    method ReceiveChunk(c: Chunk) returns (listening: bool)
      modifies this`currentDistance
      ensures Listener(currentDistance, listening) == Receive(old(currentDistance), c)
    {
      listening := true;
      match c {
        case Received(text) =>
          var reading := ParseFloat(Strip(text));
          if reading.Some? {
            currentDistance := reading.value;
          }
        case _ =>
          listening := false;
      }
    }

    /**
     * The listener thread over a stretch of chunks, from whether its loop
     * still runs; it reports whether it still runs afterwards.
     */
    method HearChunks(chunks: seq<Chunk>, listening: bool) returns (still: bool)
      modifies this`currentDistance
      ensures Listener(currentDistance, still) == Hear(Listener(old(currentDistance), listening), Events(chunks))
    {
      var i := 0;
      still := listening;
      while i < |chunks| && still
        invariant 0 <= i <= |chunks|
        invariant Hear(Listener(old(currentDistance), listening), Events(chunks)) == Hear(Listener(currentDistance, still), Events(chunks)[i..])
      {
        ghost var rest := Events(chunks)[i..];
        assert rest[0] == Classify(chunks[i]) && rest[1..] == Events(chunks)[i + 1..];
        HearFirst(currentDistance, rest);
        still := ReceiveChunk(chunks[i]);
        i := i + 1;
      }
    }

    /** `distance_listener`'s loop over the chunks of the one accepted connection. */
    method DistanceListener(chunks: seq<Chunk>)
      modifies this`currentDistance
      ensures currentDistance == Listen(old(currentDistance), Events(chunks))
    {
      HearIsListen(currentDistance, Events(chunks));
      var _ := HearChunks(chunks, true);
    }

    /** One iteration of `start_detection`'s loop. */
    method Step(t: Tick) returns (report: StepReport)
      modifies this
      ensures Transition(State(), report) == StepSpec(old(State()), t)
    {
      if !t.frameOk {
        return NoFrame;
      }
      frameCount := frameCount + 1;
      var commands := AutoOff(t);
      report := Sample(t, commands);
    }

    /** Auto-off: turn the buzzer off once it has sounded for its duration. */
    method AutoOff(t: Tick) returns (commands: seq<BuzzerCommand>)
      modifies this`buzzerOn
      ensures Transition(State(), StepReport(true, false, false, [], commands, false)) == AutoOffSpec(old(State()), t)
    {
      commands := [];
      if buzzerOn && t.now - lastBuzzerTime >= BuzzerDuration {
        var command := ControlBuzzer(false, t.offReply);
        commands := [command];
      }
    }

    /** The part of the iteration after auto-off. */
    method Sample(t: Tick, commands: seq<BuzzerCommand>) returns (report: StepReport)
      modifies this`buzzerOn, this`lastBuzzerTime, this`lastDetectionTime
      ensures Transition(State(), report) == SampleSpec(old(State()), t, commands)
    {
      if t.now - lastDetectionTime < SamplingInterval {
        return StepReport(true, false, false, [], commands, false);
      }
      var invoked := Near(currentDistance);
      var alerts, animalDetected, crashed := [], false, false;
      if invoked {
        alerts, animalDetected, crashed := BuildAlerts(t.boxes);
      }
      if crashed {
        return StepReport(true, true, invoked, alerts, commands, true);
      }
      var sent := commands;
      if animalDetected && Near(currentDistance) {
        var command := ControlBuzzer(true, t.onReply);
        sent := sent + [command];
        lastBuzzerTime := t.now;
      }
      lastDetectionTime := t.now;
      report := StepReport(true, true, invoked, alerts, sent, false);
    }

    /**
     * The loop itself, over a finite trace of iterations; before each one the
     * listener thread handles the chunks that arrived since the last.
     */
    method RunLoop(listening0: bool, ticks: seq<Tick>) returns (reports: seq<StepReport>)
      modifies this
      ensures RunSpec(old(State()), listening0, ticks) == Run(State(), reports)
    {
      ghost var start := State();
      reports := [];
      var listening := listening0;
      var i := 0;
      while i < |ticks|
        invariant 0 <= i <= |ticks|
        invariant RunSpec(start, listening0, ticks) == Extend(reports, RunSpec(State(), listening, ticks[i..]))
      {
        ghost var before := State();
        ghost var wasListening := listening;
        listening := HearChunks(ticks[i].heard, listening);
        ghost var h := Heard(before, wasListening, ticks[i]);
        assert State() == before.(currentDistance := h.distance);
        var report := Step(ticks[i]);
        RunAdvance(start, listening0, ticks, i, reports, before, wasListening, h, report, State());
        reports := reports + [report];
        if report.crashed {
          return;
        }
        i := i + 1;
      }
    }

    /** `start_detection` over a finite trace that ends with an interrupt, unless the loop crashes first. */
    method StartDetection(cameraOpened: bool, start: real, startReply: Reply, ticks: seq<Tick>, stopReply: Reply)
      returns (commands: seq<BuzzerCommand>, reports: seq<StepReport>)
      modifies this
      ensures DetectSpec(old(State()), cameraOpened, start, startReply, ticks, stopReply) == Session(State(), commands, reports)
    {
      if !cameraOpened {
        return [], [];
      }
      var first := ControlBuzzer(false, startReply);
      frameCount := 0;
      lastDetectionTime := start;
      reports := RunLoop(true, ticks);
      if Crashed(reports) {
        return [first], reports;
      }
      var last := ControlBuzzer(false, stopReply);
      commands := [first, last];
    }
  }
}
