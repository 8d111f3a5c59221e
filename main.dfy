/** pi/src/main.py: one pass of the `while True` loop in `main()` as one `Tick`. The camera read,
    the motion decision and the classifier outputs are inputs of the tick, and one clock reading
    `now` stands for every `datetime.now()` and `time.time()` call inside it. */
module MainLoop {
  import opened Wrappers
  import opened Config
  import opened Records
  import opened State
  import opened Testing
  import opened Vibration
  import opened Visits
  import opened ImageProcessing

  /** The string main.py compares register_detection's result with before recording a suppression. */
  const SUPPRESSION_CHECK: string := "Nova suppressed"

  /** Mila's safety buffer is on while less than SAFETY_BUFFER seconds have passed since her last visit. */
  predicate BufferStatus(lastMilaEndTime: Option<real>, now: real, safetyBuffer: real) {
    lastMilaEndTime.Some? && now - lastMilaEndTime.value < safetyBuffer
  }

  /** A result is handed to register_detection only when it is confident and names a dog. */
  predicate Accepted(cfg: Settings, dog: string, confidence: real) {
    confidence >= cfg.confidenceThreshold && dog != NONE_LABEL
  }

  /** A confident "None" result: the buzzer is turned off and no visit is touched. */
  predicate ConfidentNone(cfg: Settings, dog: string, confidence: real) {
    confidence >= cfg.confidenceThreshold && dog == NONE_LABEL
  }

  /** `triggered_tests` for one motion-triggered result. The low-confidence rule runs on every result;
      the rapid-switching and mixed-confidence rules and the suppression check only on an accepted
      one, whose register_detection result is `detection`. */
  function Findings(cfg: Settings, dog: string, confidence: real, scores: map<string, real>,
                    now: real, lastDetectedTime: real, lastDetectedDog: Option<string>,
                    detection: Option<string>): (f: seq<Finding>)
    ensures LowConfidence(confidence) in f <==>
              cfg.lowConfidenceThreshold - 20.0 < confidence < cfg.lowConfidenceThreshold
    ensures RapidSwitching in f <==>
              detection.Some? && RapidSwitchingTest(cfg, dog, now, lastDetectedTime, lastDetectedDog) != []
    ensures MixedConfidence in f <==> detection.Some? && MixedConfidenceTest(cfg, dog, scores) != []
    ensures NovaSuppressed in f <==> detection == Some(SUPPRESSION_CHECK)
    ensures forall x :: x in f ==>
              x == LowConfidence(confidence) || x == RapidSwitching || x == MixedConfidence || x == NovaSuppressed
  {
    var low := LowConfidenceTest(cfg, confidence);
    if detection.None? then low
    else
      low
      + RapidSwitchingTest(cfg, dog, now, lastDetectedTime, lastDetectedDog)
      + MixedConfidenceTest(cfg, dog, scores)
      + (if detection.value == SUPPRESSION_CHECK then [NovaSuppressed] else [])
  }

  /** The findings as the low-confidence rule's followed by the accepted-only rules' outcomes. */
  lemma FindingsInOrder(cfg: Settings, dog: string, confidence: real, scores: map<string, real>,
                        now: real, lastDetectedTime: real, lastDetectedDog: Option<string>,
                        detection: Option<string>)
    ensures Findings(cfg, dog, confidence, scores, now, lastDetectedTime, lastDetectedDog, detection) ==
              LowConfidenceTest(cfg, confidence) +
              (if detection.None? then []
               else RapidSwitchingTest(cfg, dog, now, lastDetectedTime, lastDetectedDog)
                    + MixedConfidenceTest(cfg, dog, scores)
                    + (if detection.value == SUPPRESSION_CHECK then [NovaSuppressed] else []))
  {
  }

  /** The suppression finding never fires: none of register_detection's results is the string main compares with. */
  lemma SuppressionNeverFlagged(cfg: Settings, dog: string, confidence: real, scores: map<string, real>,
                                now: real, lastDetectedTime: real, lastDetectedDog: Option<string>,
                                bufferActive: bool)
    ensures NovaSuppressed !in
              Findings(cfg, dog, confidence, scores, now, lastDetectedTime, lastDetectedDog,
                       Some(DetectionResult(dog, bufferActive)))
  {
    assert |NOVA_SUPPRESSED| != |SUPPRESSION_CHECK|;
  }

  /** The rapid-switching rule never fires while the last detected dog stays None. */
  lemma RapidSwitchingNeverFlagged(cfg: Settings, dog: string, confidence: real, scores: map<string, real>,
                                   now: real, lastDetectedTime: real, detection: Option<string>)
    ensures RapidSwitching !in Findings(cfg, dog, confidence, scores, now, lastDetectedTime, None, detection)
  {
  }

  /** An open visit whose last detection is more than VISIT_TIMEOUT seconds old. */
  predicate Expired(v: Visit, now: real, visitTimeout: real)
    requires v.WellFormed()
  {
    v.IsOpen() && now - v.endTime.value > visitTimeout
  }

  /** The visit slot after the visit-timeout check: an expired visit is finalized, no stale visit survives. */
  function AfterTimeout(v: Visit, now: real, visitTimeout: real): (r: Visit)
    requires v.WellFormed()
    ensures r.WellFormed()
    ensures r.IsOpen() ==> now - r.endTime.value <= visitTimeout
    ensures r.IsOpen() ==> r == v
    ensures v.IsOpen() && !r.IsOpen() <==> Expired(v, now, visitTimeout)
  {
    if Expired(v, now, visitTimeout) then NO_VISIT else v
  }

  /** What the visit-timeout check reports: the expired visit. */
  function TimeoutReports(v: Visit, now: real, visitTimeout: real): (r: seq<VisitReport>)
    requires v.WellFormed()
    ensures r != [] <==> Expired(v, now, visitTimeout)
    ensures r != [] ==> r == Reported(v)
  {
    if Expired(v, now, visitTimeout) then Reported(v) else []
  }

  /** What one pass of the loop did. */
  datatype TickOutcome =
    | Stopped(error: SimulationError)
    | NoMotion
    | Motion(dog: string, confidence: real, scores: map<string, real>,
             detection: Option<string>, findings: seq<Finding>)

  /** What evaluate_frames hands to the rest of the motion branch: the class, its confidence and the
      averaged scores of all labels. */
  datatype Verdict = Verdict(dog: string, confidence: real, scores: map<string, real>)

  /** The evaluation half of a motion-triggered pass: the class and scores of evaluate_frames, and the
      confidence of that class. */
  predicate EvaluatedOutcome(cfg: Settings, preds: seq<seq<real>>, o: TickOutcome) {
    && o.Motion?
    && cfg.LabelsOk() && 1 <= cfg.verifyTimes <= |preds|
    && Evaluation(cfg.classLabels, preds, cfg.verifyTimes).cls == Some(o.dog)
    && Evaluation(cfg.classLabels, preds, cfg.verifyTimes).scores == o.scores
    && o.dog in o.scores && o.confidence == o.scores[o.dog]
  }

  /** The response half of a motion-triggered pass: the acceptance gate, register_detection's result under
      the buffer status `bufferActive`, and the findings, never the suppression or rapid-switching one. */
  predicate RespondedOutcome(cfg: Settings, now: real, lastDetectedTime: real, bufferActive: bool, o: TickOutcome) {
    && o.Motion?
    && (o.detection.Some? <==> Accepted(cfg, o.dog, o.confidence))
    && (o.detection.Some? ==> o.detection.value == DetectionResult(o.dog, bufferActive))
    && o.findings == Findings(cfg, o.dog, o.confidence, o.scores, now, lastDetectedTime, None, o.detection)
    && NovaSuppressed !in o.findings && RapidSwitching !in o.findings
  }

  /** What a motion-triggered pass promises about the result it evaluated. */
  predicate MotionOutcome(cfg: Settings, preds: seq<seq<real>>, now: real, lastDetectedTime: real,
                          bufferActive: bool, o: TickOutcome)
  {
    EvaluatedOutcome(cfg, preds, o) && RespondedOutcome(cfg, now, lastDetectedTime, bufferActive, o)
  }

  /** Whether a pass handed its result to register_detection. */
  predicate Registered(o: TickOutcome) {
    o.Motion? && o.detection.Some?
  }

  /** The visit slot after the motion branch: register_detection's update for an accepted result. */
  function VisitAfterMotion(v: Visit, o: TickOutcome, bufferActive: bool, now: real): (r: Visit)
    requires v.WellFormed()
    ensures r.WellFormed()
  {
    if Registered(o) then VisitAfterDetection(v, o.dog, bufferActive, now) else v
  }

  /** The visits the motion branch reports: the one an accepted result displaces. */
  function ReportsOfMotion(v: Visit, o: TickOutcome, bufferActive: bool): (r: seq<VisitReport>)
    requires v.WellFormed()
    ensures |r| <= 1
  {
    if Registered(o) then ReportsOfDetection(v, o.dog, bufferActive) else []
  }

  /** The visit slot after a pass: the motion branch, then the visit-timeout check. */
  function VisitAfterTick(v: Visit, o: TickOutcome, bufferActive: bool, now: real, visitTimeout: real): (r: Visit)
    requires v.WellFormed()
    ensures r.WellFormed()
    ensures r.IsOpen() ==> now - r.endTime.value <= visitTimeout
  {
    AfterTimeout(VisitAfterMotion(v, o, bufferActive, now), now, visitTimeout)
  }

  /** With a clock that does not run backwards, a pass keeps the visit slot ordered, and an open visit
      never ends after the pass's time. */
  lemma TickKeepsOrder(v: Visit, o: TickOutcome, bufferActive: bool, now: real, visitTimeout: real)
    requires v.Ordered() && (v.IsOpen() ==> v.endTime.value <= now)
    ensures var r := VisitAfterTick(v, o, bufferActive, now, visitTimeout);
            r.Ordered() && (r.IsOpen() ==> r.endTime.value <= now)
  {
    if Registered(o) && Registers(o.dog, bufferActive) {
      UpdatedKeepsOrder(v, o.dog, now);
    }
  }

  /** The test case a pass saves: one for a motion result with findings, none otherwise. */
  function TestsOfTick(o: TickOutcome, frame: Frame, now: real): (r: seq<TestCase>)
    ensures r != [] <==> o.Motion? && o.findings != []
    ensures r != [] ==> r == [TestCase(frame, now, o.scores, o.findings, o.dog)]
  {
    if o.Motion? && o.findings != [] then [TestCase(frame, now, o.scores, o.findings, o.dog)] else []
  }

  /** The buzzer after register_detection(dog) and, for a registered Nova, add_frame_to_buzz_event:
      Mila sends "off", Nova outside the buffer sends "on" and adds the frame, and anything else
      changes nothing. */
  function BuzzerAfterDetection(cfg: Settings, b: Buzzer, dog: string, bufferActive: bool, gpio: bool,
                                frame: Frame, scores: map<string, real>, now: real): Buzzer
  {
    if dog == MILA then Control(b, Off, gpio, bufferActive, cfg.enableVibration, now)
    else if dog == NOVA && !bufferActive then
      var on := Control(b, On, gpio, bufferActive, cfg.enableVibration, now);
      on.(event := WithFrame(on.event, frame, scores))
    else b
  }

  /** The buzzer after the response to one evaluated result: register_detection for an accepted one,
      "off" for a confident None, nothing otherwise. */
  function BuzzerAfterResponse(cfg: Settings, b: Buzzer, dog: string, confidence: real, detection: Option<string>,
                               bufferActive: bool, gpio: bool, frame: Frame, scores: map<string, real>,
                               now: real): Buzzer
  {
    if detection.Some? then BuzzerAfterDetection(cfg, b, dog, bufferActive, gpio, frame, scores, now)
    else if ConfidentNone(cfg, dog, confidence) then Control(b, Off, gpio, bufferActive, cfg.enableVibration, now)
    else b
  }

  /** The buzzer after the motion branch of a pass; without motion it is untouched. */
  function BuzzerAfterMotion(cfg: Settings, b: Buzzer, o: TickOutcome, bufferActive: bool, gpio: bool,
                             frame: Frame, now: real): Buzzer
  {
    if o.Motion?
    then BuzzerAfterResponse(cfg, b, o.dog, o.confidence, o.detection, bufferActive, gpio, frame, o.scores, now)
    else b
  }

  /** The buzzer after the detection-timeout check: "off" when no motion was seen for DETECTION_TIMEOUT seconds. */
  function BuzzerAfterIdle(cfg: Settings, b: Buzzer, idle: bool, bufferActive: bool, gpio: bool, now: real): Buzzer {
    if idle then Control(b, Off, gpio, bufferActive, cfg.enableVibration, now) else b
  }

  /** The buzzer after a pass: the motion branch, then the detection-timeout check. */
  function BuzzerAfterTick(cfg: Settings, b: Buzzer, o: TickOutcome, bufferActive: bool, gpio: bool,
                           frame: Frame, idle: bool, now: real): Buzzer
  {
    BuzzerAfterIdle(cfg, BuzzerAfterMotion(cfg, b, o, bufferActive, gpio, frame, now), idle, bufferActive, gpio, now)
  }

  /** The pin in the motion branch: HIGH exactly when Nova is registered with GPIO present and vibration
      enabled; LOW exactly when Mila is registered or a confident None is seen, with GPIO present and the
      buffer off; otherwise it is not written. */
  lemma MotionPins(cfg: Settings, b: Buzzer, o: TickOutcome, lastDetectedTime: real, bufferActive: bool,
                   gpio: bool, frame: Frame, now: real)
    requires o.Motion? ==> RespondedOutcome(cfg, now, lastDetectedTime, bufferActive, o)
    ensures var r := BuzzerAfterMotion(cfg, b, o, bufferActive, gpio, frame, now);
            && (r.pins == b.pins + [true] <==>
                  o.Motion? && o.detection == Some(NOVA_REGISTERED) && gpio && cfg.enableVibration)
            && (r.pins == b.pins + [false] <==>
                  && o.Motion? && gpio && !bufferActive
                  && (o.detection == Some(MILA_REGISTERED) || ConfidentNone(cfg, o.dog, o.confidence)))
            && (r.pins == b.pins || r.pins == b.pins + [true] || r.pins == b.pins + [false])
  {
    var r := BuzzerAfterMotion(cfg, b, o, bufferActive, gpio, frame, now);
    assert b.pins != b.pins + [true] && b.pins != b.pins + [false] && b.pins + [true] != b.pins + [false] by {
      assert |b.pins + [true]| == |b.pins| + 1 && (b.pins + [true])[|b.pins|] != (b.pins + [false])[|b.pins|];
    }
  }

  /** The buzz event in the motion branch: a frame with its scores is added exactly when Nova is
      registered, and buzzers.json gains the open event, stamped now, exactly when Mila is registered or
      a confident None is seen while an event is open. */
  lemma MotionEvent(cfg: Settings, b: Buzzer, o: TickOutcome, lastDetectedTime: real, bufferActive: bool,
                    gpio: bool, frame: Frame, now: real)
    requires o.Motion? && RespondedOutcome(cfg, now, lastDetectedTime, bufferActive, o)
    ensures var r := BuzzerAfterMotion(cfg, b, o, bufferActive, gpio, frame, now);
            var frameAdded := BuzzAfter(b.event, On, now).value.frames + [BuzzFrame(frame, BuzzFrameScores(o.scores))];
            && (r.event.Some? && r.event.value.frames == frameAdded <==> o.detection == Some(NOVA_REGISTERED))
            && (r.log != b.log <==>
                  b.event.Some? && (o.detection == Some(MILA_REGISTERED) || ConfidentNone(cfg, o.dog, o.confidence)))
            && (r.log != b.log ==> r.log == b.log + [b.event.value.(endTime := Some(now))] && r.event == None)
            && (r.log == b.log ==> r.event.Some? || r.event == b.event)
  {
    var r := BuzzerAfterMotion(cfg, b, o, bufferActive, gpio, frame, now);
    var frameAdded := BuzzAfter(b.event, On, now).value.frames + [BuzzFrame(frame, BuzzFrameScores(o.scores))];
    if b.event.Some? {
      assert |frameAdded| == |b.event.value.frames| + 1;
    }
    if r.log != b.log {
      assert b.event.Some?;
    }
  }

  /** The motion branch logs at most one event, closed now, and leaves no event open when it does. */
  lemma MotionLogGrowth(cfg: Settings, b: Buzzer, o: TickOutcome, bufferActive: bool, gpio: bool,
                        frame: Frame, now: real)
    ensures var m := BuzzerAfterMotion(cfg, b, o, bufferActive, gpio, frame, now);
            && (m.log == b.log || (m.log == b.log + [b.event.value.(endTime := Some(now))] && m.event == None))
            && (!gpio ==> m.pins == b.pins)
  {
  }

  /** Across a pass, the buzzer is closed after DETECTION_TIMEOUT seconds without motion, left alone by a
      quiet pass, and buzzers.json gains at most one event, closed now. */
  lemma TickBuzzer(cfg: Settings, b: Buzzer, o: TickOutcome, bufferActive: bool, gpio: bool,
                   frame: Frame, idle: bool, now: real)
    ensures var r := BuzzerAfterTick(cfg, b, o, bufferActive, gpio, frame, idle, now);
            && (idle ==> r.event == None)
            && (!idle && !o.Motion? ==> r == b)
            && (!gpio ==> r.pins == b.pins)
            && b.log <= r.log && |r.log| <= |b.log| + 1
            && (|r.log| == |b.log| + 1 ==> r.log[|b.log|].endTime == Some(now))
  {
    var m := BuzzerAfterMotion(cfg, b, o, bufferActive, gpio, frame, now);
    MotionLogGrowth(cfg, b, o, bufferActive, gpio, frame, now);
    var r := BuzzerAfterIdle(cfg, m, idle, bufferActive, gpio, now);
    assert r == BuzzerAfterTick(cfg, b, o, bufferActive, gpio, frame, idle, now);
    if m.log == b.log {
      assert r.log == b.log || r.log == b.log + [m.event.value.(endTime := Some(now))];
    } else {
      assert r.log == m.log;
    }
  }

  /** The frame a successful capture puts in `curr_frame`: the camera's, or the simulated image under the cursor. */
  function CapturedFrame(useDummyImages: bool, images: seq<Frame>, cursor: nat, captured: Frame): Frame
    requires useDummyImages ==> cursor < |images|
  {
    if useDummyImages then images[cursor] else captured
  }

  /** The simulation cursor after a successful capture. */
  function CursorAfterCapture(useDummyImages: bool, images: seq<Frame>, cursor: nat): nat
    requires useDummyImages ==> cursor < |images|
  {
    if useDummyImages then NextIndex(cursor, |images|) else cursor
  }

  /** The frame in `curr_frame` after evaluate_frames started from `start`: still `start` if it took at
      most one sample, otherwise the last camera frame it read. */
  function EvaluatedFrame(cfg: Settings, camera: seq<Frame>, preds: seq<seq<real>>, start: Frame): Frame
    requires cfg.LabelsOk() && cfg.verifyTimes <= |preds| && cfg.verifyTimes <= |camera| + 1
  {
    var s := Evaluation(cfg.classLabels, preds, cfg.verifyTimes).samples;
    if s <= 1 then start else camera[s - 2]
  }

  /** The locals of `main()` around the loop, and the state and outside world the loop drives. */
  class Controller {
    const st: AppState
    const sinks: Sinks
    const cfg: Settings
    /** `last_detected_dog`: set to None before the loop and never reassigned. */
    const lastDetectedDog: Option<string>
    /** `last_detected_time`: the start time, never reassigned. */
    const lastDetectedTime: real
    /** `last_motion_time`: when motion was last seen. */
    var lastMotionTime: real

    ghost predicate Valid()
      reads this, st
    {
      && st.Valid()
      && cfg.LabelsOk()
      && cfg.verifyTimes >= 1
      && lastDetectedDog == None
    }

    /** The buzzer side of the state and the outside world. */
    function Buzz(): Buzzer
      reads st`currentBuzzEvent, sinks`buzzLog, sinks`pinWrites
    {
      Buzzer(st.currentBuzzEvent, sinks.buzzLog, sinks.pinWrites)
    }

    /** The set-up before the loop: the first camera frame becomes the previous frame, and both
        `last_detected_time` and `last_motion_time` start at the start time. */
    constructor (st: AppState, sinks: Sinks, cfg: Settings, firstFrame: Frame, startTime: real)
      requires st.Valid() && cfg.LabelsOk() && cfg.verifyTimes >= 1
      modifies st`prevFrame
      ensures Valid()
      ensures this.st == st && this.sinks == sinks && this.cfg == cfg
      ensures st.prevFrame == Some(firstFrame)
      ensures lastDetectedDog == None && lastDetectedTime == startTime && lastMotionTime == startTime
    {
      this.st := st;
      this.sinks := sinks;
      this.cfg := cfg;
      lastDetectedDog := None;
      lastDetectedTime := startTime;
      lastMotionTime := startTime;
      new;
      st.prevFrame := Some(firstFrame);
    }

    /** Capture the next frame: the camera's, or the next simulated image. A simulation error stops the loop. */
    method Capture(captured: Frame) returns (stopped: Option<SimulationError>)
      requires Valid()
      modifies st`currFrame, st`currentImageIndex
      ensures Valid()
      ensures !st.useDummyImages ==>
                stopped == None && st.currFrame == Some(captured) && st.currentImageIndex == old(st.currentImageIndex)
      ensures st.useDummyImages && old(st.currentImageIndex) < |st.activeImages| ==>
                && stopped == None
                && st.currFrame == Some(st.activeImages[old(st.currentImageIndex)])
                && st.currentImageIndex == NextIndex(old(st.currentImageIndex), |st.activeImages|)
      ensures st.useDummyImages && |st.activeImages| <= old(st.currentImageIndex) ==>
                && stopped == Some(if |st.activeImages| == 0 then NoActiveImages else IndexOutOfRange)
                && st.currFrame == old(st.currFrame) && st.currentImageIndex == old(st.currentImageIndex)
    {
      if !st.useDummyImages {
        st.currFrame := Some(captured);
        return None;
      }
      var image := GetSimulatedImage(st);
      match image
      case Ok(frame) =>
        st.currFrame := Some(frame);
        return None;
      case Err(e) =>
        return Some(e);
    }

    /** Recompute Mila's safety buffer; reassign it and log the new status only when it flips. */
    method RefreshSafetyBuffer(now: real)
      requires Valid()
      modifies st`safetyBufferActive, sinks`bufferLog
      ensures Valid()
      ensures st.safetyBufferActive == BufferStatus(st.lastMilaEndTime, now, cfg.safetyBuffer)
      ensures sinks.bufferLog == old(sinks.bufferLog) +
                (if st.safetyBufferActive != old(st.safetyBufferActive) then [st.safetyBufferActive] else [])
    {
      var newSafetyBufferStatus := st.lastMilaEndTime.Some? && now - st.lastMilaEndTime.value < cfg.safetyBuffer;
      if newSafetyBufferStatus != st.safetyBufferActive {
        st.safetyBufferActive := newSafetyBufferStatus;
        sinks.bufferLog := sinks.bufferLog + [st.safetyBufferActive];
      }
    }

    /** Run evaluate_frames and read the class and its confidence out of the result. */
    method Evaluate(camera: seq<Frame>, preds: seq<seq<real>>)
      returns (dog: string, confidence: real, scores: map<string, real>)
      requires Valid() && st.currFrame.Some?
      requires cfg.verifyTimes <= |preds| && Shaped(preds, |cfg.classLabels|) && cfg.verifyTimes <= |camera| + 1
      modifies st`currFrame
      ensures Valid()
      ensures st.currFrame == Some(EvaluatedFrame(cfg, camera, preds, old(st.currFrame).value))
      ensures var r := Evaluation(cfg.classLabels, preds, cfg.verifyTimes);
              r.cls == Some(dog) && r.scores == scores && dog in scores
      ensures confidence == scores[dog]
    {
      var cls, confidenceScores := EvaluateFrames(st, cfg, camera, preds);
      ghost var r := Evaluation(cfg.classLabels, preds, cfg.verifyTimes);
      dog, scores := cls.value, confidenceScores;
      confidence := scores[dog];
    }

    /** The accepted-result branch: register the detection, run the rules that only see accepted
        results, and add the frame to the buzz event when Nova was registered. */
    method Register(now: real, dog: string, scores: map<string, real>, ghost bufferActive: bool)
      returns (detectionResult: string, tests: seq<Finding>)
      requires Valid() && st.currFrame.Some? && bufferActive == st.safetyBufferActive
      modifies st`lastMilaEndTime, st`currentBuzzEvent, st`currentVisit
      modifies sinks`reports, sinks`buzzLog, sinks`pinWrites
      ensures Valid()
      ensures detectionResult == DetectionResult(dog, bufferActive)
      ensures tests == RapidSwitchingTest(cfg, dog, now, lastDetectedTime, lastDetectedDog)
                       + MixedConfidenceTest(cfg, dog, scores)
                       + (if detectionResult == SUPPRESSION_CHECK then [NovaSuppressed] else [])
      ensures st.lastMilaEndTime == (if dog == MILA then Some(now) else old(st.lastMilaEndTime))
      ensures st.currentVisit == VisitAfterDetection(old(st.currentVisit), dog, bufferActive, now)
      ensures sinks.reports == old(sinks.reports) + ReportsOfDetection(old(st.currentVisit), dog, bufferActive)
      ensures Buzz() == BuzzerAfterDetection(cfg, old(Buzz()), dog, bufferActive, st.gpio, st.currFrame.value, scores, now)
    {
      detectionResult := RegisterDetection(st, sinks, cfg, dog, now);

      // Tests
      tests := RapidSwitchingTest(cfg, dog, now, lastDetectedTime, lastDetectedDog);
      tests := tests + MixedConfidenceTest(cfg, dog, scores);
      if detectionResult == SUPPRESSION_CHECK {
        tests := tests + [NovaSuppressed];
      }

      // Buzz event handling
      if detectionResult == NOVA_REGISTERED {
        AddFrameToBuzzEvent(st, st.currFrame.value, scores);
      }
    }

    /** The gate of the motion branch: register a confident result that names a dog and run the rules
        that only see accepted results, or turn the buzzer off for a confident None. */
    method React(now: real, dog: string, confidence: real, scores: map<string, real>, ghost bufferActive: bool)
      returns (detection: Option<string>, tests: seq<Finding>)
      requires Valid() && st.currFrame.Some? && bufferActive == st.safetyBufferActive
      modifies st`lastMilaEndTime, st`currentBuzzEvent, st`currentVisit
      modifies sinks`reports, sinks`buzzLog, sinks`pinWrites
      ensures Valid()
      ensures detection.Some? <==> Accepted(cfg, dog, confidence)
      ensures detection.Some? ==> detection.value == DetectionResult(dog, bufferActive)
      ensures tests == if detection.None? then []
                       else RapidSwitchingTest(cfg, dog, now, lastDetectedTime, lastDetectedDog)
                            + MixedConfidenceTest(cfg, dog, scores)
                            + (if detection.value == SUPPRESSION_CHECK then [NovaSuppressed] else [])
      ensures st.lastMilaEndTime == (if detection.Some? && dog == MILA then Some(now) else old(st.lastMilaEndTime))
      ensures st.currentVisit == (if detection.Some?
                                  then VisitAfterDetection(old(st.currentVisit), dog, bufferActive, now)
                                  else old(st.currentVisit))
      ensures sinks.reports == old(sinks.reports) +
                (if detection.Some? then ReportsOfDetection(old(st.currentVisit), dog, bufferActive) else [])
      ensures Buzz() == BuzzerAfterResponse(cfg, old(Buzz()), dog, confidence, detection, bufferActive, st.gpio,
                                            st.currFrame.value, scores, now)
    {
      detection, tests := None, [];

      // Continue processing if confidence is above threshold for a dog
      if confidence >= cfg.confidenceThreshold && dog != NONE_LABEL {
        var detectionResult;
        detectionResult, tests := Register(now, dog, scores, bufferActive);
        detection := Some(detectionResult);
      } else if confidence >= cfg.confidenceThreshold && dog == NONE_LABEL {
        ControlVibration(st, sinks, cfg, Off, now);
      }
    }

    /** The rest of the motion branch: gate the result, register it, collect the findings and save a
        test case for them. */
    method Respond(now: real, dog: string, confidence: real, scores: map<string, real>,
                    ghost bufferActive: bool)
      returns (detection: Option<string>, findings: seq<Finding>)
      requires Valid() && st.currFrame.Some? && bufferActive == st.safetyBufferActive
      modifies st`lastMilaEndTime, st`currentBuzzEvent, st`currentVisit
      modifies sinks`reports, sinks`buzzLog, sinks`pinWrites, sinks`testsLog
      ensures Valid()
      ensures detection.Some? <==> Accepted(cfg, dog, confidence)
      ensures detection.Some? ==> detection.value == DetectionResult(dog, bufferActive)
      ensures findings == Findings(cfg, dog, confidence, scores, now, lastDetectedTime, lastDetectedDog, detection)
      ensures sinks.testsLog == old(sinks.testsLog) +
                (if findings == [] then [] else [TestCase(st.currFrame.value, now, scores, findings, dog)])
      ensures st.lastMilaEndTime == (if detection.Some? && dog == MILA then Some(now) else old(st.lastMilaEndTime))
      ensures st.currentVisit == (if detection.Some?
                                  then VisitAfterDetection(old(st.currentVisit), dog, bufferActive, now)
                                  else old(st.currentVisit))
      ensures sinks.reports == old(sinks.reports) +
                (if detection.Some? then ReportsOfDetection(old(st.currentVisit), dog, bufferActive) else [])
      ensures Buzz() == BuzzerAfterResponse(cfg, old(Buzz()), dog, confidence, detection, bufferActive, st.gpio,
                                            st.currFrame.value, scores, now)
    {
      // Set up test cases
      var triggeredTests := LowConfidenceTest(cfg, confidence);
      var tests;
      detection, tests := React(now, dog, confidence, scores, bufferActive);
      triggeredTests := triggeredTests + tests;
      FindingsInOrder(cfg, dog, confidence, scores, now, lastDetectedTime, lastDetectedDog, detection);

      // Save frame if any test case is triggered
      if triggeredTests != [] {
        SaveTestCase(sinks, st.currFrame.value, triggeredTests, scores, now, dog);
      }
      findings := triggeredTests;
    }

    /** The motion branch once the frames are evaluated: gate, register, collect the findings and save a
        test case for them. */
    method MotionStep(now: real, verdict: Verdict, ghost bufferActive: bool) returns (outcome: TickOutcome)
      requires Valid() && st.currFrame.Some? && bufferActive == st.safetyBufferActive
      modifies st`lastMilaEndTime, st`currentBuzzEvent, st`currentVisit
      modifies sinks`reports, sinks`buzzLog, sinks`pinWrites, sinks`testsLog
      ensures Valid()
      ensures outcome.Motion? && outcome.dog == verdict.dog
      ensures outcome.confidence == verdict.confidence && outcome.scores == verdict.scores
      ensures RespondedOutcome(cfg, now, lastDetectedTime, bufferActive, outcome)
      ensures sinks.testsLog == old(sinks.testsLog) + TestsOfTick(outcome, st.currFrame.value, now)
      ensures st.lastMilaEndTime == (if Registered(outcome) && outcome.dog == MILA then Some(now)
                                     else old(st.lastMilaEndTime))
      ensures st.currentVisit == VisitAfterMotion(old(st.currentVisit), outcome, bufferActive, now)
      ensures sinks.reports == old(sinks.reports) + ReportsOfMotion(old(st.currentVisit), outcome, bufferActive)
      ensures Buzz() == BuzzerAfterMotion(cfg, old(Buzz()), outcome, bufferActive, st.gpio, st.currFrame.value, now)
    {
      var dog, confidence, scores := verdict.dog, verdict.confidence, verdict.scores;
      var detection, findings := Respond(now, dog, confidence, scores, bufferActive);
      RapidSwitchingNeverFlagged(cfg, dog, confidence, scores, now, lastDetectedTime, detection);
      if detection.Some? {
        SuppressionNeverFlagged(cfg, dog, confidence, scores, now, lastDetectedTime, None, bufferActive);
      }
      outcome := Motion(dog, confidence, scores, detection, findings);
    }

    /** The end of a pass: the two timeout checks (no motion for DETECTION_TIMEOUT seconds turns the
        buzzer off, and an expired visit is finalized), then the current frame becomes the previous one. */
    method Finish(now: real)
      requires Valid()
      modifies st`currentBuzzEvent, st`currentVisit, st`prevFrame, sinks`reports, sinks`buzzLog, sinks`pinWrites
      ensures Valid()
      ensures st.prevFrame == st.currFrame
      ensures st.currentVisit == AfterTimeout(old(st.currentVisit), now, cfg.visitTimeout)
      ensures sinks.reports == old(sinks.reports) + TimeoutReports(old(st.currentVisit), now, cfg.visitTimeout)
      ensures Buzz() == BuzzerAfterIdle(cfg, old(Buzz()), now - lastMotionTime > cfg.detectionTimeout,
                                        st.safetyBufferActive, st.gpio, now)
    {
      // Turn the buzzer off if no motion for DETECTION_TIMEOUT seconds
      if now - lastMotionTime > cfg.detectionTimeout {
        ControlVibration(st, sinks, cfg, Off, now);
      }

      // Finalize visit if VISIT_TIMEOUT seconds have passed since last registered
      if st.currentVisit.dog.Some? && now - st.currentVisit.endTime.value > cfg.visitTimeout {
        FinalizeVisit(st, sinks);
      }

      st.prevFrame := st.currFrame;  // Update the previous frame
    }

    /** The start of a pass: capture the next frame, then recompute Mila's safety buffer. */
    method Prepare(now: real, captured: Frame) returns (stopped: Option<SimulationError>)
      requires Valid()
      modifies st`currFrame, st`currentImageIndex, st`safetyBufferActive, sinks`bufferLog
      ensures Valid()
      ensures stopped.Some? <==> st.useDummyImages && |st.activeImages| <= old(st.currentImageIndex)
      ensures stopped.Some? ==> unchanged(st) && unchanged(sinks)
      ensures stopped.None? ==>
                && st.currFrame == Some(CapturedFrame(st.useDummyImages, st.activeImages, old(st.currentImageIndex), captured))
                && st.currentImageIndex == CursorAfterCapture(st.useDummyImages, st.activeImages, old(st.currentImageIndex))
                && st.safetyBufferActive == BufferStatus(st.lastMilaEndTime, now, cfg.safetyBuffer)
                && sinks.bufferLog == old(sinks.bufferLog) +
                     (if st.safetyBufferActive != old(st.safetyBufferActive) then [st.safetyBufferActive] else [])
    {
      // Capture the next frame
      stopped := Capture(captured);
      if stopped.Some? {
        return;
      }

      // Evaluate and flip Mila's safety buffer status if needed
      RefreshSafetyBuffer(now);
    }

    /** The `if detect_motion(...)` branch after the frames are evaluated (`verdict` is None without
        motion): the motion step, and then the new `last_motion_time`. */
    method MotionBranch(now: real, verdict: Option<Verdict>, ghost bufferActive: bool) returns (outcome: TickOutcome)
      requires Valid() && st.currFrame.Some? && bufferActive == st.safetyBufferActive
      modifies st`lastMilaEndTime, st`currentBuzzEvent, st`currentVisit
      modifies sinks`reports, sinks`buzzLog, sinks`pinWrites, sinks`testsLog, this`lastMotionTime
      ensures Valid()
      ensures outcome.NoMotion? <==> verdict.None?
      ensures !outcome.Stopped?
      ensures outcome.Motion? ==>
                && outcome.dog == verdict.value.dog && outcome.confidence == verdict.value.confidence
                && outcome.scores == verdict.value.scores
                && RespondedOutcome(cfg, now, lastDetectedTime, bufferActive, outcome)
      ensures lastMotionTime == (if verdict.Some? then now else old(lastMotionTime))
      ensures sinks.testsLog == old(sinks.testsLog) + TestsOfTick(outcome, st.currFrame.value, now)
      ensures st.lastMilaEndTime == (if Registered(outcome) && outcome.dog == MILA then Some(now) else old(st.lastMilaEndTime))
      ensures st.currentVisit == VisitAfterMotion(old(st.currentVisit), outcome, bufferActive, now)
      ensures sinks.reports == old(sinks.reports) + ReportsOfMotion(old(st.currentVisit), outcome, bufferActive)
      ensures Buzz() == BuzzerAfterMotion(cfg, old(Buzz()), outcome, bufferActive, st.gpio, st.currFrame.value, now)
    {
      if verdict.Some? {
        outcome := MotionStep(now, verdict.value, bufferActive);

        // Update the last motion time
        lastMotionTime := now;
      } else {
        outcome := NoMotion;
      }
    }

    /** The rest of a pass once the frames are evaluated: the motion branch, the timeout checks and the
        frame hand-over. */
    method Advance(now: real, verdict: Option<Verdict>, ghost bufferActive: bool) returns (outcome: TickOutcome)
      requires Valid() && st.currFrame.Some? && bufferActive == st.safetyBufferActive
      modifies st`prevFrame, st`lastMilaEndTime, st`currentBuzzEvent, st`currentVisit
      modifies sinks`reports, sinks`buzzLog, sinks`pinWrites, sinks`testsLog, this`lastMotionTime
      ensures Valid()
      ensures outcome.NoMotion? <==> verdict.None?
      ensures !outcome.Stopped?
      ensures outcome.Motion? ==>
                && outcome.dog == verdict.value.dog && outcome.confidence == verdict.value.confidence
                && outcome.scores == verdict.value.scores
                && RespondedOutcome(cfg, now, lastDetectedTime, bufferActive, outcome)
      ensures lastMotionTime == (if verdict.Some? then now else old(lastMotionTime))
      ensures st.prevFrame == st.currFrame
      ensures sinks.testsLog == old(sinks.testsLog) + TestsOfTick(outcome, st.currFrame.value, now)
      ensures st.lastMilaEndTime == (if Registered(outcome) && outcome.dog == MILA then Some(now) else old(st.lastMilaEndTime))
      ensures st.currentVisit == VisitAfterTick(old(st.currentVisit), outcome, bufferActive, now, cfg.visitTimeout)
      ensures sinks.reports == old(sinks.reports)
                + ReportsOfMotion(old(st.currentVisit), outcome, bufferActive)
                + TimeoutReports(VisitAfterMotion(old(st.currentVisit), outcome, bufferActive, now), now, cfg.visitTimeout)
      ensures Buzz() == BuzzerAfterTick(cfg, old(Buzz()), outcome, bufferActive, st.gpio, st.currFrame.value,
                                        now - lastMotionTime > cfg.detectionTimeout, now)
    {
      outcome := MotionBranch(now, verdict, bufferActive);
      ghost var tests, mila, buzz := sinks.testsLog, st.lastMilaEndTime, Buzz();
      Finish(now);
      assert sinks.testsLog == tests && st.lastMilaEndTime == mila;
      assert Buzz() == BuzzerAfterIdle(cfg, buzz, now - lastMotionTime > cfg.detectionTimeout, bufferActive, st.gpio, now);
    }

    /** The loop body after a successful capture: evaluate the frames on motion, then the motion
        branch and the timeout checks. */
    method Proceed(now: real, motion: bool, camera: seq<Frame>, preds: seq<seq<real>>) returns (outcome: TickOutcome)
      requires Valid() && st.currFrame.Some?
      requires cfg.verifyTimes <= |preds| && Shaped(preds, |cfg.classLabels|) && cfg.verifyTimes <= |camera| + 1
      modifies st`currFrame, st`prevFrame, st`lastMilaEndTime, st`currentBuzzEvent, st`currentVisit
      modifies sinks`reports, sinks`buzzLog, sinks`pinWrites, sinks`testsLog, this`lastMotionTime
      ensures Valid()
      ensures st.currFrame == if motion then Some(EvaluatedFrame(cfg, camera, preds, old(st.currFrame).value))
                              else old(st.currFrame)
      ensures !outcome.Stopped? && (outcome.NoMotion? <==> !motion)
      ensures lastMotionTime == (if motion then now else old(lastMotionTime))
      ensures st.prevFrame == st.currFrame
      ensures sinks.testsLog == old(sinks.testsLog) + TestsOfTick(outcome, st.currFrame.value, now)
      ensures st.lastMilaEndTime == (if Registered(outcome) && outcome.dog == MILA then Some(now) else old(st.lastMilaEndTime))
      ensures st.currentVisit == VisitAfterTick(old(st.currentVisit), outcome, st.safetyBufferActive, now, cfg.visitTimeout)
      ensures sinks.reports == old(sinks.reports)
                + ReportsOfMotion(old(st.currentVisit), outcome, st.safetyBufferActive)
                + TimeoutReports(VisitAfterMotion(old(st.currentVisit), outcome, st.safetyBufferActive, now),
                                 now, cfg.visitTimeout)
      ensures Buzz() == BuzzerAfterTick(cfg, old(Buzz()), outcome, st.safetyBufferActive, st.gpio, st.currFrame.value,
                                        now - lastMotionTime > cfg.detectionTimeout, now)
      ensures outcome.Motion? ==> MotionOutcome(cfg, preds, now, lastDetectedTime, st.safetyBufferActive, outcome)
    {
      // Check for motion before running inference
      var verdict := None;
      if motion {
        var dog, confidence, scores := Evaluate(camera, preds);
        verdict := Some(Verdict(dog, confidence, scores));
      }
      ghost var bufferActive := st.safetyBufferActive;
      ghost var frame := st.currFrame;
      outcome := Advance(now, verdict, bufferActive);
      assert st.safetyBufferActive == bufferActive && st.currFrame == frame;
    }

    /** One pass of the loop. */
    method Tick(now: real, captured: Frame, motion: bool, camera: seq<Frame>, preds: seq<seq<real>>)
      returns (outcome: TickOutcome)
      requires Valid()
      requires cfg.verifyTimes <= |preds| && Shaped(preds, |cfg.classLabels|) && cfg.verifyTimes <= |camera| + 1
      modifies st`currFrame, st`prevFrame, st`currentImageIndex, st`safetyBufferActive
      modifies st`lastMilaEndTime, st`currentBuzzEvent, st`currentVisit
      modifies sinks`reports, sinks`buzzLog, sinks`pinWrites, sinks`testsLog, sinks`bufferLog, this`lastMotionTime
      ensures Valid()
      // A failed simulated capture ends the loop before anything else happens
      ensures outcome.Stopped? <==> st.useDummyImages && |st.activeImages| <= old(st.currentImageIndex)
      ensures outcome.Stopped? ==> unchanged(st) && unchanged(sinks) && lastMotionTime == old(lastMotionTime)
      ensures !outcome.Stopped? ==>
                // The captured frame, replaced on motion by the last frame evaluate_frames read
                && var c := CapturedFrame(st.useDummyImages, st.activeImages, old(st.currentImageIndex), captured);
                && st.currFrame == Some(if motion then EvaluatedFrame(cfg, camera, preds, c) else c)
                && st.currentImageIndex == CursorAfterCapture(st.useDummyImages, st.activeImages, old(st.currentImageIndex))
                && (outcome.NoMotion? <==> !motion)
                // Mila's buffer is recomputed, and reassigned and logged only when it flips
                && st.safetyBufferActive == BufferStatus(old(st.lastMilaEndTime), now, cfg.safetyBuffer)
                && sinks.bufferLog == old(sinks.bufferLog) +
                     (if st.safetyBufferActive != old(st.safetyBufferActive) then [st.safetyBufferActive] else [])
                && lastMotionTime == (if motion then now else old(lastMotionTime))
                && st.prevFrame == st.currFrame
                // A test case is saved exactly for a motion result with findings
                && sinks.testsLog == old(sinks.testsLog) + TestsOfTick(outcome, st.currFrame.value, now)
                // register_detection runs only for an accepted result; then the visit-timeout check
                && st.lastMilaEndTime == (if Registered(outcome) && outcome.dog == MILA then Some(now)
                                          else old(st.lastMilaEndTime))
                && st.currentVisit == VisitAfterTick(old(st.currentVisit), outcome, st.safetyBufferActive, now, cfg.visitTimeout)
                && sinks.reports == old(sinks.reports)
                     + ReportsOfMotion(old(st.currentVisit), outcome, st.safetyBufferActive)
                     + TimeoutReports(VisitAfterMotion(old(st.currentVisit), outcome, st.safetyBufferActive, now),
                                      now, cfg.visitTimeout)
                // The buzz event, buzzers.json and the pin: the motion branch, then the detection timeout
                && Buzz() == BuzzerAfterTick(cfg, old(Buzz()), outcome, st.safetyBufferActive, st.gpio, st.currFrame.value,
                                             now - lastMotionTime > cfg.detectionTimeout, now)
      // The motion branch: the evaluation, the gate and the findings
      ensures outcome.Motion? ==> MotionOutcome(cfg, preds, now, lastDetectedTime, st.safetyBufferActive, outcome)
    {
      var stopped := Prepare(now, captured);
      if stopped.Some? {
        return Stopped(stopped.value);
      }
      outcome := Proceed(now, motion, camera, preds);
    }
  }
}
