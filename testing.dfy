/** pi/src/modules/testing.py: the diagnostic rules, the buzz-event bookkeeping, the tests log and
    the simulated-image cursor. */
module Testing {
  import opened Wrappers
  import opened Config
  import opened Records
  import opened State

  // ---------------------------------------------------------------- diagnostic rules

  /** test1_rapid_switching: a known previous dog, a different current dog, and little time between them. */
  function RapidSwitchingTest(cfg: Settings, dog: string, currentTime: real,
                              lastDetectedTime: real, lastDetectedDog: Option<string>): (r: seq<Finding>)
    ensures r == [] || r == [RapidSwitching]
    ensures r != [] <==>
              && Truthy(lastDetectedDog)
              && dog != lastDetectedDog.value
              && currentTime - lastDetectedTime <= cfg.switchDetectionTime
  {
    if Truthy(lastDetectedDog) && dog != lastDetectedDog.value
       && currentTime - lastDetectedTime <= cfg.switchDetectionTime
    then [RapidSwitching]
    else []
  }

  /** test2_low_confidence: the top score lies strictly inside the 20-point band below the threshold. */
  function LowConfidenceTest(cfg: Settings, confidence: real): (r: seq<Finding>)
    ensures r == [] || r == [LowConfidence(confidence)]
    ensures r != [] <==>
              cfg.lowConfidenceThreshold - 20.0 < confidence < cfg.lowConfidenceThreshold
  {
    if confidence < cfg.lowConfidenceThreshold && confidence > cfg.lowConfidenceThreshold - 20.0
    then [LowConfidence(confidence)]
    else []
  }

  /** test3_mixed_confidence: some label other than the winner scores above the secondary threshold. */
  function MixedConfidenceTest(cfg: Settings, dog: string, confidenceValues: map<string, real>): (r: seq<Finding>)
    ensures r == [] || r == [MixedConfidence]
    ensures r != [] <==>
              exists k :: k in confidenceValues && k != dog
                          && confidenceValues[k] > cfg.secondThirdConfidenceThreshold
  {
    var otherConfidences := set k | k in confidenceValues && k != dog :: confidenceValues[k];
    assert forall k :: k in confidenceValues && k != dog ==> confidenceValues[k] in otherConfidences;
    if exists c :: c in otherConfidences && c > cfg.secondThirdConfidenceThreshold
    then [MixedConfidence]
    else []
  }

  /** The winner's own score never decides the mixed-confidence rule. */
  lemma MixedConfidenceIgnoresWinner(cfg: Settings, dog: string, confidenceValues: map<string, real>, x: real)
    ensures MixedConfidenceTest(cfg, dog, confidenceValues[dog := x])
         == MixedConfidenceTest(cfg, dog, confidenceValues)
  {
    var m' := confidenceValues[dog := x];
    if MixedConfidenceTest(cfg, dog, confidenceValues) != [] {
      var k :| k in confidenceValues && k != dog && confidenceValues[k] > cfg.secondThirdConfidenceThreshold;
      assert k in m' && m'[k] == confidenceValues[k];
    }
    if MixedConfidenceTest(cfg, dog, m') != [] {
      var k :| k in m' && k != dog && m'[k] > cfg.secondThirdConfidenceThreshold;
      assert k in confidenceValues && m'[k] == confidenceValues[k];
    }
  }

  // ---------------------------------------------------------------- buzz events

  /** `d.get(key, default)`. */
  function Get(m: map<string, real>, key: string, default: real): real {
    if key in m then m[key] else default
  }

  /** The confidence values stored with a buzz frame: exactly Mila, Nova and None, missing ones as 0.0. */
  function BuzzFrameScores(confidenceValues: map<string, real>): (r: map<string, real>)
    ensures r.Keys == {MILA, NOVA, NONE_LABEL}
    ensures forall k :: k in r ==> r[k] == (if k in confidenceValues then confidenceValues[k] else 0.0)
  {
    map[MILA := Get(confidenceValues, MILA, 0.0),
        NOVA := Get(confidenceValues, NOVA, 0.0),
        NONE_LABEL := Get(confidenceValues, NONE_LABEL, 0.0)]
  }

  /** start_buzz_event: a fresh open event replaces whatever was there. */
  method StartBuzzEvent(st: AppState, now: real)
    requires st.Valid()
    modifies st`currentBuzzEvent
    ensures st.Valid()
    ensures st.currentBuzzEvent == Some(BuzzEvent(now, None, []))
  {
    st.currentBuzzEvent := Some(BuzzEvent(now, None, []));
  }

  /** end_buzz_event: stamps the open event's end, appends it to buzzers.json and clears it. */
  method EndBuzzEvent(st: AppState, sinks: Sinks, now: real)
    requires st.Valid()
    modifies st`currentBuzzEvent, sinks`buzzLog
    ensures st.Valid()
    ensures st.currentBuzzEvent == None
    ensures sinks.buzzLog == old(sinks.buzzLog) +
              (if old(st.currentBuzzEvent).Some?
               then [old(st.currentBuzzEvent).value.(endTime := Some(now))]
               else [])
  {
    if st.currentBuzzEvent.None? {
      return;
    }
    var event := st.currentBuzzEvent.value.(endTime := Some(now));
    sinks.buzzLog := sinks.buzzLog + [event];
    st.currentBuzzEvent := None;
  }

  /** The buzz event after add_frame_to_buzz_event: with one more frame and its three scores, if one is open. */
  function WithFrame(event: Option<BuzzEvent>, frame: Frame, confidenceValues: map<string, real>): Option<BuzzEvent> {
    if event.None? then None
    else Some(event.value.(frames := event.value.frames + [BuzzFrame(frame, BuzzFrameScores(confidenceValues))]))
  }

  /** add_frame_to_buzz_event: appends one frame to the open event, if there is one. */
  method AddFrameToBuzzEvent(st: AppState, frame: Frame, confidenceValues: map<string, real>)
    requires st.Valid()
    modifies st`currentBuzzEvent
    ensures st.Valid()
    ensures old(st.currentBuzzEvent).None? ==> st.currentBuzzEvent == None
    ensures old(st.currentBuzzEvent).Some? ==>
              var e := old(st.currentBuzzEvent).value;
              st.currentBuzzEvent == Some(e.(frames := e.frames + [BuzzFrame(frame, BuzzFrameScores(confidenceValues))]))
  {
    if st.currentBuzzEvent.None? {
      return;
    }
    var e := st.currentBuzzEvent.value;
    st.currentBuzzEvent := Some(e.(frames := e.frames + [BuzzFrame(frame, BuzzFrameScores(confidenceValues))]));
  }

  // ---------------------------------------------------------------- tests log

  /** save_test_case: appends one record to tests.json (the image file itself is not modelled). */
  method SaveTestCase(sinks: Sinks, frame: Frame, triggeredTests: seq<Finding>,
                      confidenceValues: map<string, real>, timestamp: real, dog: string)
    modifies sinks`testsLog
    ensures sinks.testsLog == old(sinks.testsLog) + [TestCase(frame, timestamp, confidenceValues, triggeredTests, dog)]
  {
    var testData := TestCase(frame, timestamp, confidenceValues, triggeredTests, dog);
    sinks.testsLog := sinks.testsLog + [testData];
  }

  // ---------------------------------------------------------------- simulated images

  datatype SimulationError =
    | NoActiveImages    // the ValueError raised on an empty list
    | IndexOutOfRange   // the IndexError of indexing past the end of the list

  /** The cursor after one image has been taken from a list of `n` images. */
  function NextIndex(i: nat, n: nat): (r: nat)
    requires n > 0
    ensures r < n
    ensures i < n ==> r == if i + 1 == n then 0 else i + 1
  {
    (i + 1) % n
  }

  /** The cursor after `k` images have been taken, starting at `i`. */
  function IndexAfter(i: nat, n: nat, k: nat): nat
    requires n > 0
  {
    if k == 0 then i else NextIndex(IndexAfter(i, n, k - 1), n)
  }

  /** From the first image, the first n images are taken in list order. */
  lemma {:induction false} IndexAfterFromStart(n: nat, k: nat)
    requires k < n
    ensures IndexAfter(0, n, k) == k
  {
    if k > 0 {
      IndexAfterFromStart(n, k - 1);
    }
  }

  lemma {:induction false} IndexAfterCompose(i: nat, n: nat, a: nat, b: nat)
    requires n > 0
    ensures IndexAfter(i, n, a + b) == IndexAfter(IndexAfter(i, n, a), n, b)
  {
    if b > 0 {
      IndexAfterCompose(i, n, a, b - 1);
    }
  }

  /** After the last image the cursor is back at the first: taking n more images changes nothing. */
  lemma IndexAfterCycles(n: nat, k: nat)
    requires n > 0
    ensures IndexAfter(0, n, n) == 0
    ensures IndexAfter(0, n, k + n) == IndexAfter(0, n, k)
  {
    IndexAfterFromStart(n, n - 1);
    assert IndexAfter(0, n, n) == NextIndex(n - 1, n);
    IndexAfterCompose(0, n, n, k);
  }

  /** get_simulated_image: the image under the cursor, then the cursor moves on, wrapping to the start. */
  method GetSimulatedImage(st: AppState) returns (r: Result<Frame, SimulationError>)
    modifies st`currentImageIndex
    ensures old(|st.activeImages|) == 0 ==> r == Err(NoActiveImages) && st.currentImageIndex == old(st.currentImageIndex)
    ensures 0 < |st.activeImages| <= old(st.currentImageIndex) ==>
              r == Err(IndexOutOfRange) && st.currentImageIndex == old(st.currentImageIndex)
    ensures old(st.currentImageIndex) < |st.activeImages| ==>
              && r == Ok(st.activeImages[old(st.currentImageIndex)])
              && st.currentImageIndex == NextIndex(old(st.currentImageIndex), |st.activeImages|)
  {
    if |st.activeImages| == 0 {
      return Err(NoActiveImages);
    }
    if st.currentImageIndex >= |st.activeImages| {
      return Err(IndexOutOfRange);
    }
    var image := st.activeImages[st.currentImageIndex];
    st.currentImageIndex := NextIndex(st.currentImageIndex, |st.activeImages|);
    return Ok(image);
  }
}
