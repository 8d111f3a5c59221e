# ninas: the detection-to-visit controller, modelled in Dafny

ninas watches a camera over a food bowl shared by two dogs, Mila and Nova. It classifies frames when
there is motion, and turns that noisy stream into visits reported to a remote sink. While Nova is
registered it buzzes a vibration motor, unless Mila was seen less than SAFETY_BUFFER seconds ago.
This project models the controller on the Raspberry Pi, module by module:

- `config.dfy` (`Config`): the settings of `pi/src/config.py` as one `Settings` value, with the shipped values in `DEFAULT`.
- `records.dfy` (`Records`): the value records (visit slot, visit report, buzz event, buzz frame, finding, test case).
- `state.dfy` (`State`): the mutable singleton `AppState` of `pi/src/modules/state.py`, and a `Sinks` object that records the outside world as sequences:
  - visits sent to the API;
  - `buzzers.json` and `tests.json`;
  - writes to the GPIO pin;
  - the "safety buffer is now ON/OFF" log lines.
- `visits.dfy` (`Visits`): `register_detection`, `update_visit`, `new_visit` and `finalize_visit`, as methods on that state. Pure functions state each method's effect.
- `vibration.dfy` (`Vibration`): the GPIO set-up and `control_vibration`. The buzz bookkeeping depends on the intent alone; the pin write is guarded by GPIO presence, the safety buffer and ENABLE_VIBRATION.
- `testing.dfy` (`Testing`): the three diagnostic rules, the buzz-event functions, `save_test_case` and `get_simulated_image`.
- `scores.dfy` (`Scores`): the first arg-max, shared by `max(d, key=d.get)` and `np.argmax`.
- `image_processing.dfy` (`ImageProcessing`): `evaluate_frames` as the imperative loop it is, proved against a reference description.
  - That description gives the top class after each sample, the point where the loop stops and the class it returns.
  - The loop's behaviour is restated as a walk over the top classes, and that walk is proved equal to the description.
- `main.dfy` (`MainLoop`): one pass of `main()`'s `while True` loop as `Controller.Tick`, split into the steps of the pass. Its postcondition states every field the pass writes in terms of the functions above (the frames, the cursor, the buffer, the visit slot, Mila's time, the buzzer side and the logs), and its frame keeps the rest.
- `surveil.py` and `surveil_report_app.py`, the two stand-alone scripts:
  - `surveil.dfy` (`Surveil`): the older script's "every frame confident and unanimous" consistency rule, `analyze_frame`, the report's frame list and `append_to_json`.
  - `report_app.dfy` (`ReportApp`): the relative-time bucketing of the report viewer (read back through `Text.SplitInt`) and `load_reports`.
- `text.dfy` (`Text`): Python's `int(x)` on a float, integer rendering as in an f-string, and reading an integer back.

Times are seconds as `real`; scores are `real`. One clock reading `now` stands for every `datetime.now()` and `time.time()` call of one loop pass.

Three behaviours of the code are modelled as written, and a lemma shows the consequence for each:

- `main.py` compares `register_detection`'s result with `"Nova suppressed"`, but the function returns `"Nova suppressed due to Mila's buffer"`.
  - The "Nova suppressed due to Mila's buffer." finding is therefore never raised (`MainLoop.SuppressionNeverFlagged`).
- `last_detected_dog` and `last_detected_time` are set once before the loop and never reassigned.
  - The rapid-switching rule never fires from `main` (`MainLoop.RapidSwitchingNeverFlagged`).
- A suppressed Nova detection changes nothing at all (`Visits.RegisterDetection`): an open Mila visit is neither finalized nor reported then.
  - Only a registered detection reaches `update_visit`, so Mila's open visit survives a suppressed Nova detection. A later Mila registration extends it (the same-dog branch of `update_visit`); only the visit timeout or a registered Nova detection reports it.

## Model

| member | source | states |
|---|---|---|
| `State.AppState.constructor` | pi/src/modules/state.py:1-26 | The singleton starts with no frames, no simulated images and cursor 0. It also starts with no buzz event, no Mila time, the buffer off, the empty visit slot and no GPIO. |
| `State.Sinks.constructor` | pi/src/modules/testing.py:12-14 | Both logs start from what `buzzers.json` and `tests.json` hold. Nothing has been reported, written to the pin or logged about the buffer. |
| `Visits.Reported` | pi/src/modules/visits.py:55-68 | The finalizer reports at most one visit: exactly the open one with its dog, start and end, and nothing when the slot is empty. |
| `Visits.Updated` | pi/src/modules/visits.py:36-53 | After `update_visit(dog)` a well-formed visit of `dog` is open and ends now. It keeps its start if the same dog was already in the slot and starts now otherwise. |
| `Visits.Displaced` | pi/src/modules/visits.py:36-44 | `update_visit` reports nothing when the same dog returns, and otherwise finalizes the slot's visit. |
| `Visits.DetectionResult` | pi/src/modules/visits.py:8-33 | The four result strings: Mila registers always, Nova only outside the buffer, Nova inside the buffer is suppressed. Anything else is "No detection". |
| `Visits.VisitAfterDetection` | pi/src/modules/visits.py:8-33 | A registering detection leaves an open visit of that dog ending now; any other result leaves the slot untouched. |
| `Visits.ReportsOfDetection` | pi/src/modules/visits.py:8-44 | A detection reports a visit exactly when it registers while another dog's visit is open. |
| `Visits.UpdatedKeepsOrder` | pi/src/modules/visits.py:36-53 | With a clock that does not run backwards, an update keeps start ≤ end and never moves a continuing visit's end earlier. |
| `Visits.FinalizeIdempotent` | pi/src/modules/visits.py:55-68 | Finalizing the emptied slot again reports nothing more. |
| `Visits.FinalizeVisit` | pi/src/modules/visits.py:55-68 | The open visit, if any, is appended to the reporting sink, and the slot becomes all-None. |
| `Visits.NewVisit` | pi/src/modules/visits.py:46-53 | The slot holds a visit of `dog` that starts and ends now. |
| `Visits.UpdateVisit` | pi/src/modules/visits.py:36-44 | The new slot is `Updated(old slot)` and the sink gains `Displaced(old slot)`. |
| `Visits.RegisterDetection` | pi/src/modules/visits.py:8-33 | Mila: records her time, sends "off", updates the visit. Nova outside the buffer: sends "on", updates the visit. Nova inside the buffer and any other label: no state, log or pin changes. |
| `Vibration.BuzzAfter` | pi/src/modules/vibration.py:22-28 | After "on" a buzz event is open: the existing one, or a fresh one started now with no frames. After "off" none is open. |
| `Vibration.BuzzClosed` | pi/src/modules/vibration.py:26-28 | Only an "off" that closes an open event appends to `buzzers.json`: that event, stamped with its end. |
| `Vibration.PinWrite` | pi/src/modules/vibration.py:30-49 | A pin write happens exactly when GPIO is present and the buffer is off. It is HIGH for "on" and only with ENABLE_VIBRATION, LOW for "off" regardless of it. |
| `Vibration.SetUpGpio` | pi/src/modules/vibration.py:6-16 | With the GPIO library the pin is set up and driven LOW; without it GPIO stays absent and nothing is written. |
| `Vibration.ControlVibration` | pi/src/modules/vibration.py:19-49 | The buzz event, `buzzers.json` and the pin change as `BuzzAfter`, `BuzzClosed` and `PinWrite` say. |
| `Testing.RapidSwitchingTest` | pi/src/modules/testing.py:45-51 | A rapid-switching finding exactly when a truthy previous dog differs from the current one within SWITCH_DETECTION_TIME seconds. |
| `Testing.LowConfidenceTest` | pi/src/modules/testing.py:53-59 | A low-confidence finding, carrying the confidence, exactly when the confidence lies strictly inside the 20-point band below LOW_CONFIDENCE_THRESHOLD. |
| `Testing.MixedConfidenceTest` | pi/src/modules/testing.py:61-68 | A mixed-confidence finding exactly when some label other than the winner scores above SECOND_THIRD_CONFIDENCE_THRESHOLD. |
| `Testing.MixedConfidenceIgnoresWinner` | pi/src/modules/testing.py:61-68 | Changing the winner's own score never changes the mixed-confidence rule's verdict. |
| `Testing.BuzzFrameScores` | pi/src/modules/testing.py:120-127 | A buzz frame stores exactly the keys Mila, Nova and None, each with its given score or 0.0 when missing. |
| `Testing.StartBuzzEvent` | pi/src/modules/testing.py:70-82 | The slot holds a fresh open event started now with no frames. |
| `Testing.EndBuzzEvent` | pi/src/modules/testing.py:84-102 | An open event is stamped with its end and appended to `buzzers.json`, then the slot is cleared. Without one nothing changes. |
| `Testing.AddFrameToBuzzEvent` | pi/src/modules/testing.py:104-127 | The open event gains exactly one frame at its end, with the three stored scores; without an open event nothing changes. |
| `Testing.SaveTestCase` | pi/src/modules/testing.py:16-43 | `tests.json` gains exactly one record with the frame, timestamp, scores, findings and dog. |
| `Testing.NextIndex` | pi/src/modules/testing.py:165 | The cursor stays in range and moves to the next image, wrapping from the last to the first. |
| `Testing.IndexAfterFromStart` | pi/src/modules/testing.py:155-166 | From the first image, the first n images are served in list order. |
| `Testing.IndexAfterCycles` | pi/src/modules/testing.py:158-165 | After n images the cursor is back at the start, so serving repeats with period n. |
| `Testing.GetSimulatedImage` | pi/src/modules/testing.py:155-166 | An empty list is the ValueError, a cursor past the end is the IndexError, and neither moves the cursor. Otherwise the image under the cursor is returned and the cursor advances. |
| `Scores.ArgMax` | pi/src/modules/image_processing.py:62 | A position of the scores; `ArgMaxIsFirstMax` states it is the first largest. |
| `Scores.ArgMaxIsFirstMax` | pi/src/modules/image_processing.py:62 | The chosen index holds a largest value and no earlier index holds one as large. This is `max(d, key=d.get)` over a dict in label order. |
| `ImageProcessing.Consumed` | pi/src/modules/image_processing.py:40-69 | The number of samples taken is between 1 and VERIFY_TIMES, and zero only when VERIFY_TIMES is zero. No sample before the last is unstable, and stopping early means the last one was. |
| `ImageProcessing.StabilizedClass` | pi/src/modules/image_processing.py:64-72 | The returned class is None exactly when no sample is taken, and otherwise one of the per-sample top classes. |
| `ImageProcessing.EarlyExitReturnsPrevious` | pi/src/modules/image_processing.py:64-74 | The class agrees with the returned averages exactly when there was no instability. After a break it is the previous sample's top class, while the averages already include the sample that changed it. |
| `ImageProcessing.AveragesOfIdentical` | pi/src/modules/image_processing.py:53-60 | The running averages over identical samples are that sample's scores. |
| `ImageProcessing.ConstantTops` | pi/src/modules/image_processing.py:40-69 | When every sample has the same top class, all samples are taken and that class is returned. |
| `ImageProcessing.IdenticalSamples` | pi/src/modules/image_processing.py:32-74 | With identical samples all VERIFY_TIMES samples are taken. The averages equal the sample and the class is its first arg-max label. |
| `ImageProcessing.IndexOfDistinct` | pi/src/modules/image_processing.py:37-38 | Among distinct labels, looking a label up finds its own position. |
| `ImageProcessing.ByLabelAt` | pi/src/modules/image_processing.py:37-38 | The score dictionary maps each label to the score at that label's position. |
| `ImageProcessing.WalkMatchesSpec` | pi/src/modules/image_processing.py:40-72 | The loop's step-by-step walk over the top classes gives the reference description's class and sample count. |
| `ImageProcessing.Evaluation` | pi/src/modules/image_processing.py:32-74 | The class is None exactly when VERIFY_TIMES is zero. Otherwise at least one sample is taken and the class is a label with an entry in the returned scores. |
| `ImageProcessing.EvaluationScores` | pi/src/modules/image_processing.py:57-60 | The returned dictionary has exactly the labels as keys, each mapped to its average over the samples taken. |
| `ImageProcessing.AddSample` | pi/src/modules/image_processing.py:53-62 | After one sample the sums and averages are those of one more sample, and the top class is the first arg-max label of the new averages. |
| `ImageProcessing.TakeSample` | pi/src/modules/image_processing.py:43-62 | Samples after the first read the next camera frame into `curr_frame`; then the sample is added as in `AddSample`. |
| `ImageProcessing.EvaluateFrames` | pi/src/modules/image_processing.py:32-74 | The class, the score dictionary and the final `curr_frame` are those of the walk, which `WalkMatchesSpec` ties to the reference description. |
| `MainLoop.Findings` | pi/src/main.py:54-74 | Each finding is raised exactly under its own condition: low confidence on every result; rapid switching, mixed confidence and the suppression note only on an accepted one. No other finding occurs. |
| `MainLoop.SuppressionNeverFlagged` | pi/src/main.py:73-74 | No result of `register_detection` equals the compared string, so the suppression finding never occurs. |
| `MainLoop.RapidSwitchingNeverFlagged` | pi/src/main.py:21-22 | With `last_detected_dog` left at None the rapid-switching finding never occurs. |
| `MainLoop.AfterTimeout` | pi/src/main.py:95-97 | After the visit-timeout check no open visit is older than VISIT_TIMEOUT. Exactly an expired visit is closed; anything else is kept as it was. |
| `MainLoop.TimeoutReports` | pi/src/main.py:95-97 | The check reports exactly an expired visit, and reports it as the finalizer does. |
| `MainLoop.VisitAfterTick` | pi/src/main.py:67-97 | After a pass the visit slot is well formed and holds no visit older than VISIT_TIMEOUT. |
| `MainLoop.TestsOfTick` | pi/src/main.py:83-86 | A pass saves one test case exactly when it had motion and findings, with the frame, time, scores, findings and dog. |
| `MainLoop.MotionPins` | pi/src/main.py:58-81 | In the motion branch the pin goes HIGH exactly when Nova is registered with GPIO present and vibration enabled, LOW exactly when Mila is registered or a confident None is seen with GPIO present and the buffer off, and is otherwise not written. |
| `MainLoop.MotionEvent` | pi/src/main.py:58-81 | A buzz frame with the scores is added exactly when Nova is registered. `buzzers.json` gains the open event, stamped now, exactly when Mila is registered or a confident None is seen while an event is open; the slot is then empty. |
| `MainLoop.TickBuzzer` | pi/src/main.py:46-93 | After DETECTION_TIMEOUT seconds without motion no buzz event is open; a pass without motion that is not timed out leaves the buzzer alone; without GPIO the pin is never written; `buzzers.json` keeps its entries and gains at most one event per pass, closed now. |
| `MainLoop.TickKeepsOrder` | pi/src/main.py:67-97 | With a clock that does not run backwards, a pass keeps an open visit's start no later than its end, and its end no later than the pass's time. |
| `MainLoop.Controller.constructor` | pi/src/main.py:17-23 | The first camera frame becomes the previous frame; `last_detected_dog` is None and both times start at the start time. |
| `MainLoop.Controller.Capture` | pi/src/main.py:26-34 | The camera frame, or the simulated image under the cursor (and the cursor moves on). A simulation error leaves the frame and cursor alone and stops the loop. |
| `MainLoop.Controller.RefreshSafetyBuffer` | pi/src/main.py:38-43 | The buffer is on exactly while less than SAFETY_BUFFER seconds have passed since Mila's time. A log line is written only when the status flips. |
| `MainLoop.Controller.Evaluate` | pi/src/main.py:48-51 | The class and scores are `evaluate_frames`' result and the confidence is the class's own score. `curr_frame` ends as `EvaluatedFrame` says: the frame it started from after one sample, otherwise the last camera frame read. |
| `MainLoop.Controller.Register` | pi/src/main.py:67-78 | The result string, the visit slot and reports, and Mila's time follow `register_detection`. The rules that see only accepted results are collected in order. The buzz event, `buzzers.json` and the pin follow `BuzzerAfterDetection`: Mila sends "off", Nova outside the buffer sends "on" and the frame is added to the event, anything else changes nothing. |
| `MainLoop.Controller.React` | pi/src/main.py:57-81 | Registration happens exactly for confident non-None results, with the accepted-only rules collected; a confident None sends "off". The visit slot, reports, Mila's time and the buzzer (`BuzzerAfterResponse`) follow. |
| `MainLoop.Controller.Respond` | pi/src/main.py:53-86 | As `React`, with the findings equal to `Findings` of the result and `tests.json` gaining a record exactly when there are findings. The buzzer follows `BuzzerAfterResponse`, so a confident None closes and logs the open event and drives the pin LOW with GPIO present and the buffer off. |
| `MainLoop.Controller.MotionStep` | pi/src/main.py:50-86 | The motion outcome carries the evaluated class, confidence and scores, the gate and the findings; it never carries the suppression or rapid-switching finding. The visit, reports, tests, Mila's time and the buzzer (`BuzzerAfterMotion`) follow. |
| `MainLoop.Controller.Finish` | pi/src/main.py:91-99 | Without motion for DETECTION_TIMEOUT seconds "off" is sent (`BuzzerAfterIdle`: the open event is closed and logged, the pin driven LOW with GPIO and the buffer off); otherwise the buzzer is untouched. An expired visit is finalized, and the current frame becomes the previous one. |
| `MainLoop.Controller.Prepare` | pi/src/main.py:26-43 | Capture, then the buffer refresh. A successful capture leaves `CapturedFrame` in `curr_frame` and the cursor at `CursorAfterCapture`; a simulation error stops the pass with nothing changed. |
| `MainLoop.Controller.MotionBranch` | pi/src/main.py:46-89 | Without motion nothing in the motion branch happens. With motion the response happens and `last_motion_time` becomes now. The buzzer follows `BuzzerAfterMotion`. |
| `MainLoop.Controller.Advance` | pi/src/main.py:46-99 | The motion branch followed by the two timeout checks and the frame hand-over, composed into the pass's state, with the buzzer following `BuzzerAfterTick`. |
| `MainLoop.Controller.Proceed` | pi/src/main.py:45-99 | After a successful capture: the evaluation on motion (which leaves `EvaluatedFrame` in `curr_frame`), then the rest of the pass, with the buzzer following `BuzzerAfterTick`. |
| `MainLoop.Controller.Tick` | pi/src/main.py:25-99 | A failed simulated capture stops the loop with nothing changed. Otherwise: `curr_frame` is the captured frame, replaced on motion by the last frame `evaluate_frames` read, and the cursor moves as for a capture; the buffer is recomputed and logged only on a flip; the motion outcome is the evaluation's class and scores; registration happens only for confident non-None results and the findings are the rule outcomes; the visit slot and reports follow registration, then the timeout check; the buzz event, `buzzers.json` and the pin follow `BuzzerAfterTick`; the previous frame becomes the current one. Only the fields a pass writes may change, so GPIO presence and the simulation settings are kept. |
| `Surveil.AnalyzeFrameIsMax` | pi/src/surveil.py:37-48 | The reported label is the first one with the highest score, and the confidence is that score as a percentage, no smaller than any score. |
| `Surveil.KeptConfident` | pi/src/surveil.py:95-99 | Every kept result is at least CONFIDENCE_THRESHOLD confident. |
| `Surveil.KeptAll` | pi/src/surveil.py:95-99 | All frames' results are kept exactly when every frame is confident. Then the kept list holds each frame's label, confidence and frame, one per frame, in capture order. |
| `Surveil.Consistent` | pi/src/surveil.py:101-103 | A dog is named exactly when there are NUM_FRAMES results all sharing the first one's label, and it is that label. |
| `Surveil.ConsistencyRule` | pi/src/surveil.py:95-103 | A burst is reported exactly when all NUM_FRAMES frames are confident and share the first frame's label, and the report names that label. |
| `Surveil.AnalyzeAll` | pi/src/surveil.py:95-99 | The filter loop keeps exactly the reference list of confident results. |
| `Surveil.FrameFileNamesDiffer` | pi/src/surveil.py:119-121 | The frames of one report get pairwise different file names. |
| `Surveil.MinutesAgo` | pi/src/surveil.py:106 | The relative stamp reads back as the whole elapsed seconds floor-divided by 60, followed by "m ago". |
| `Surveil.ReportStore.Stored` | pi/src/surveil.py:64-69 | A missing report file reads as the empty list. |
| `Surveil.AnalyzeFrame` | pi/src/surveil.py:37-48 | The label is one of the three class labels; `AnalyzeFrameIsMax` states which one and its confidence. |
| `Surveil.Kept` | pi/src/surveil.py:95-99 | The results kept from n frames are at most n; `KeptConfident` and `KeptAll` state which. |
| `Surveil.FrameFileName` | pi/src/surveil.py:119-121 | The `i`-th image of a report: a `.jpg` file in the report directory. `FrameFileNamesDiffer` shows the names of one report differ. |
| `Surveil.ReportStore.AppendToJson` | pi/src/surveil.py:60-76 | The file exists afterwards and holds the old list (empty if the file was missing) with `data` appended. |
| `Surveil.ReportStore.SaveFrames` | pi/src/surveil.py:119-125 | One report frame and one written image per kept result, in order, each under the `i`-th file name with that result's confidence and frame. Earlier images are kept. |
| `Surveil.ReportStore.LogBurst` | pi/src/surveil.py:117-127 | The report of a consistent burst lists each frame's file name and confidence in order, each captured frame is written under its file name after the earlier images, and the report is appended to the stored list. |
| `Surveil.ReportStore.Survey` | pi/src/surveil.py:87-127 | A report is logged exactly when there was motion and the burst is unanimous: the first frame's label, the given timestamps, one frame entry per frame in order with its file name and confidence, appended to the stored list. The images written are then the earlier ones followed by each captured frame under its `i`-th file name. Otherwise the store is unchanged. |
| `ReportApp.RelativeTimeMeaning` | pi/src/surveil_report_app.py:33-41 | The label reads back as a number and a unit: whole seconds toward zero below a minute; whole minutes (1 to 59) below an hour; whole hours (1 to 23) below a day; whole days (at least 1) beyond. |
| `ReportApp.AnnotatedKeepsOthers` | pi/src/surveil_report_app.py:43-48 | A report keeps its timestamp and every other key with its value, and gains exactly the relative and absolute keys with the computed labels. |
| `ReportApp.LoadReports` | pi/src/surveil_report_app.py:14-50 | A missing file yields []. Otherwise every stored report, in order, is annotated as of `now`. |
| `ReportApp.RelativeTime` | pi/src/surveil_report_app.py:33-41 | The relative label of a report taken `delta` seconds ago, by bucket; `RelativeTimeMeaning` states what it reads back as. |
| `ReportApp.Annotated` | pi/src/surveil_report_app.py:43-48 | An annotated report keeps its timestamp; `AnnotatedKeepsOthers` states its keys. |
| `Text.Trunc` | pi/src/surveil_report_app.py:35 | `int()` of a float truncates toward zero: the result is within one of the value, on the side of zero. |
| `Text.IntToString` | pi/src/surveil.py:120 | The rendering is non-empty and starts with a minus sign exactly for a negative integer; `SplitIntToString` shows it reads back. |
| `Text.SplitIntToString` | pi/src/surveil.py:120 | An integer rendered as in an f-string reads back as itself, leaving any text that does not start with a digit. |

## Left out

- Camera and image processing are foreign library calls:
  - camera capture;
  - `detect_motion` (cv2 absdiff, threshold and pixel count), which is an input of the pass;
  - `preprocess_image` and TFLite inference;
  - the /255×100 scaling and `nan_to_num` of image_processing.py:50-51.
  - The classifier's scores for each sample are an input of the pass, as are the frames the camera returns during the evaluation.
- Floating point: scores and times are exact reals, so rounding in sums, averages and comparisons is not modelled.
- Clock: one reading `now` per loop pass stands for the several `datetime.now()`/`time.time()` calls. So a new visit starts and ends at the same instant, and timedelta's microsecond resolution is not modelled.
- Logging, `print`, the `gpio.input` read that only decides a log line, and the pin number are not modelled.
- Image files written with `cv2.imwrite` by main.py:60-65, `save_test_case` and `add_frame_to_buzz_event`, and the file names built with `strftime`, are not modelled. Only surveil.py's images are recorded, as (file name, frame) pairs.
- JSON persistence is modelled as sequences that the operations append to:
  - reading, rewriting and the temporary-file rename;
  - the seeding of missing files by `json_exists` in utils.py, which is not part of this model.
- Buzz-event times are reals, not ISO-8601 strings.
- The network: `send_visit_to_api` is an append to the reporting sink; its HTTP request, credential and failure handling are not modelled.
- `update_simulated_images` and `load_test_images` read the filesystem, so they are not modelled. The cursor they leave (the function assigns a local instead of resetting the index) is why `GetSimulatedImage` also models the IndexError.
- State names: the list of simulated images is `activeImages`, the name testing.py uses; state.py names it `active_dummy_images`.
- The Flask thread, the routes and the KeyboardInterrupt handler of main.py:104-116 (pin LOW and GPIO cleanup on exit) are concurrency and signal handling.
- Absolute timestamp formatting (`strftime` and the Los Angeles time zone in surveil.py:105 and 120 and surveil_report_app.py:25-30 and 44) is a string parameter or a function parameter `format`.
- In surveil.py, `main`'s camera loop is an input:
  - the NUM_FRAMES frames captured after motion with their delays (lines 90-93);
  - the `prev_frame` rotation (line 130).
- Surveil.AnalyzeFrame: requires exactly one score per class label. A classifier output of another length (an IndexError or a silently ignored score in the source) is not modelled.
- ReportApp.LoadReports: every stored report is taken to carry a numeric `timestamp`, and other values are abstracted as text. A missing key is the source's KeyError.
- The stored timestamp format: surveil.py stores `timestamp` as a dictionary of two strings, while surveil_report_app.py reads it as a POSIX number. Each script is modelled on its own format.
- ImageProcessing.EvaluateFrames: requires distinct, non-empty class labels (a dictionary keyed by repeated labels would merge them, and `max` over an empty dictionary raises). config.py's labels meet this.
- MainLoop.Controller.Evaluate, MainLoop.Controller.Proceed and MainLoop.Controller.Tick: require one score per class label in every classifier output (`Shaped`), as `ImageProcessing.EvaluateFrames` does. In the source a longer output is silently cut to the labels and a shorter one raises an IndexError; neither is modelled.
- ImageProcessing.EvaluateFrames: requires one score per class label in every classifier output, for the same reason.
- Records.Finding: the findings in `tests.json` are the datatype's four cases, not the literal message strings; the `{confidence:.2f}` rounding of the low-confidence message is not modelled.
- MainLoop.Controller.constructor: requires VERIFY_TIMES ≥ 1. With zero samples `evaluate_frames` returns no class and `confidence_scores[None]` raises a KeyError, which is not modelled; config.py sets 2.
