/** The stand-alone surveillance script pi/src/surveil.py: after motion, classify a burst of frames and
    log a report only when every frame is confident and all of them name the same class. */
module Surveil {
  import opened Wrappers
  import opened Records
  import opened Scores
  import opened Text

  const CONFIDENCE_THRESHOLD: real := 95.0
  const NUM_FRAMES: nat := 3
  const REPORT_DATA_DIR: string := "report/report-data"
  const CLASS_LABELS: seq<string> := ["Mila", "Nova", "None"]

  /** One kept result of `main`: `(dog, confidence, frame)`. */
  datatype Reading = Reading(dog: string, confidence: real, frame: Frame)

  /** One entry of a report's "frames" list. */
  datatype ReportFrame = ReportFrame(filename: string, confidence: real)

  /** A logged report: the dog, the two timestamp strings and the frames. */
  datatype SurveilReport = SurveilReport(dog: string, absolute: string, relative: string, frames: seq<ReportFrame>)

  /** An image written to disk. */
  datatype SavedImage = SavedImage(filename: string, frame: Frame)

  /** Every classifier output has one score per class label. */
  predicate Classified(preds: seq<seq<real>>) {
    forall i :: 0 <= i < |preds| ==> |preds[i]| == |CLASS_LABELS|
  }

  // ---------------------------------------------------------------- one frame

  /** analyze_frame, given the classifier's scores for the frame: the label at the arg-max and that
      score as a percentage. */
  function AnalyzeFrame(predictions: seq<real>): (r: (string, real))
    requires |predictions| == |CLASS_LABELS|
    ensures r.0 in CLASS_LABELS
  {
    var i := ArgMax(predictions);
    (CLASS_LABELS[i], predictions[i] * 100.0)
  }

  /** The reported class is the first highest-scoring one, and the confidence is the highest score
      as a percentage. */
  lemma AnalyzeFrameIsMax(predictions: seq<real>)
    requires |predictions| == |CLASS_LABELS|
    ensures var (dog, confidence) := AnalyzeFrame(predictions);
            exists i :: 0 <= i < |predictions| && dog == CLASS_LABELS[i] && confidence == predictions[i] * 100.0
                        && (forall j :: 0 <= j < |predictions| ==> predictions[j] * 100.0 <= confidence)
                        && (forall j :: 0 <= j < i ==> predictions[j] < predictions[i])
  {
    var i := ArgMax(predictions);
    ArgMaxIsFirstMax(predictions);
    assert forall j :: 0 <= j < |predictions| ==> predictions[j] * 100.0 <= predictions[i] * 100.0;
  }

  // ---------------------------------------------------------------- the consistency rule

  /** Whether the classification of a frame is confident enough to keep. */
  predicate Confident(predictions: seq<real>)
    requires |predictions| == |CLASS_LABELS|
  {
    AnalyzeFrame(predictions).1 >= CONFIDENCE_THRESHOLD
  }

  /** The results `main` keeps from the first `n` captured frames, in capture order. */
  function Kept(captured: seq<Frame>, preds: seq<seq<real>>, n: nat): (kept: seq<Reading>)
    requires n <= |captured| == |preds| && Classified(preds)
    ensures |kept| <= n
  {
    if n == 0 then []
    else
      var prev := Kept(captured, preds, n - 1);
      var (dog, confidence) := AnalyzeFrame(preds[n - 1]);
      if confidence >= CONFIDENCE_THRESHOLD then prev + [Reading(dog, confidence, captured[n - 1])] else prev
  }

  /** Every kept result is confident. */
  lemma {:induction false} KeptConfident(captured: seq<Frame>, preds: seq<seq<real>>, n: nat)
    requires n <= |captured| == |preds| && Classified(preds)
    ensures forall r :: r in Kept(captured, preds, n) ==> r.confidence >= CONFIDENCE_THRESHOLD
  {
    if n > 0 {
      KeptConfident(captured, preds, n - 1);
    }
  }

  /** All `n` results are kept exactly when every one of the `n` frames is confident, and then the kept
      results are the frames' classifications, one per frame, in capture order. */
  lemma {:induction false} KeptAll(captured: seq<Frame>, preds: seq<seq<real>>, n: nat)
    requires n <= |captured| == |preds| && Classified(preds)
    ensures |Kept(captured, preds, n)| == n <==> forall i :: 0 <= i < n ==> Confident(preds[i])
    ensures |Kept(captured, preds, n)| == n ==>
              forall i :: 0 <= i < n ==>
                Kept(captured, preds, n)[i] ==
                  Reading(AnalyzeFrame(preds[i]).0, AnalyzeFrame(preds[i]).1, captured[i])
  {
    if n > 0 {
      KeptAll(captured, preds, n - 1);
    }
  }

  /** `len(results) == NUM_FRAMES` and every result has the first one's label: that label. */
  function Consistent(results: seq<Reading>): (dog: Option<string>)
    ensures dog.Some? ==> |results| == NUM_FRAMES && dog.value == results[0].dog
    ensures dog.Some? <==> |results| == NUM_FRAMES && forall r :: r in results ==> r.dog == results[0].dog
  {
    if |results| == NUM_FRAMES && forall r :: r in results ==> r.dog == results[0].dog
    then Some(results[0].dog) else None
  }

  /** The rule stated on the frames themselves: every one of them is confident and has the first
      frame's label. */
  predicate Unanimous(preds: seq<seq<real>>)
    requires Classified(preds)
  {
    && |preds| == NUM_FRAMES
    && forall i :: 0 <= i < |preds| ==> Confident(preds[i]) && AnalyzeFrame(preds[i]).0 == AnalyzeFrame(preds[0]).0
  }

  /** A burst is reported exactly when its frames are unanimous, and the report names the first
      frame's class. */
  lemma ConsistencyRule(captured: seq<Frame>, preds: seq<seq<real>>)
    requires |captured| == |preds| == NUM_FRAMES && Classified(preds)
    ensures var dog := Consistent(Kept(captured, preds, NUM_FRAMES));
            && (dog.Some? <==> Unanimous(preds))
            && (dog.Some? ==> dog.value == AnalyzeFrame(preds[0]).0)
  {
    var kept := Kept(captured, preds, NUM_FRAMES);
    KeptAll(captured, preds, NUM_FRAMES);
    if Unanimous(preds) {
      forall r | r in kept ensures r.dog == kept[0].dog {
        var i :| 0 <= i < |kept| && kept[i] == r;
      }
    }
    if Consistent(kept).Some? {
      forall i | 0 <= i < NUM_FRAMES
        ensures Confident(preds[i]) && AnalyzeFrame(preds[i]).0 == AnalyzeFrame(preds[0]).0
      {
        assert kept[i] in kept;
      }
    }
  }

  /** The classification loop over the captured frames. */
  method AnalyzeAll(captured: seq<Frame>, preds: seq<seq<real>>) returns (results: seq<Reading>)
    requires |captured| == |preds| && Classified(preds)
    ensures results == Kept(captured, preds, |captured|)
  {
    results := [];
    var i := 0;
    while i < |captured|
      invariant 0 <= i <= |captured|
      invariant results == Kept(captured, preds, i)
    {
      var (dog, confidence) := AnalyzeFrame(preds[i]);
      if confidence >= CONFIDENCE_THRESHOLD {
        results := results + [Reading(dog, confidence, captured[i])];
      }
      i := i + 1;
    }
  }

  // ---------------------------------------------------------------- file names and the report

  /** The image file of the `i`-th frame of a report, `stamp` being the '%Y%m%d_%H%M%S' rendering of
      its time. */
  function FrameFileName(dog: string, stamp: string, i: nat): (f: string)
    ensures |f| > |REPORT_DATA_DIR| + 5
    ensures f[..|REPORT_DATA_DIR| + 1] == REPORT_DATA_DIR + "/" && f[|f| - 4..] == ".jpg"
  {
    REPORT_DATA_DIR + "/" + dog + "_" + stamp + "_" + IntToString(i) + ".jpg"
  }

  /** The frames of one report get pairwise different file names. */
  lemma FrameFileNamesDiffer(dog: string, stamp: string, i: nat, j: nat)
    requires i != j
    ensures FrameFileName(dog, stamp, i) != FrameFileName(dog, stamp, j)
  {
    var prefix := REPORT_DATA_DIR + "/" + dog + "_" + stamp + "_";
    assert FrameFileName(dog, stamp, i) == prefix + (IntToString(i) + ".jpg");
    assert FrameFileName(dog, stamp, j) == prefix + (IntToString(j) + ".jpg");
    SplitIntToString(i, ".jpg");
    SplitIntToString(j, ".jpg");
    assert (prefix + (IntToString(i) + ".jpg"))[|prefix|..] == IntToString(i) + ".jpg";
    assert (prefix + (IntToString(j) + ".jpg"))[|prefix|..] == IntToString(j) + ".jpg";
  }

  /** The "relative" timestamp of a new report: whole elapsed seconds, floor-divided by 60, in minutes. */
  function MinutesAgo(elapsed: real): (s: string)
    ensures SplitInt(s) == Some((Trunc(elapsed) / 60, "m ago"))
  {
    SplitIntToString(Trunc(elapsed) / 60, "m ago");
    IntToString(Trunc(elapsed) / 60) + "m ago"
  }

  /** The report of a consistent burst of `dog`: its timestamps, and per frame, in order, the frame's
      image file name and confidence. */
  function BurstReport(dog: string, absolute: string, stamp: string, elapsed: real, preds: seq<seq<real>>): (r: SurveilReport)
    requires Classified(preds)
    ensures r.dog == dog && r.absolute == absolute && r.relative == MinutesAgo(elapsed)
    ensures |r.frames| == |preds|
    ensures forall i :: 0 <= i < |preds| ==>
              r.frames[i] == ReportFrame(FrameFileName(dog, stamp, i), AnalyzeFrame(preds[i]).1)
  {
    SurveilReport(dog, absolute, MinutesAgo(elapsed),
                  seq(|preds|, i requires 0 <= i < |preds| => ReportFrame(FrameFileName(dog, stamp, i), AnalyzeFrame(preds[i]).1)))
  }

  /** The images a consistent burst of `dog` writes: each captured frame under its file name, in order. */
  function BurstImages(dog: string, stamp: string, captured: seq<Frame>): (r: seq<SavedImage>)
    ensures |r| == |captured|
    ensures forall i :: 0 <= i < |captured| ==> r[i] == SavedImage(FrameFileName(dog, stamp, i), captured[i])
  {
    seq(|captured|, i requires 0 <= i < |captured| => SavedImage(FrameFileName(dog, stamp, i), captured[i]))
  }

  /** The report directory, the JSON report file and the images written so far. */
  class ReportStore {
    /** Whether the report file exists. */
    var fileExists: bool
    /** The list stored in the report file (meaningful only when it exists). */
    var reports: seq<SurveilReport>
    /** The images written with imwrite, in order. */
    var images: seq<SavedImage>

    constructor (present: bool, stored: seq<SurveilReport>)
      ensures fileExists == present && reports == stored && images == []
    {
      fileExists, reports, images := present, stored, [];
    }

    /** The list the report file holds, a missing file reading as the empty list. */
    function Stored(): (l: seq<SurveilReport>)
      reads this
      ensures !fileExists ==> l == []
    {
      if fileExists then reports else []
    }

    /** append_to_json: a missing file is first created holding `[]`; the stored list then gains `data`
        at its end. */
    method AppendToJson(data: SurveilReport)
      modifies this`fileExists, this`reports
      ensures fileExists && reports == old(Stored()) + [data]
    {
      if !fileExists {
        fileExists, reports := true, [];
      }
      var loaded := reports;
      loaded := loaded + [data];
      reports := loaded;
    }

    /** The frame loop of a consistent burst: write each kept frame's image and list it in the report,
        in order. */
    method SaveFrames(dog: string, stamp: string, results: seq<Reading>) returns (frames: seq<ReportFrame>)
      modifies this`images
      ensures |frames| == |results| && |images| == |old(images)| + |results|
      ensures images[..|old(images)|] == old(images)
      ensures forall i :: 0 <= i < |results| ==>
                && frames[i] == ReportFrame(FrameFileName(dog, stamp, i), results[i].confidence)
                && images[|old(images)| + i] == SavedImage(FrameFileName(dog, stamp, i), results[i].frame)
    {
      frames := [];
      var i := 0;
      while i < |results|
        invariant 0 <= i <= |results|
        invariant |frames| == i && |images| == |old(images)| + i
        invariant images[..|old(images)|] == old(images)
        invariant forall k :: 0 <= k < i ==>
                    && frames[k] == ReportFrame(FrameFileName(dog, stamp, k), results[k].confidence)
                    && images[|old(images)| + k] == SavedImage(FrameFileName(dog, stamp, k), results[k].frame)
      {
        var filename := FrameFileName(dog, stamp, i);
        images := images + [SavedImage(filename, results[i].frame)];
        frames := frames + [ReportFrame(filename, results[i].confidence)];
        i := i + 1;
      }
    }

    /** The logging half of a consistent burst, whose `results` are the classifications of the
        `captured` frames: save its frames, then append the report. */
    method LogBurst(dog: string, absolute: string, stamp: string, elapsed: real, results: seq<Reading>,
                    ghost captured: seq<Frame>, ghost preds: seq<seq<real>>)
      returns (data: SurveilReport)
      requires |results| == |captured| == |preds| && Classified(preds)
      requires forall i :: 0 <= i < |results| ==>
                 results[i] == Reading(AnalyzeFrame(preds[i]).0, AnalyzeFrame(preds[i]).1, captured[i])
      modifies this
      ensures data == BurstReport(dog, absolute, stamp, elapsed, preds)
      ensures images == old(images) + BurstImages(dog, stamp, captured)
      ensures fileExists && reports == old(Stored()) + [data]
    {
      var frames := SaveFrames(dog, stamp, results);
      data := SurveilReport(dog, absolute, MinutesAgo(elapsed), frames);
      assert frames == BurstReport(dog, absolute, stamp, elapsed, preds).frames;
      assert images == old(images) + BurstImages(dog, stamp, captured);
      AppendToJson(data);
    }

    /** One pass of `main`'s loop after the burst is captured: `captured` are the NUM_FRAMES frames and
        `preds` their classifier scores; `absolute`, `stamp` and `elapsed` stand for the clock readings.
        A report is logged exactly when there was motion and the burst is unanimous. */
    method Survey(motion: bool, captured: seq<Frame>, preds: seq<seq<real>>,
                  absolute: string, stamp: string, elapsed: real)
      returns (report: Option<SurveilReport>)
      requires |captured| == |preds| == NUM_FRAMES && Classified(preds)
      modifies this
      ensures report.Some? <==> motion && Unanimous(preds)
      ensures report.Some? ==>
                && report.value == BurstReport(AnalyzeFrame(preds[0]).0, absolute, stamp, elapsed, preds)
                && fileExists && reports == old(Stored()) + [report.value]
                && images == old(images) + BurstImages(report.value.dog, stamp, captured)
      ensures report.None? ==> unchanged(this)
    {
      report := None;
      if !motion {
        return;
      }
      var results := AnalyzeAll(captured, preds);
      ConsistencyRule(captured, preds);
      KeptAll(captured, preds, NUM_FRAMES);
      if |results| == NUM_FRAMES {
        var consistentDog := results[0].dog;
        if forall r :: r in results ==> r.dog == consistentDog {
          var data := LogBurst(consistentDog, absolute, stamp, elapsed, results, captured, preds);
          report := Some(data);
        }
      }
    }
  }
}
