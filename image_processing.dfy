/** pi/src/modules/image_processing.py: the confidence stabilizer `evaluate_frames`.
    Motion detection is an input of the control loop, and the classifier's outputs are given
    as one score sequence per sample. */
module ImageProcessing {
  import opened Wrappers
  import opened Config
  import opened Records
  import opened State
  import opened Scores

  /** Every classifier output carries one score per label, in label order. */
  predicate Shaped(preds: seq<seq<real>>, n: nat) {
    forall t :: 0 <= t < |preds| ==> |preds[t]| == n
  }

  function LabelSet(labels: seq<string>): set<string> {
    set l | l in labels
  }

  /** Label j's score in one classifier output (0.0 for a missing score, which a shaped output never has). */
  function Score(p: seq<real>, j: nat): real {
    if j < |p| then p[j] else 0.0
  }

  /** The sum of label j's scores over the first k samples. */
  function Sum(preds: seq<seq<real>>, k: nat, j: nat): real
    requires k <= |preds|
  {
    if k == 0 then 0.0 else Sum(preds, k - 1, j) + Score(preds[k - 1], j)
  }

  /** Label j's running average after k samples (0.0 before the first). */
  function Average(preds: seq<seq<real>>, k: nat, j: nat): real
    requires k <= |preds|
  {
    if k == 0 then 0.0 else Sum(preds, k, j) / k as real
  }

  /** The running averages after k samples, in label order. */
  function Averages(preds: seq<seq<real>>, k: nat, n: nat): (r: seq<real>)
    requires k <= |preds|
    ensures |r| == n
  {
    seq(n, j requires 0 <= j < n => Average(preds, k, j))
  }

  /** The top class after k samples: the first label with the largest running average. */
  function Top(labels: seq<string>, preds: seq<seq<real>>, k: nat): (l: string)
    requires 1 <= k <= |preds| && |labels| > 0
    ensures l in labels
  {
    labels[ArgMax(Averages(preds, k, |labels|))]
  }

  /** The top class after each of the first K samples: entry k is the top class after k + 1 samples. */
  function TopClasses(labels: seq<string>, preds: seq<seq<real>>, K: nat): (tops: seq<string>)
    requires K <= |preds| && |labels| > 0
    ensures |tops| == K
  {
    seq(K, k requires 0 <= k < K => Top(labels, preds, k + 1))
  }

  /** The instability test after sample k: a truthy previous top class that the new top class differs from. */
  predicate Unstable(tops: seq<string>, k: nat)
    requires k <= |tops|
  {
    2 <= k && tops[k - 2] != "" && tops[k - 1] != tops[k - 2]
  }

  /** The number of samples consumed when samples 1..k passed the instability test. */
  function ExitIndex(tops: seq<string>, k: nat): (r: nat)
    requires 1 <= k <= |tops|
    ensures k <= r <= |tops| && (r == k ==> k == |tops|)
    ensures forall m :: k < m < r ==> !Unstable(tops, m)
    ensures r < |tops| ==> Unstable(tops, r)
    decreases |tops| - k
  {
    if k == |tops| then k
    else if Unstable(tops, k + 1) then k + 1
    else ExitIndex(tops, k + 1)
  }

  /** One step of the exit search: an unstable next sample ends it there, a stable one moves it on. */
  lemma ExitStep(tops: seq<string>, k: nat)
    requires 1 <= k < |tops|
    ensures Unstable(tops, k + 1) ==> ExitIndex(tops, k) == k + 1
    ensures !Unstable(tops, k + 1) ==> ExitIndex(tops, k) == ExitIndex(tops, k + 1)
  {
  }

  /** How many samples evaluate_frames takes, given the top class after each possible sample. */
  function Consumed(tops: seq<string>): (c: nat)
    ensures |tops| == 0 ==> c == 0
    ensures |tops| >= 1 ==> 1 <= c <= |tops|
    ensures |tops| >= 2 ==> c >= 2
    ensures forall m :: 2 <= m < c ==> !Unstable(tops, m)
    ensures c < |tops| ==> Unstable(tops, c)
  {
    if |tops| == 0 then 0 else ExitIndex(tops, 1)
  }

  /** The class evaluate_frames returns: on an early exit the top class before the last sample,
      otherwise the final top class; None when no sample is taken. */
  function StabilizedClass(tops: seq<string>): (cls: Option<string>)
    ensures cls.None? <==> |tops| == 0
    ensures cls.Some? ==> cls.value in tops
  {
    var c := Consumed(tops);
    if c == 0 then None
    else if Unstable(tops, c) then Some(tops[c - 2])
    else Some(tops[c - 1])
  }

  /** The evaluation stops on an instability before the K-th sample or at it; it returns the top
      class of the averages it returns exactly when it did not stop on an instability, and after an
      instability it returns the previous sample's top class beside averages that include the sample
      that changed it. */
  lemma EarlyExitReturnsPrevious(labels: seq<string>, preds: seq<seq<real>>, K: nat)
    requires 1 <= K <= |preds| && |labels| > 0
    ensures var tops := TopClasses(labels, preds, K);
            var c := Consumed(tops);
            && (c < K ==> Unstable(tops, c))
            && (Unstable(tops, c) ==> StabilizedClass(tops) == Some(Top(labels, preds, c - 1)))
            && (StabilizedClass(tops) == Some(Top(labels, preds, c)) <==> !Unstable(tops, c))
  {
    var tops := TopClasses(labels, preds, K);
    var c := Consumed(tops);
    assert tops[c - 1] == Top(labels, preds, c);
    if Unstable(tops, c) {
      assert tops[c - 2] == Top(labels, preds, c - 1);
    }
  }

  /** The running sum of a score that every sample repeats is that score times the sample count. */
  lemma {:induction false} SumOfIdentical(preds: seq<seq<real>>, p: seq<real>, k: nat, j: nat)
    requires k <= |preds| && j < |p|
    requires forall t :: 0 <= t < k ==> preds[t] == p
    ensures Sum(preds, k, j) == k as real * p[j]
  {
    if k > 0 {
      SumOfIdentical(preds, p, k - 1, j);
    }
  }

  /** The running averages over identical samples are that sample's scores. */
  lemma AveragesOfIdentical(preds: seq<seq<real>>, p: seq<real>, k: nat)
    requires 1 <= k <= |preds|
    requires forall t :: 0 <= t < k ==> preds[t] == p
    ensures Averages(preds, k, |p|) == p
  {
    forall j | 0 <= j < |p|
      ensures Average(preds, k, j) == p[j]
    {
      SumOfIdentical(preds, p, k, j);
    }
  }

  /** When every sample has the same top class, no sample is unstable: all of them are taken and
      that class is returned. */
  lemma ConstantTops(tops: seq<string>)
    requires |tops| > 0 && forall m :: 0 <= m < |tops| ==> tops[m] == tops[0]
    ensures Consumed(tops) == |tops| && StabilizedClass(tops) == Some(tops[0])
  {
    var c := Consumed(tops);
    assert tops[c - 1] == tops[0];
    if c >= 2 {
      assert tops[c - 2] == tops[0];
    }
  }

  /** Over identical samples the top class after any number of them is the sample's arg-max label. */
  lemma TopOfIdentical(labels: seq<string>, preds: seq<seq<real>>, p: seq<real>, k: nat)
    requires 1 <= k <= |preds| && |labels| == |p| > 0
    requires forall t :: 0 <= t < k ==> preds[t] == p
    ensures Top(labels, preds, k) == labels[ArgMax(p)]
  {
    AveragesOfIdentical(preds, p, k);
  }

  /** With identical samples every one of the K samples is taken, the averages equal the single
      sample's scores and the class is that sample's arg-max label. */
  lemma IdenticalSamples(labels: seq<string>, preds: seq<seq<real>>, p: seq<real>, K: nat)
    requires 1 <= K <= |preds| && |labels| == |p| > 0
    requires forall t :: 0 <= t < K ==> preds[t] == p
    ensures var tops := TopClasses(labels, preds, K);
            && Consumed(tops) == K
            && Averages(preds, K, |p|) == p
            && StabilizedClass(tops) == Some(labels[ArgMax(p)])
  {
    var tops := TopClasses(labels, preds, K);
    forall k | 0 <= k < K
      ensures tops[k] == labels[ArgMax(p)]
    {
      TopOfIdentical(labels, preds, p, k + 1);
    }
    ConstantTops(tops);
    AveragesOfIdentical(preds, p, K);
  }

  /** The running sums after k samples, in label order. */
  function Sums(preds: seq<seq<real>>, k: nat, n: nat): (r: seq<real>)
    requires k <= |preds|
    ensures |r| == n
  {
    seq(n, j requires 0 <= j < n => Sum(preds, k, j))
  }

  /** The first position of x in xs. */
  function IndexOf(xs: seq<string>, x: string): (i: nat)
    requires x in xs
    ensures i < |xs| && xs[i] == x
  {
    if xs[0] == x then 0 else 1 + IndexOf(xs[1..], x)
  }

  /** With distinct entries, the first position of entry j is j. */
  lemma IndexOfDistinct(xs: seq<string>, j: nat)
    requires Distinct(xs) && j < |xs|
    ensures IndexOf(xs, xs[j]) == j
  {
    var i := IndexOf(xs, xs[j]);
    assert i < j ==> Differ(xs, i, j);
    assert j < i ==> Differ(xs, j, i);
  }

  /** A dictionary keyed by the labels, built from its values listed in label order. */
  function ByLabel(labels: seq<string>, values: seq<real>): (m: map<string, real>)
    requires |values| == |labels|
    ensures m.Keys == LabelSet(labels)
  {
    map l | l in labels :: values[IndexOf(labels, l)]
  }

  /** With distinct labels, each label maps to the value listed at its position. */
  lemma ByLabelAt(labels: seq<string>, values: seq<real>, j: nat)
    requires Distinct(labels) && |values| == |labels| && j < |labels|
    ensures ByLabel(labels, values)[labels[j]] == values[j]
  {
    IndexOfDistinct(labels, j);
  }

  /** Where the loop of evaluate_frames leaves off: the class it returns and the number of samples it took. */
  datatype Exit = Exit(cls: Option<string>, samples: nat)

  /** The loop of evaluate_frames as a recursion over the top class after each sample, with `k`
      samples taken so far and `last` the top class after them (None before the first): take sample
      k + 1, stop if its top class differs from a truthy `last`, otherwise go on with it as the new `last`. */
  function Walk(tops: seq<string>, k: nat, last: Option<string>): (e: Exit)
    requires k <= |tops|
    requires last.None? <==> k == 0
    ensures k <= e.samples <= |tops|
    ensures e.cls.None? <==> |tops| == 0
    decreases |tops| - k
  {
    if k == |tops| then Exit(last, k)
    else if Truthy(last) && tops[k] != last.value then Exit(last, k + 1)
    else Walk(tops, k + 1, Some(tops[k]))
  }

  /** From a stable k-th sample on, the recursion ends where the exit search does. */
  lemma {:induction false} WalkFrom(tops: seq<string>, k: nat)
    requires 1 <= k <= |tops| && !Unstable(tops, k)
    ensures var c := ExitIndex(tops, k);
            Walk(tops, k, Some(tops[k - 1])) == Exit(Some(if Unstable(tops, c) then tops[c - 2] else tops[c - 1]), c)
    decreases |tops| - k
  {
    if k < |tops| {
      ExitStep(tops, k);
      if !Unstable(tops, k + 1) {
        WalkFrom(tops, k + 1);
      }
    }
  }

  /** The recursion and the declarative description agree: the loop stops at the first unstable
      sample, or after all of them, returning the class StabilizedClass names. */
  lemma WalkMatchesSpec(tops: seq<string>)
    ensures Walk(tops, 0, None) == Exit(StabilizedClass(tops), Consumed(tops))
  {
    if |tops| > 0 {
      WalkFrom(tops, 1);
    }
  }

  /** What evaluate_frames computes: the class it returns, the number of samples it took and the
      averaged scores it returns. */
  datatype Stabilized = Stabilized(cls: Option<string>, samples: nat, scores: map<string, real>)

  /** The result of evaluate_frames over K samples: the loop's exit, and the averages of the samples
      it took keyed by label. */
  function Evaluation(labels: seq<string>, preds: seq<seq<real>>, K: nat): (r: Stabilized)
    requires K <= |preds| && |labels| > 0
    ensures r.samples <= K && (K > 0 ==> r.samples > 0)
    ensures r.cls.None? <==> K == 0
    ensures r.cls.Some? ==> r.cls.value in labels && r.cls.value in r.scores
  {
    var tops := TopClasses(labels, preds, K);
    var e := Walk(tops, 0, None);
    var r := Stabilized(e.cls, e.samples, ByLabel(labels, Averages(preds, e.samples, |labels|)));
    WalkMatchesSpec(tops);
    assert r.cls.Some? ==> r.cls.value in labels by {
      if r.cls.Some? {
        var m :| 0 <= m < K && tops[m] == r.cls.value;
        assert tops[m] == Top(labels, preds, m + 1);
      }
    }
    r
  }

  /** The returned scores are keyed by exactly the labels, and with distinct labels each is that
      label's running average over the samples taken. */
  lemma EvaluationScores(labels: seq<string>, preds: seq<seq<real>>, K: nat, j: nat)
    requires K <= |preds| && |labels| > 0 && Distinct(labels) && j < |labels|
    ensures var r := Evaluation(labels, preds, K);
            r.scores.Keys == LabelSet(labels) && r.scores[labels[j]] == Average(preds, r.samples, j)
  {
    var r := Evaluation(labels, preds, K);
    ByLabelAt(labels, Averages(preds, r.samples, |labels|), j);
  }

  /** One sample's work in the loop body: `confidence_sums[label] += predictions[i]` for every label,
      then `confidence_averages[label] = confidence_sums[label] / num_cycles` for every label, then
      the top class of the new averages. */
  method AddSample(labels: seq<string>, preds: seq<seq<real>>, idx: nat, sums: seq<real>, averages: seq<real>)
    returns (sums': seq<real>, averages': seq<real>, topClass: string)
    requires idx < |preds| && |labels| > 0 && Shaped(preds, |labels|)
    requires sums == Sums(preds, idx, |labels|) && |averages| == |labels|
    ensures sums' == Sums(preds, idx + 1, |labels|)
    ensures averages' == Averages(preds, idx + 1, |labels|)
    ensures topClass == Top(labels, preds, idx + 1)
  {
    var n := |labels|;
    var predictions := preds[idx];
    sums' := sums;
    for i := 0 to n
      invariant |sums'| == n
      invariant forall j :: 0 <= j < i ==> sums'[j] == Sum(preds, idx + 1, j)
      invariant forall j :: i <= j < n ==> sums'[j] == Sum(preds, idx, j)
    {
      sums' := sums'[i := sums'[i] + predictions[i]];
    }
    var numCycles := idx + 1;
    averages' := averages;
    for i := 0 to n
      invariant |averages'| == n
      invariant forall j :: 0 <= j < i ==> averages'[j] == Average(preds, numCycles, j)
    {
      averages' := averages'[i := sums'[i] / numCycles as real];
    }
    topClass := labels[ArgMax(averages')];
  }

  /** Sample idx + 1 of the loop: after the first, a new camera frame is read into `currFrame`; then
      the sample is added to the running sums and averages. */
  method TakeSample(st: AppState, camera: seq<Frame>, labels: seq<string>, preds: seq<seq<real>>, idx: nat,
                    sums: seq<real>, averages: seq<real>)
    returns (sums': seq<real>, averages': seq<real>, topClass: string)
    requires idx < |preds| && idx <= |camera| && |labels| > 0 && Shaped(preds, |labels|)
    requires sums == Sums(preds, idx, |labels|) && |averages| == |labels|
    modifies st`currFrame
    ensures st.currFrame == if idx == 0 then old(st.currFrame) else Some(camera[idx - 1])
    ensures sums' == Sums(preds, idx + 1, |labels|)
    ensures averages' == Averages(preds, idx + 1, |labels|)
    ensures topClass == Top(labels, preds, idx + 1)
  {
    if idx > 0 {
      st.currFrame := Some(camera[idx - 1]);  // read a new frame
    }
    sums', averages', topClass := AddSample(labels, preds, idx, sums, averages);
  }

  /** evaluate_frames: running sums and averages over up to VERIFY_TIMES samples, stopping at the
      first sample whose top class differs from the previous one. Sample 1 is the frame already in
      `currFrame`; each later sample reads the next camera frame into it. The dictionaries keyed by
      CLASS_LABELS are kept as sequences in label order and the averages returned as a dictionary. */
  method EvaluateFrames(st: AppState, cfg: Settings, camera: seq<Frame>, preds: seq<seq<real>>)
    returns (cls: Option<string>, confidenceAverages: map<string, real>)
    requires cfg.LabelsOk()
    requires cfg.verifyTimes <= |preds| && Shaped(preds, |cfg.classLabels|)
    requires cfg.verifyTimes <= |camera| + 1
    modifies st`currFrame
    ensures var e := Walk(TopClasses(cfg.classLabels, preds, cfg.verifyTimes), 0, None);
            && cls == e.cls && confidenceAverages == ByLabel(cfg.classLabels, Averages(preds, e.samples, |cfg.classLabels|))
            && st.currFrame == if e.samples <= 1 then old(st.currFrame) else Some(camera[e.samples - 2])
  {
    var labels, K := cfg.classLabels, cfg.verifyTimes;
    var n := |labels|;
    var lastTopClass: Option<string> := None;
    var sums := seq(n, _ => 0.0);
    var averages := seq(n, _ => 0.0);
    assert sums == Sums(preds, 0, n);
    assert averages == Averages(preds, 0, n);
    ghost var tops := TopClasses(labels, preds, K);
    var idx := 0;
    while idx < K
      invariant 0 <= idx <= K
      invariant sums == Sums(preds, idx, n)
      invariant averages == Averages(preds, idx, n)
      invariant lastTopClass.None? <==> idx == 0
      invariant Walk(tops, idx, lastTopClass) == Walk(tops, 0, None)
      invariant idx <= 1 ==> st.currFrame == old(st.currFrame)
      invariant 2 <= idx ==> st.currFrame == Some(camera[idx - 2])
    {
      var topClass;
      sums, averages, topClass := TakeSample(st, camera, labels, preds, idx, sums, averages);
      assert topClass == tops[idx];

      // Stop on class instability
      if Truthy(lastTopClass) && topClass != lastTopClass.value {
        assert Walk(tops, idx, lastTopClass) == Exit(lastTopClass, idx + 1);
        cls, confidenceAverages := lastTopClass, ByLabel(labels, averages);
        return;
      }
      assert Walk(tops, idx, lastTopClass) == Walk(tops, idx + 1, Some(topClass));
      lastTopClass := Some(topClass);
      idx := idx + 1;
    }
    cls, confidenceAverages := lastTopClass, ByLabel(labels, averages);
  }
}
