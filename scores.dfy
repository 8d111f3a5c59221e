/** Arg-max over confidence scores, shared by the stabilizer and the older single-frame analyser. */
module Scores {

  /** The first index holding the largest value: what both `max(d, key=d.get)` over a dictionary
      in insertion order and `np.argmax` return. */
  function ArgMax(xs: seq<real>): (i: nat)
    requires |xs| > 0
    ensures i < |xs|
  {
    if |xs| == 1 then 0
    else
      var k := ArgMax(xs[..|xs| - 1]);
      if xs[|xs| - 1] > xs[k] then |xs| - 1 else k
  }

  /** ArgMax picks a largest value, and no earlier index holds one as large. */
  lemma {:induction false} ArgMaxIsFirstMax(xs: seq<real>)
    requires |xs| > 0
    ensures var i := ArgMax(xs);
            && (forall j :: 0 <= j < |xs| ==> xs[j] <= xs[i])
            && (forall j :: 0 <= j < i ==> xs[j] < xs[i])
  {
    if |xs| > 1 {
      var init := xs[..|xs| - 1];
      ArgMaxIsFirstMax(init);
      assert forall j :: 0 <= j < |init| ==> init[j] == xs[j];
    }
  }
}
