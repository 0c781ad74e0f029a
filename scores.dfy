/**
 * The reduction of classifier scores to a verdict: the mean of the scores
 * with an inclusive 0.5 threshold, the "No face detected" fallback for an
 * empty score list, and the single-image decision.
 */
module Scores {

  /** The three labels the inference code returns: the strings "Real",
      "DeepFake" and "No face detected". */
  datatype Label = Real | DeepFake | NoFaceDetected

  /** A label and its confidence score. */
  datatype Verdict = Verdict(decision: Label, score: real)

  /** Scores at or above this value are called real. */
  const Threshold: real := 0.5

  function Sum(s: seq<real>): real {
    if s == [] then 0.0 else s[0] + Sum(s[1..])
  }

  /** The arithmetic mean (`np.mean`). */
  function Mean(s: seq<real>): (m: real)
    requires |s| > 0
    ensures m * (|s| as real) == Sum(s)
  {
    Sum(s) / (|s| as real)
  }

  /** The threshold decision applied to a score. */
  function Decide(score: real): (l: Label)
    ensures l != NoFaceDetected
    ensures l == Real <==> Threshold <= score
  {
    if score >= Threshold then Real else DeepFake
  }

  /** The end of the video routine: no scores means no face was found;
      otherwise the mean score decides. */
  function Aggregate(preds: seq<real>): (v: Verdict)
    ensures v.decision == NoFaceDetected <==> preds == []
    ensures preds == [] ==> v.score == 0.0
    ensures preds != [] ==> v.score * (|preds| as real) == Sum(preds)
    ensures preds != [] ==> (v.decision == Real <==> Threshold * (|preds| as real) <= Sum(preds))
  {
    if preds != [] then
      var avg := Mean(preds);
      Verdict(Decide(avg), avg)
    else
      Verdict(NoFaceDetected, 0.0)
  }

  /** The still-image path: the one score decides with the same threshold. */
  function ImageVerdict(pred: real): (v: Verdict)
    ensures v.score == pred
    ensures v.decision != NoFaceDetected
    ensures v.decision == Real <==> Threshold <= pred
  {
    Verdict(Decide(pred), pred)
  }

  /** The still-image decision is the video reduction of a single score. */
  lemma ImageVerdictIsSingletonAggregate(pred: real)
    ensures ImageVerdict(pred) == Aggregate([pred])
  {
    assert Sum([pred]) == pred + Sum([]);
  }

  lemma {:induction false} SumAppend(a: seq<real>, b: seq<real>)
    ensures Sum(a + b) == Sum(a) + Sum(b)
  {
    if a == [] {
      assert a + b == b;
    } else {
      assert (a + b)[1..] == a[1..] + b;
      SumAppend(a[1..], b);
    }
  }

  /** Taking one score out of the list takes it out of the sum. */
  lemma SumRemoveAt(b: seq<real>, i: nat)
    requires i < |b|
    ensures Sum(b) == b[i] + Sum(b[..i] + b[i + 1..])
  {
    var left, right := b[..i], b[i + 1..];
    var tail := [b[i]] + right;
    assert b == left + tail;
    SumAppend(left, tail);
    assert tail[1..] == right;
    SumAppend(left, right);
  }

  lemma MultisetRemoveAt(a: seq<real>, b: seq<real>, i: nat)
    requires |a| > 0 && i < |b| && b[i] == a[0]
    requires multiset(a) == multiset(b)
    ensures multiset(a[1..]) == multiset(b[..i] + b[i + 1..])
  {
    var x := a[0];
    assert b == b[..i] + [x] + b[i + 1..];
    assert a == [x] + a[1..];
    assert multiset(a[1..]) == multiset(a) - multiset([x]);
    assert multiset(b[..i] + b[i + 1..]) == multiset(b) - multiset([x]);
  }

  /** The sum, and so the mean, does not depend on the order of the scores. */
  lemma {:induction false} SumPermutation(a: seq<real>, b: seq<real>)
    requires multiset(a) == multiset(b)
    ensures Sum(a) == Sum(b)
    decreases |a|
  {
    if a == [] {
      assert |b| == |multiset(b)| == 0;
    } else {
      assert a[0] in multiset(b);
      var i :| 0 <= i < |b| && b[i] == a[0];
      MultisetRemoveAt(a, b, i);
      SumPermutation(a[1..], b[..i] + b[i + 1..]);
      SumRemoveAt(b, i);
    }
  }

  /** Reordering the scores does not change the verdict. */
  lemma AggregateOrderIndependent(a: seq<real>, b: seq<real>)
    requires multiset(a) == multiset(b)
    ensures Aggregate(a) == Aggregate(b)
  {
    SumPermutation(a, b);
    assert |a| == |multiset(a)| == |multiset(b)| == |b|;
  }

  lemma {:induction false} SumBounds(s: seq<real>, lo: real, hi: real)
    requires forall i :: 0 <= i < |s| ==> lo <= s[i] <= hi
    ensures (|s| as real) * lo <= Sum(s) <= (|s| as real) * hi
  {
    if s != [] {
      SumBounds(s[1..], lo, hi);
    }
  }

  /** The mean lies within any bounds that hold for every score. */
  lemma MeanBetween(s: seq<real>, lo: real, hi: real)
    requires |s| > 0
    requires forall i :: 0 <= i < |s| ==> lo <= s[i] <= hi
    ensures lo <= Mean(s) <= hi
  {
    SumBounds(s, lo, hi);
    var n := |s| as real;
    ScaleCancel(lo, Mean(s), n);
    ScaleCancel(Mean(s), hi, n);
  }

  lemma ScaleCancel(a: real, b: real, n: real)
    requires n > 0.0 && a * n <= b * n
    ensures a <= b
  {
  }

  /** The smallest and largest of a non-empty score list. */
  function Min(s: seq<real>): (m: real)
    requires |s| > 0
    ensures m in s
    ensures forall i :: 0 <= i < |s| ==> m <= s[i]
  {
    if |s| == 1 then s[0]
    else
      var r := Min(s[1..]);
      if s[0] <= r then s[0] else r
  }

  function Max(s: seq<real>): (m: real)
    requires |s| > 0
    ensures m in s
    ensures forall i :: 0 <= i < |s| ==> s[i] <= m
  {
    if |s| == 1 then s[0]
    else
      var r := Max(s[1..]);
      if s[0] >= r then s[0] else r
  }

  /** The mean lies between the minimum and the maximum score. */
  lemma MeanBetweenMinMax(s: seq<real>)
    requires |s| > 0
    ensures Min(s) <= Mean(s) <= Max(s)
  {
    MeanBetween(s, Min(s), Max(s));
  }

  /** When every score is in [0, 1], so is the aggregated confidence. */
  lemma AggregateInUnitInterval(preds: seq<real>)
    requires forall i :: 0 <= i < |preds| ==> 0.0 <= preds[i] <= 1.0
    ensures 0.0 <= Aggregate(preds).score <= 1.0
  {
    if preds != [] {
      MeanBetween(preds, 0.0, 1.0);
    }
  }
}
