/**
 * The video routine `predict_video`: read frames until the first failed
 * read, keep every frame whose 1-based position is a multiple of
 * `frame_skip`, score each non-empty face crop (or the whole frame when no
 * detector is loaded) and reduce the scores to a verdict.
 */
module Video {
  import opened Results
  import opened Imaging
  import opened Scores
  import opened Sampling

  /** The face detector: for one frame, a list of results, each holding boxes. */
  type Detector = Frame -> seq<seq<Box>>

  /** What the inference code calls but does not define: `classify` is the
      MesoNet score of a tensor, `detect` the YOLO face detector when one is
      loaded, `resize` OpenCV's resize to 256 × 256. */
  datatype Inference = Inference(classify: Tensor -> real, detect: Option<Detector>, resize: Frame -> Frame)

  /** The frame_skip the upload route uses. */
  const DefaultFrameSkip: int := 10

  /** `int(pos) % frame_skip` with `frame_skip == 0` raises. */
  datatype VideoError = ZeroDivisionError

  /** `preprocess_face`: resize, then divide every channel value by 255. */
  function Preprocess(face: Frame, inf: Inference): (t: Tensor)
    ensures InUnitRange(t)
  {
    NormalizeImage(inf.resize(face))
  }

  /** The classifier's score for one face (or whole frame). */
  function Score(face: Frame, inf: Inference): (s: real)
    ensures UnitClassifier(inf) ==> 0.0 <= s <= 1.0
  {
    inf.classify(Preprocess(face, inf))
  }

  /** A box is scored exactly when its crop is not empty, that is, when its
      truncated and clamped corners span at least one column and one row. */
  function Kept(f: Frame, b: Box): (k: bool)
    ensures k <==>
      SliceBound(Trunc(b.x1), f.width) < SliceBound(Trunc(b.x2), f.width) &&
      SliceBound(Trunc(b.y1), |f.rows|) < SliceBound(Trunc(b.y2), |f.rows|)
  {
    CropEmptyIffBounds(f, Trunc(b.x1), Trunc(b.y1), Trunc(b.x2), Trunc(b.y2));
    CropBox(f, b).Size() != 0
  }

  /** The scores appended for the boxes of one detector result, in box order. */
  function BoxPredictions(f: Frame, boxes: seq<Box>, inf: Inference): (ps: seq<real>)
    ensures |ps| <= |boxes|
  {
    if boxes == [] then []
    else
      var b := boxes[|boxes| - 1];
      BoxPredictions(f, boxes[..|boxes| - 1], inf) + (if Kept(f, b) then [Score(CropBox(f, b), inf)] else [])
  }

  /** A frame's boxes give no score exactly when every crop is empty. */
  lemma {:induction false} BoxPredictionsEmptyIff(f: Frame, boxes: seq<Box>, inf: Inference)
    ensures BoxPredictions(f, boxes, inf) == [] <==> forall k :: 0 <= k < |boxes| ==> !Kept(f, boxes[k])
  {
    if boxes != [] {
      var init := boxes[..|boxes| - 1];
      BoxPredictionsEmptyIff(f, init, inf);
      assert forall k :: 0 <= k < |init| ==> init[k] == boxes[k];
    }
  }

  /** Scores come out in box order: the scores of a concatenation of box
      lists are the concatenation of their scores. */
  lemma {:induction false} BoxPredictionsAppend(f: Frame, a: seq<Box>, b: seq<Box>, inf: Inference)
    ensures BoxPredictions(f, a + b, inf) == BoxPredictions(f, a, inf) + BoxPredictions(f, b, inf)
    decreases |b|
  {
    if b == [] {
      assert a + b == a;
    } else {
      var last := b[|b| - 1];
      assert (a + b)[..|a + b| - 1] == a + b[..|b| - 1];
      BoxPredictionsAppend(f, a, b[..|b| - 1], inf);
    }
  }

  /** One box contributes exactly one score when its crop is non-empty and none otherwise. */
  lemma BoxPredictionsSingle(f: Frame, b: Box, inf: Inference)
    ensures BoxPredictions(f, [b], inf) == if Kept(f, b) then [Score(CropBox(f, b), inf)] else []
  {
  }

  function TotalBoxes(results: seq<seq<Box>>): nat {
    if results == [] then 0 else TotalBoxes(results[..|results| - 1]) + |results[|results| - 1]|
  }

  /** The scores appended for all detector results of one frame. */
  function ResultsPredictions(f: Frame, results: seq<seq<Box>>, inf: Inference): (ps: seq<real>)
    ensures |ps| <= TotalBoxes(results)
  {
    if results == [] then []
    else ResultsPredictions(f, results[..|results| - 1], inf) + BoxPredictions(f, results[|results| - 1], inf)
  }

  /** All results of a frame give no score exactly when every crop is empty. */
  lemma {:induction false} ResultsPredictionsEmptyIff(f: Frame, results: seq<seq<Box>>, inf: Inference)
    ensures ResultsPredictions(f, results, inf) == [] <==>
      forall r, k :: 0 <= r < |results| && 0 <= k < |results[r]| ==> !Kept(f, results[r][k])
  {
    if results != [] {
      var init := results[..|results| - 1];
      ResultsPredictionsEmptyIff(f, init, inf);
      BoxPredictionsEmptyIff(f, results[|results| - 1], inf);
      assert forall r :: 0 <= r < |init| ==> init[r] == results[r];
    }
  }

  lemma ResultsPredictionsStep(f: Frame, results: seq<seq<Box>>, i: nat, inf: Inference)
    requires i < |results|
    ensures ResultsPredictions(f, results[..i + 1], inf) ==
      ResultsPredictions(f, results[..i], inf) + BoxPredictions(f, results[i], inf)
  {
    assert results[..i + 1][..i] == results[..i];
  }

  /** The scores appended for one kept frame. */
  function FramePredictions(f: Frame, inf: Inference): (ps: seq<real>)
    ensures inf.detect.None? ==> ps == [Score(f, inf)]
    ensures inf.detect.Some? ==> |ps| <= TotalBoxes(inf.detect.value(f))
  {
    match inf.detect
    case None => [Score(f, inf)]
    case Some(detect) => ResultsPredictions(f, detect(f), inf)
  }

  /** The score list after the first n frames have been read. */
  function VideoPredictions(frames: seq<Frame>, n: nat, frameSkip: int, inf: Inference): (ps: seq<real>)
    requires frameSkip != 0 && n <= |frames|
    ensures inf.detect.None? ==> |ps| <= n
  {
    if n == 0 then []
    else
      VideoPredictions(frames, n - 1, frameSkip, inf) +
      (if Sampled(n, frameSkip) then FramePredictions(frames[n - 1], inf) else [])
  }

  /** What `predict_video` returns for a source: the ZeroDivisionError raised
      at the first frame read when frame_skip is 0, otherwise the aggregated
      scores of the kept frames. */
  function PredictVideoSpec(source: seq<Option<Frame>>, frameSkip: int, inf: Inference): (r: Result<Verdict, VideoError>)
    ensures r.Failure? <==> frameSkip == 0 && ReadableFrames(source) != []
    ensures ReadableFrames(source) == [] ==> r == Success(Verdict(NoFaceDetected, 0.0))
  {
    var frames := ReadableFrames(source);
    if frames == [] then Success(Aggregate([]))
    else if frameSkip == 0 then Failure(ZeroDivisionError)
    else Success(Aggregate(VideoPredictions(frames, |frames|, frameSkip, inf)))
  }

  /** Without a detector every kept frame adds exactly one score: of n
      frames read, n / |frame_skip| are scored, namely the frames at the kept
      positions |frame_skip|, 2 |frame_skip|, ... (see SampledPositions), in order. */
  lemma {:induction false} NoDetectorOnePerSample(frames: seq<Frame>, n: nat, frameSkip: int, inf: Inference)
    requires frameSkip != 0 && n <= |frames| && inf.detect.None?
    ensures var ps, ks := VideoPredictions(frames, n, frameSkip, inf), SampledPositions(n, frameSkip);
      |ps| == |ks| && forall i :: 0 <= i < |ps| ==> ps[i] == Score(frames[ks[i] - 1], inf)
  {
    if n > 0 {
      NoDetectorOnePerSample(frames, n - 1, frameSkip, inf);
    }
  }

  /** The scores of the frames at the given 1-based positions, in order. */
  function ScoresAt(frames: seq<Frame>, ks: seq<nat>, inf: Inference): seq<real> {
    if ks == [] then []
    else
      var k := ks[|ks| - 1];
      ScoresAt(frames, ks[..|ks| - 1], inf) + (if 0 < k <= |frames| then FramePredictions(frames[k - 1], inf) else [])
  }

  /** In either mode, the score list is the concatenation of what each kept
      frame adds, taken at the kept positions |frame_skip|, 2 |frame_skip|, ...
      in order. */
  lemma {:induction false} SampledFramesOnly(frames: seq<Frame>, n: nat, frameSkip: int, inf: Inference)
    requires frameSkip != 0 && n <= |frames|
    ensures VideoPredictions(frames, n, frameSkip, inf) == ScoresAt(frames, SampledPositions(n, frameSkip), inf)
  {
    if n > 0 {
      SampledFramesOnly(frames, n - 1, frameSkip, inf);
      SampledFramesStep(frames, n, frameSkip, inf);
    } else {
      assert SampledPositions(0, frameSkip) == [];
    }
  }

  /** One more frame read keeps the two sides of SampledFramesOnly equal. */
  lemma SampledFramesStep(frames: seq<Frame>, n: nat, frameSkip: int, inf: Inference)
    requires frameSkip != 0 && 0 < n <= |frames|
    requires VideoPredictions(frames, n - 1, frameSkip, inf) == ScoresAt(frames, SampledPositions(n - 1, frameSkip), inf)
    ensures VideoPredictions(frames, n, frameSkip, inf) == ScoresAt(frames, SampledPositions(n, frameSkip), inf)
  {
    VideoPredictionsStep(frames, n, frameSkip, inf);
    SampledPositionsStep(n, frameSkip);
    ScoresAtStep(frames, SampledPositions(n - 1, frameSkip), n, Sampled(n, frameSkip), inf);
  }

  /** Reading frame n appends that frame's scores exactly when it is kept. */
  lemma VideoPredictionsStep(frames: seq<Frame>, n: nat, frameSkip: int, inf: Inference)
    requires frameSkip != 0 && 0 < n <= |frames|
    ensures VideoPredictions(frames, n, frameSkip, inf) ==
      VideoPredictions(frames, n - 1, frameSkip, inf) + (if Sampled(n, frameSkip) then FramePredictions(frames[n - 1], inf) else [])
  {
  }

  /** Adding position k to the list (when `kept`) appends the scores of frame k. */
  lemma ScoresAtStep(frames: seq<Frame>, ks: seq<nat>, k: nat, kept: bool, inf: Inference)
    requires 0 < k <= |frames|
    ensures ScoresAt(frames, ks + (if kept then [k] else []), inf) ==
      ScoresAt(frames, ks, inf) + (if kept then FramePredictions(frames[k - 1], inf) else [])
  {
    var ks' := ks + (if kept then [k] else []);
    if kept {
      assert ks'[..|ks|] == ks && ks'[|ks|] == k;
    } else {
      assert ks' == ks;
    }
  }

  /** Without a detector, of n frames read exactly n / |frame_skip| are scored. */
  lemma NoDetectorScoreCount(frames: seq<Frame>, n: nat, frameSkip: int, inf: Inference)
    requires frameSkip != 0 && n <= |frames| && inf.detect.None?
    ensures |VideoPredictions(frames, n, frameSkip, inf)| == n / Abs(frameSkip)
  {
    NoDetectorOnePerSample(frames, n, frameSkip, inf);
  }

  /** A position below |frame_skip| is never kept. */
  lemma NotSampledBelowSkip(k: int, frameSkip: int)
    requires frameSkip != 0 && 0 < k < Abs(frameSkip)
    ensures !Sampled(k, frameSkip)
  {
  }

  lemma {:induction false} NothingBeforeFirstSample(frames: seq<Frame>, n: nat, frameSkip: int, inf: Inference)
    requires frameSkip != 0 && n <= |frames| && n < Abs(frameSkip)
    ensures VideoPredictions(frames, n, frameSkip, inf) == []
  {
    if n > 0 {
      NotSampledBelowSkip(n, frameSkip);
      NothingBeforeFirstSample(frames, n - 1, frameSkip, inf);
    }
  }

  /** The verdict when no score was produced. */
  const NoFace: Verdict := Verdict(NoFaceDetected, 0.0)

  /** A video with fewer readable frames than |frame_skip| gives "No face
      detected", with or without a detector. */
  lemma ShortVideoNoFace(source: seq<Option<Frame>>, frameSkip: int, inf: Inference)
    requires frameSkip != 0 && |ReadableFrames(source)| < Abs(frameSkip)
    ensures PredictVideoSpec(source, frameSkip, inf) == Success(NoFace)
  {
    var frames := ReadableFrames(source);
    NothingBeforeFirstSample(frames, |frames|, frameSkip, inf);
  }

  /** No box of any detector result has a non-empty crop (or no box is returned). */
  predicate NoFaceCrops(frames: seq<Frame>, detect: Detector) {
    forall i, r, k :: 0 <= i < |frames| && 0 <= r < |detect(frames[i])| && 0 <= k < |detect(frames[i])[r]| ==>
      !Kept(frames[i], detect(frames[i])[r][k])
  }

  lemma {:induction false} NoFaceCropsNoScores(frames: seq<Frame>, n: nat, frameSkip: int, inf: Inference)
    requires frameSkip != 0 && n <= |frames| && inf.detect.Some? && NoFaceCrops(frames, inf.detect.value)
    ensures VideoPredictions(frames, n, frameSkip, inf) == []
  {
    if n > 0 {
      NoFaceCropsNoScores(frames, n - 1, frameSkip, inf);
      ResultsPredictionsEmptyIff(frames[n - 1], inf.detect.value(frames[n - 1]), inf);
    }
  }

  /** With a detector, a video in which no box yields a non-empty crop
      gives "No face detected" (unless frame_skip 0 raises first). */
  lemma NoFaceCropsNoFace(source: seq<Option<Frame>>, frameSkip: int, inf: Inference)
    requires frameSkip != 0 && inf.detect.Some? && NoFaceCrops(ReadableFrames(source), inf.detect.value)
    ensures PredictVideoSpec(source, frameSkip, inf) == Success(NoFace)
  {
    var frames := ReadableFrames(source);
    NoFaceCropsNoScores(frames, |frames|, frameSkip, inf);
  }

  /** frame_skip 0 raises exactly when at least one frame can be read. */
  lemma ZeroSkipRaisesIffReadable(source: seq<Option<Frame>>, inf: Inference)
    ensures PredictVideoSpec(source, 0, inf).Failure? <==> |source| > 0 && source[0].Some?
  {
  }

  /** Reading stops at the first failed read: what follows it never matters. */
  lemma PredictVideoStopsAtFirstFailure(s1: seq<Option<Frame>>, s2: seq<Option<Frame>>, i: nat, frameSkip: int, inf: Inference)
    requires i < |s1| && i < |s2| && s1[..i + 1] == s2[..i + 1] && s1[i].None?
    ensures PredictVideoSpec(s1, frameSkip, inf) == PredictVideoSpec(s2, frameSkip, inf)
  {
    StopsAtFirstFailure(s1, s2, i);
  }

  /** Every score in a list lies in [0, 1]. */
  predicate UnitScores(ps: seq<real>) {
    forall i :: 0 <= i < |ps| ==> 0.0 <= ps[i] <= 1.0
  }

  /** The classifier only ever returns values in [0, 1]. */
  ghost predicate UnitClassifier(inf: Inference) {
    forall t :: 0.0 <= inf.classify(t) <= 1.0
  }

  lemma UnitScoresAppend(a: seq<real>, b: seq<real>)
    requires UnitScores(a) && UnitScores(b)
    ensures UnitScores(a + b)
  {
    forall i | 0 <= i < |a + b| ensures 0.0 <= (a + b)[i] <= 1.0 {
      if i < |a| { assert (a + b)[i] == a[i]; } else { assert (a + b)[i] == b[i - |a|]; }
    }
  }

  /** When the classifier's scores lie in [0, 1], so does the returned confidence. */
  lemma PredictVideoScoreInUnitInterval(source: seq<Option<Frame>>, frameSkip: int, inf: Inference)
    requires UnitClassifier(inf)
    requires PredictVideoSpec(source, frameSkip, inf).Success?
    ensures 0.0 <= PredictVideoSpec(source, frameSkip, inf).value.score <= 1.0
  {
    var frames := ReadableFrames(source);
    if frames != [] {
      VideoScoresInUnitInterval(frames, |frames|, frameSkip, inf);
      AggregateInUnitInterval(VideoPredictions(frames, |frames|, frameSkip, inf));
    }
  }

  lemma {:induction false} VideoScoresInUnitInterval(frames: seq<Frame>, n: nat, frameSkip: int, inf: Inference)
    requires frameSkip != 0 && n <= |frames| && UnitClassifier(inf)
    ensures UnitScores(VideoPredictions(frames, n, frameSkip, inf))
  {
    if n > 0 {
      VideoScoresInUnitInterval(frames, n - 1, frameSkip, inf);
      var f := frames[n - 1];
      if inf.detect.Some? {
        ResultScoresInUnitInterval(f, inf.detect.value(f), inf);
      } else {
        assert 0.0 <= inf.classify(Preprocess(f, inf)) <= 1.0;
      }
      UnitScoresAppend(VideoPredictions(frames, n - 1, frameSkip, inf),
                       if Sampled(n, frameSkip) then FramePredictions(f, inf) else []);
    }
  }

  lemma {:induction false} ResultScoresInUnitInterval(f: Frame, results: seq<seq<Box>>, inf: Inference)
    requires UnitClassifier(inf)
    ensures UnitScores(ResultsPredictions(f, results, inf))
  {
    if results != [] {
      ResultScoresInUnitInterval(f, results[..|results| - 1], inf);
      BoxScoresInUnitInterval(f, results[|results| - 1], inf);
      UnitScoresAppend(ResultsPredictions(f, results[..|results| - 1], inf),
                       BoxPredictions(f, results[|results| - 1], inf));
    }
  }

  lemma {:induction false} BoxScoresInUnitInterval(f: Frame, boxes: seq<Box>, inf: Inference)
    requires UnitClassifier(inf)
    ensures UnitScores(BoxPredictions(f, boxes, inf))
  {
    if boxes != [] {
      var b := boxes[|boxes| - 1];
      BoxScoresInUnitInterval(f, boxes[..|boxes| - 1], inf);
      assert 0.0 <= inf.classify(Preprocess(CropBox(f, b), inf)) <= 1.0;
      UnitScoresAppend(BoxPredictions(f, boxes[..|boxes| - 1], inf),
                       if Kept(f, b) then [Score(CropBox(f, b), inf)] else []);
    }
  }

  /** `cv2.VideoCapture` over a source; `pos` is CAP_PROP_POS_FRAMES, the
      number of frames read so far. */
  class Capture {
    const source: seq<Option<Frame>>
    var pos: nat

    constructor (source: seq<Option<Frame>>)
      ensures this.source == source && pos == 0
    {
      this.source := source;
      pos := 0;
    }

    /** `cap.read()`: the next frame, or `None` once reading fails (past the
        end of the source too); a successful read advances the position. */
    method Read() returns (frame: Option<Frame>)
      modifies this
      ensures frame == if old(pos) < |source| then source[old(pos)] else None
      ensures pos == if frame.Some? then old(pos) + 1 else old(pos)
    {
      frame := if pos < |source| then source[pos] else None;
      if frame.Some? {
        pos := pos + 1;
      }
    }
  }

  /** `predict_video(video_path, meso_model, yolo_model, frame_skip)`. */
  method PredictVideo(source: seq<Option<Frame>>, inf: Inference, frameSkip: int) returns (r: Result<Verdict, VideoError>)
    ensures r == PredictVideoSpec(source, frameSkip, inf)
  {
    var cap := new Capture(source);
    var predictions: seq<real> := [];
    ghost var frames := ReadableFrames(source);
    while true
      invariant cap.source == source && cap.pos <= |frames|
      invariant frameSkip == 0 ==> cap.pos == 0 && predictions == []
      invariant frameSkip != 0 ==> predictions == VideoPredictions(frames, cap.pos, frameSkip, inf)
      decreases |source| - cap.pos
    {
      var read := cap.Read();
      if read.None? {
        break;
      }
      var frame := read.value;
      assert frame == frames[cap.pos - 1];
      if frameSkip == 0 {
        return Failure(ZeroDivisionError);
      }
      if PyMod(cap.pos, frameSkip) != 0 {
        continue;
      }
      predictions := AppendFramePredictions(predictions, frame, inf);
    }
    r := Success(Aggregate(predictions));
  }

  /** The body of the loop for one kept frame: in detector mode, go through
      the boxes of every result; without a detector, append the whole frame's
      score. */
  method AppendFramePredictions(predictions: seq<real>, frame: Frame, inf: Inference) returns (out: seq<real>)
    ensures out == predictions + FramePredictions(frame, inf)
  {
    if inf.detect.None? {
      var pred := inf.classify(Preprocess(frame, inf));
      return predictions + [pred];
    }
    var results := inf.detect.value(frame);
    out := predictions;
    for i := 0 to |results|
      invariant out == predictions + ResultsPredictions(frame, results[..i], inf)
    {
      ghost var done := ResultsPredictions(frame, results[..i], inf);
      out := AppendBoxPredictions(out, frame, results[i], inf);
      ResultsPredictionsStep(frame, results, i, inf);
      assert out == predictions + (done + BoxPredictions(frame, results[i], inf));
    }
    assert results[..|results|] == results;
  }

  /** The innermost loop: crop every box, skip an empty crop, and append the
      score of every other. */
  method AppendBoxPredictions(predictions: seq<real>, frame: Frame, boxes: seq<Box>, inf: Inference) returns (out: seq<real>)
    ensures out == predictions + BoxPredictions(frame, boxes, inf)
  {
    out := predictions;
    for j := 0 to |boxes|
      invariant out == predictions + BoxPredictions(frame, boxes[..j], inf)
    {
      var face := CropBox(frame, boxes[j]);
      assert boxes[..j + 1][..j] == boxes[..j];
      if face.Size() == 0 {
        continue;
      }
      var pred := inf.classify(Preprocess(face, inf));
      out := out + [pred];
    }
    assert boxes[..|boxes|] == boxes;
  }
}
