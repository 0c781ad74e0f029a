/**
 * The inference part of the `/predict` route once the upload is saved: the
 * lower-cased last extension of the file name picks the video routine or a
 * single whole-image prediction.
 */
module Dispatch {
  import opened Results
  import opened Imaging
  import opened Scores
  import opened Video

  /** `str.rfind`: the index of the last occurrence of c in s, or -1. */
  function RFind(s: string, c: char): (i: int)
    ensures -1 <= i < |s|
    ensures 0 <= i ==> s[i] == c
    ensures forall k :: i < k < |s| ==> s[k] != c
  {
    if s == [] then -1
    else if s[|s| - 1] == c then |s| - 1
    else RFind(s[..|s| - 1], c)
  }

  /** `os.path.splitext` with the POSIX separator: the extension starts at the
      last dot after the last '/', unless every character of the base name
      before that dot is itself a dot (".bashrc", "..mp4"); then it is empty. */
  function SplitExt(p: string): (parts: (string, string))
    ensures parts.0 + parts.1 == p
    ensures parts.1 == [] || parts.1[0] == '.'
    ensures forall k :: 1 <= k < |parts.1| ==> parts.1[k] != '.' && parts.1[k] != '/'
    ensures parts.1 != [] ==> exists k :: 0 <= k < |parts.0| && parts.0[k] != '.'
  {
    var sep, dot := RFind(p, '/'), RFind(p, '.');
    if dot > sep && exists k :: sep < k < dot && p[k] != '.' then (p[..dot], p[dot..]) else (p, [])
  }

  /** `str.lower` on ASCII letters. */
  function LowerChar(c: char): char {
    if 'A' <= c <= 'Z' then (c as int + 32) as char else c
  }

  /** `str.lower` on a string: the same length, no upper-case ASCII letter
      left, every other character unchanged. */
  function Lower(s: string): (l: string)
    ensures |l| == |s|
    ensures forall k :: 0 <= k < |s| ==> !('A' <= l[k] <= 'Z')
    ensures forall k :: 0 <= k < |s| && !('A' <= s[k] <= 'Z') ==> l[k] == s[k]
    ensures forall k :: 0 <= k < |s| && 'A' <= s[k] <= 'Z' ==> l[k] as int == s[k] as int + 32
  {
    seq(|s|, k requires 0 <= k < |s| => LowerChar(s[k]))
  }

  /** The extensions sent to the video routine. */
  const VideoExtensions: seq<string> := [".mp4", ".avi", ".mov", ".mkv"]

  /** The route's kind check: the lower-cased extension is a video one. Such
      a name has a root with a character other than a dot and a four-character extension that begins
      with a dot. */
  function IsVideoFile(filename: string): (video: bool)
    ensures video ==> exists k :: 0 <= k < |SplitExt(filename).0| && SplitExt(filename).0[k] != '.'
    ensures video ==> |SplitExt(filename).1| == 4 && SplitExt(filename).1[0] == '.'
  {
    var ext := SplitExt(filename).1;
    if Lower(ext) in VideoExtensions then
      VideoExtensionShape(ext);
      true
    else
      false
  }

  /** A string whose lower-case form is a video extension is a dot followed
      by three characters that are neither dots nor separators. */
  lemma VideoExtensionShape(q: string)
    requires Lower(q) in VideoExtensions
    ensures |q| == 4 && q[0] == '.'
    ensures forall k :: 1 <= k < 4 ==> q[k] != '.' && q[k] != '/'
  {
    var e := Lower(q);
    assert e == ".mp4" || e == ".avi" || e == ".mov" || e == ".mkv";
    assert |e| == 4 && e[0] == '.';
    assert forall k :: 1 <= k < 4 ==> e[k] != '.' && e[k] != '/';
    assert LowerChar(q[0]) == '.';
    forall k | 1 <= k < 4 ensures q[k] != '.' && q[k] != '/' {
      assert k == 1 || k == 2 || k == 3;
      assert LowerChar(q[k]) == e[k];
    }
  }

  /** The base name has a character other than a dot before index i. */
  predicate NamedStem(p: string, i: int) {
    exists k :: RFind(p, '/') < k < i && 0 <= k < |p| && p[k] != '.'
  }

  lemma VideoFileHasVideoSuffix(p: string)
    requires IsVideoFile(p)
    ensures |p| >= 4 && Lower(p[|p| - 4..]) in VideoExtensions && NamedStem(p, |p| - 4)
  {
    VideoExtensionShape(SplitExt(p).1);
  }

  lemma VideoSuffixIsVideoFile(p: string)
    requires |p| >= 4 && Lower(p[|p| - 4..]) in VideoExtensions && NamedStem(p, |p| - 4)
    ensures IsVideoFile(p)
  {
    var n, sep, dot := |p|, RFind(p, '/'), RFind(p, '.');
    var q := p[n - 4..];
    VideoExtensionShape(q);
    assert p[n - 4] == q[0] == '.';
    assert forall k :: n - 4 < k < n ==> p[k] == q[k - (n - 4)];
    assert dot == n - 4;
    assert sep < n - 4;
    assert SplitExt(p).1 == q;
  }

  /** The kind check without `splitext`: a file goes to the video routine
      exactly when its name ends in a video extension in any letter case and
      its base name has a character other than a dot before that extension. */
  lemma IsVideoFileIff(p: string)
    ensures IsVideoFile(p) <==> |p| >= 4 && Lower(p[|p| - 4..]) in VideoExtensions && NamedStem(p, |p| - 4)
  {
    if IsVideoFile(p) {
      VideoFileHasVideoSuffix(p);
    }
    if |p| >= 4 && Lower(p[|p| - 4..]) in VideoExtensions && NamedStem(p, |p| - 4) {
      VideoSuffixIsVideoFile(p);
    }
  }

  /** The still-image path: Keras loads the file resized to 256 × 256, the
      values are divided by 255 and the one score decides. */
  function ImagePrediction(image: Frame, inf: Inference): (v: Verdict)
    ensures v.decision != NoFaceDetected
    ensures v.decision == Real <==> Threshold <= v.score
    ensures v.score == inf.classify(NormalizeImage(image))
  {
    ImageVerdict(inf.classify(NormalizeImage(image)))
  }

  /** `predict` after the upload is saved and the models are loaded: a video
      extension runs the video routine with the default frame_skip of 10,
      which never raises; any other name is scored as one image. `source` is
      what the video decoder reads from the file and `image` what the image
      loader reads from it. */
  method Predict(filename: string, source: seq<Option<Frame>>, image: Frame, inf: Inference) returns (v: Verdict)
    ensures IsVideoFile(filename) ==> PredictVideoSpec(source, DefaultFrameSkip, inf) == Success(v)
    ensures !IsVideoFile(filename) ==> v == ImagePrediction(image, inf)
  {
    var ext := Lower(SplitExt(filename).1);
    if ext in VideoExtensions {
      var r := PredictVideo(source, inf, DefaultFrameSkip);
      v := r.value;
    } else {
      var pred := inf.classify(NormalizeImage(image));
      v := ImageVerdict(pred);
    }
  }
}
