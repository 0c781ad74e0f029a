# Deepfake detector inference, modelled in Dafny

This project models the inference core of the Deepfake-Detector web app
(`main.py`): how an uploaded file is classified as `Real`, `DeepFake` or
`No face detected`.

- **Video routine (`predict_video`).** Frames are read until the first failed
  read. A frame is kept when its 1-based decoder position is a multiple of
  `frame_skip` under Python's `%`. For every kept frame, each YOLO face box is
  truncated with `int()`, cropped with numpy slice semantics and, when the crop
  is non-empty, scored by the MesoNet classifier. With no detector, the whole
  frame is scored once. An empty score list gives `("No face detected", 0.0)`.
  Otherwise the mean score is returned, labelled `Real` exactly when it is at
  least 0.5.
- **Dispatch and still images (`predict`).** The lower-cased extension from
  `os.path.splitext` picks the video routine for `.mp4/.avi/.mov/.mkv`.
  Anything else is scored once as a whole image, with the same inclusive 0.5
  threshold.
- **Normalisation (`preprocess_face` and the image path).** Each 8-bit value
  is divided by 255.
- **`load_models`.** Two global model slots. Both are reloaded when either is
  empty; otherwise the cached pair is returned.

The learned models and OpenCV's resize are not modelled. They are
function-typed parameters bundled in `Video.Inference`: `classify` (tensor to
real), `detect` (frame to a list of results, each a list of float boxes;
`None` when no detector is loaded) and `resize`. The video file is the
sequence of `cap.read()` outcomes, `seq<Option<Frame>>`, where `None` is a
failed read; reads past its end fail.

Modules, one per file: `Results` (Option/Result), `Imaging` (pixels, frames,
normalisation, truncation, slicing, crop), `Scores` (sum, mean, labels,
aggregation), `Sampling` (Python `%`, kept positions, readable prefix),
`Video` (`Capture` decoder class, `PredictVideo` and its specification),
`Dispatch` (splitext, kind check, `Predict`) and `Registry` (`load_models`).

`Video.PredictVideo` is the imperative loop (`while true` with `break` and
`continue`, a `Capture` object whose position advances on each successful read, and
nested `for` loops appending to the score list). It is proved equal to the
functional specification `Video.PredictVideoSpec`, and the lemmas state the
properties in the table below about that specification. The loop carries a `decreases`
clause, so it terminates for every finite source.

Behaviours of the code worth knowing, all captured by the model:

- The frames kept are the 0-based frames `N-1, 2N-1, …`, i.e. 1-based
  positions `N, 2N, …` (`N = |frame_skip|`), not the first frame. A video with
  fewer than `N` readable frames therefore gives `No face detected`, in
  no-detector mode too.
- `frame_skip == 0` is not rejected up front. It raises `ZeroDivisionError`
  at the first successful read, so an unreadable or empty video still returns
  `No face detected`. A negative `frame_skip` behaves like its absolute value.
- Nothing marks a result as partial. A failed read simply ends the video.
- The `predict` route calls `load_models()` before `predict_video`, and `load_models`
  never leaves the detector slot empty, so from `predict` the video routine
  always runs in detector mode. The no-detector mode (`Video.Inference` with
  `detect == None`) is reachable only by calling `predict_video` directly.
  `Dispatch.Predict` takes any `Inference` and is not linked to
  `Registry.ModelSlots`.

## Model

| member | source | states |
|---|---|---|
| `Video.PredictVideo` | main.py:37-72 | the reading loop, the sampling test, the per-box/per-frame appends and the final reduction return exactly `PredictVideoSpec` of the source (a `ZeroDivisionError` failure, or the aggregated verdict of the kept frames' scores) |
| `Video.AppendFramePredictions` | main.py:49-63 | one kept frame appends the whole-frame score without a detector, or the scores of all detector results in result order with one |
| `Video.PredictVideoSpec` | main.py:37-72 | the reference result of `predict_video`: a `ZeroDivisionError` exactly when frame_skip is 0 and some frame can be read; an empty or unreadable video gives exactly ("No face detected", 0.0) |
| `Video.VideoPredictions` | main.py:41-63 | the score list after n frames are read; without a detector it holds at most one score per frame read |
| `Video.Score` | main.py:57-62 | the classifier's score of the preprocessed crop or frame, in [0, 1] whenever the classifier's scores are |
| `Video.Kept` | main.py:53-55 | a box is scored exactly when its truncated, clamped x-bounds span at least one column and its y-bounds at least one row |
| `Video.AppendBoxPredictions` | main.py:51-59 | the inner box loop appends exactly the scores of the boxes whose crop is non-empty, in box order |
| `Video.Capture.Read` | main.py:42 | `cap.read()` yields the next frame of the source or a failed read (also past its end); only a successful read advances the decoder position |
| `Video.Capture.constructor` | main.py:38 | a fresh capture starts at position 0 over the given source |
| `Video.Preprocess` | main.py:31-34 | every entry of the classifier input (the resized crop divided by 255) is in [0, 1] |
| `Video.BoxPredictions` | main.py:51-59 | a box list yields at most one score per box |
| `Video.BoxPredictionsEmptyIff` | main.py:52-56 | the boxes of a result yield no score exactly when every crop is empty |
| `Video.BoxPredictionsAppend` | main.py:52-59 | scores keep box order: the scores of a concatenation of box lists are the concatenation of their scores |
| `Video.BoxPredictionsSingle` | main.py:53-59 | one box adds exactly one score, its crop's, when the crop is non-empty and none otherwise |
| `Video.ResultsPredictions` | main.py:51-59 | a frame's detector results yield at most one score per returned box |
| `Video.ResultsPredictionsEmptyIff` | main.py:51-56 | all results of a frame yield no score exactly when no box has a non-empty crop |
| `Video.ResultsPredictionsStep` | main.py:51-52 | processing one more result appends that result's box scores |
| `Video.FramePredictions` | main.py:49-63 | without a detector a kept frame adds exactly its whole-frame score; with one, at most one score per box |
| `Video.NoDetectorOnePerSample` | main.py:46-47 | without a detector, the scores are those of the frames at the kept positions, one per kept frame, in order |
| `Video.SampledFramesOnly` | main.py:41-63 | in either mode, the score list is the concatenation of what each kept frame adds (`ScoresAt`), over the kept positions in order |
| `Video.ScoresAtStep` | main.py:46-63 | adding a kept position to the list appends exactly that frame's scores; adding nothing appends nothing |
| `Video.NoDetectorScoreCount` | main.py:60-63 | without a detector, of n frames read exactly n / \|frame_skip\| are scored |
| `Video.NotSampledBelowSkip` | main.py:46-47 | no position between 1 and \|frame_skip\| - 1 is kept |
| `Video.NothingBeforeFirstSample` | main.py:41-47 | fewer than \|frame_skip\| frames read gives an empty score list |
| `Video.ShortVideoNoFace` | main.py:67-72 | a video with fewer readable frames than \|frame_skip\| returns exactly ("No face detected", 0.0), in either mode |
| `Video.NoFaceCropsNoScores` | main.py:49-59 | if no box of any frame has a non-empty crop, no score is appended |
| `Video.NoFaceCropsNoFace` | main.py:49-72 | with a detector, a video where every box crop is empty (or no box is returned) returns exactly ("No face detected", 0.0) |
| `Video.ZeroSkipRaisesIffReadable` | main.py:41-47 | frame_skip 0 raises exactly when the first read succeeds |
| `Video.PredictVideoStopsAtFirstFailure` | main.py:41-44 | nothing after the first failed read affects the result |
| `Video.PredictVideoScoreInUnitInterval` | main.py:67-72 | when the classifier's scores lie in [0, 1], the returned confidence does too |
| `Video.VideoScoresInUnitInterval` | main.py:41-63 | a classifier with scores in [0, 1] gives a score list within [0, 1] |
| `Video.ResultScoresInUnitInterval` | main.py:51-59 | the same for the scores of one frame's results |
| `Video.BoxScoresInUnitInterval` | main.py:52-59 | the same for the scores of one result's boxes |
| `Sampling.Sampled` | main.py:46-47 | position k is kept (`k % frame_skip == 0` under Python's `%`) exactly when k is a multiple of \|frame_skip\| |
| `Sampling.ReadableFrames` | main.py:41-44 | the frames read are exactly the source's values before its first failed read (or its end) |
| `Sampling.StopsAtFirstFailure` | main.py:41-44 | two sources that agree up to and including a failed read yield the same frames |
| `Sampling.PyMod` | main.py:46 | Python's `%`: the remainder has the divisor's sign and is smaller than it in magnitude |
| `Sampling.PyModZeroIff` | main.py:46 | Python's remainder is zero exactly when the Euclidean one is, for either sign of the divisor |
| `Sampling.SampledPositions` | main.py:46-47 | of the first n positions, n / \|frame_skip\| are kept: the i-th kept one is (i + 1)·\|frame_skip\|, within 1..n |
| `Sampling.ShortPrefixKeepsNothing` | main.py:46-47 | fewer than \|frame_skip\| positions keep none |
| `Scores.Mean` | main.py:68 | the mean times the number of scores is their sum |
| `Scores.Decide` | main.py:69 | the label is Real exactly when the score is at least 0.5 (so 0.5 is Real), otherwise DeepFake |
| `Scores.Aggregate` | main.py:67-72 | an empty list gives exactly ("No face detected", 0.0); otherwise the confidence times the count is the sum of the scores, and the label is Real exactly when that sum is at least 0.5 × the count |
| `Scores.AggregateOrderIndependent` | main.py:67-70 | any reordering of the scores gives the same verdict |
| `Scores.SumPermutation` | main.py:68 | the sum of the scores does not depend on their order |
| `Scores.MeanBetween` | main.py:68 | the mean lies within any bounds every score satisfies |
| `Scores.MeanBetweenMinMax` | main.py:68 | the mean lies between the smallest and the largest score |
| `Scores.AggregateInUnitInterval` | main.py:67-72 | scores in [0, 1] give a confidence in [0, 1] |
| `Scores.ImageVerdict` | main.py:115-116 | the image verdict keeps the score, is never "No face detected", and is Real exactly when the score is at least 0.5 |
| `Scores.ImageVerdictIsSingletonAggregate` | main.py:116 | the image decision equals the video reduction of a single score |
| `Imaging.Normalize` | main.py:33 | a channel value maps into [0, 1], 0 to 0 and 255 to 1, and multiplying back by 255 recovers it |
| `Imaging.NormalizeImage` | main.py:112 | normalising an image keeps its shape, every entry times 255 is the original value, and every entry is in [0, 1] |
| `Imaging.Trunc` | main.py:53 | `int()` on a float truncates toward zero: it moves the value less than 1 toward zero and keeps its sign |
| `Imaging.SliceBound` | main.py:54 | an in-range bound is kept, a negative bound counts from the end, a bound past the end becomes the axis length and one before the start becomes 0 |
| `Imaging.SliceLength` | main.py:54 | the slice runs from the normalised lower to the normalised upper bound, never past the axis end, and is empty exactly when the upper bound does not exceed the lower |
| `Imaging.Crop` | main.py:54 | `frame[y1:y2, x1:x2]` has the normalised slice lengths as its size, and every crop pixel is the frame pixel at the normalised offset |
| `Imaging.CropBox` | main.py:53-54 | the face of a box is the slice of the frame at its `int()`-truncated corners: its size is the slice lengths of the truncated bounds, and each face pixel is the frame pixel at the normalised offset |
| `Imaging.CropEmptyIff` | main.py:55 | a crop's `size` is 0 exactly when it has no rows or no columns |
| `Imaging.CropEmptyIffBounds` | main.py:54-55 | for any coordinates, including negative ones and ones past the frame edge, the crop is empty exactly when a normalised upper bound does not exceed its lower bound |
| `Imaging.InBoundsCropEmptyIff` | main.py:54-55 | for coordinates inside the frame, the crop is empty exactly when x2 <= x1 or y2 <= y1 |
| `Dispatch.SplitExt` | main.py:95 | root + extension is the name; the extension is empty or a dot followed by characters that are neither dots nor '/' |
| `Dispatch.Lower` | main.py:95 | `.lower()` keeps the length and every character that is not an upper-case ASCII letter, maps each upper-case ASCII letter to its lower-case form, and leaves no upper-case letter |
| `Dispatch.IsVideoFile` | main.py:95-100 | a name sent to the video routine has a root with a non-dot character and a four-character extension beginning with a dot |
| `Dispatch.IsVideoFileIff` | main.py:95-100 | a name is sent to the video routine exactly when it ends in .mp4/.avi/.mov/.mkv in any ASCII letter case and the base name has a non-dot character before that extension |
| `Dispatch.VideoFileHasVideoSuffix` | main.py:95-100 | a name sent to the video routine ends in a video extension with a named stem |
| `Dispatch.VideoSuffixIsVideoFile` | main.py:95-100 | a name ending in a video extension with a named stem is sent to the video routine |
| `Dispatch.VideoExtensionShape` | main.py:100 | every accepted extension is a dot and three characters that are neither dots nor '/' |
| `Dispatch.ImagePrediction` | main.py:110-116 | the still-image verdict scores the normalised image once, is Real exactly when that score is at least 0.5, and is never "No face detected" |
| `Dispatch.Predict` | main.py:95-116 | a video name gives the video routine's verdict at frame_skip 10, which never raises; any other name gives the still-image verdict |
| `Registry.ModelSlots.constructor` | main.py:13-14 | at import both slots hold freshly loaded models from meso_model.h5 and yolov8n-face.pt |
| `Registry.ModelSlots.LoadModels` | main.py:22-29 | afterwards both handles are non-null and are what the slots hold; a full cache is returned unchanged, a cache missing either model gets both freshly reloaded from their files |
| `Registry.MesoModel.Load` | main.py:27 | a loaded classifier remembers its artifact path |
| `Registry.YoloModel.Load` | main.py:28 | a loaded detector remembers its artifact path |

## Left out

- Model inference (`meso_model.predict`, `yolo_model(frame)`) and OpenCV's `cv2.resize` are learned or library code. They are the parameters in `Video.Inference`, and nothing is assumed about them except, in the [0, 1] lemmas, the classifier's range.
- Media decoding (`cv2.VideoCapture`, `kimg.load_img`, including Keras' resize to 256 × 256) is library I/O. The video is given as its sequence of read outcomes and the still image as the already-loaded frame. A file that cannot be opened behaves as an empty source. Keras' RGB and OpenCV's BGR channel order are both just three channels here.
- `cap.release()` has no observable effect in the model.
- The batch axis of `np.expand_dims` and the `[0][0]` index that takes the score back out are left out: the classifier maps one tensor to one real.
- float32 arithmetic in `astype("float32")`, `np.mean` and the division by 255, and the `:.4f` formatting of the score, are left out. Scores are exact reals.
- `Dispatch.Lower`, `Dispatch.IsVideoFileIff`: `str.lower` is modelled on ASCII letters only. Unicode case mappings (for example the Kelvin sign lower-casing to `k`) are not captured, and neither is the Windows form of `splitext` with its `\` separator.
- `Registry.ModelSlots.LoadModels`: loading is modelled as always succeeding. A missing or corrupt model file, which raises in the code, is not modelled. The handles do not carry the learned behaviour; `Video.Inference` does.
- The Flask parts of `main.py` are web plumbing: blueprint registration (line 19), the `/upload` route, session checks and saving the upload (lines 76-94), and the `render_template` calls and `app.run` (lines 102-108, 118-131). `app.py` (routes, HTML templates, user table, password hashing) is not part of this model.
- There is no partial-result flag, streaming aggregation, time budget, cancellation or concurrent model guard in the code, so none is modelled.
