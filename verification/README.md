# Image Transformation Web App — Dafny model of the transform core

The application lets a user upload a picture and tick effects (Gaussian blur,
bilateral filter, sharpening, negative, Canny edges, sepia, pencil sketch);
each ticked effect is applied to its own copy of the uploaded image and shown.
Apart from the page wiring, the logic the application writes itself is:

- three helpers, `apply_cvt_color`, `apply_linear_transform` and
  `apply_negative_transform`, each wrapping one transform in a
  try/except that shows an error and hands back the input image;
- the sample-wise operators: `255 - image` on an 8-bit array, and the clip
  `np.clip(..., 0, 255)` after the sepia colour mix;
- the structure of `main`: seven checkboxes, each computing its result from
  `image.copy()`, so no effect sees another's output.

This project models that core in Dafny and proves its properties.

An image is a `Grid` (`images.dfy`), a `seq<seq<seq<int>>>` indexed
rows × columns × channels. A 2-D grayscale array is written with one channel
per pixel. `IsImage` asks for a rectangular grid whose samples all lie in
[0,255], which is what a NumPy `uint8` array is. The modules:

- `Outcomes`: `Option`, and `Result`, the value or the exception of a call
  that may raise.
- `Images`: grids, shape, range, and the sample-wise map that NumPy
  applies element by element.
- `Saturate`: `np.clip` on one integer sample (`Clamp8`), and OpenCV's
  `saturate_cast<uchar>` (round half to even, then clamp). Real values are
  exact reals.
- `Fallback`: the try/except convention (`Recover`), with the notice the
  helper shows: nothing, an unsupported-colour-space warning, or an error.
- `ColorSpace`: `apply_cvt_color`. The caller supplies the OpenCV conversion
  as a function that may fail.
- `LinearTransform`: `apply_linear_transform` over `cv2.convertScaleAbs`,
  modelled as `saturate_cast(|alpha * x + beta|)` per sample.
- `NegativeTransform`: `apply_negative_transform`. The sample is
  `(255 - x) mod 256`, which is `uint8` arithmetic; it never wraps on 8-bit input.
- `Effects`: the effect checkboxes of `main`, the sepia clip, the pencil
  sketch's chain of calls, and `RunAll`. `RunAll` applies every enabled
  effect to the same base image, in page order. All effects share the one
  try/except of `main` (app.py:49, 109-110), so the first effect that raises
  ends the run: the results before it stay displayed, its error is shown, and
  no later effect runs. The OpenCV calls are the fields of an `OpenCv` value
  supplied by the caller; each returns an image or the exception it raised.

`main` never calls `apply_cvt_color` or `apply_linear_transform`. Their tabs
("Color Space", "Linear Transform") are created at app.py:54 and left empty.
The two helpers are modelled as written, on their own.

The helper documents `output = alpha * input + beta`. The code calls
`convertScaleAbs`, which takes the absolute value before saturating. For
`alpha >= 0` and `beta >= 0` the two readings agree, and the contracts of
`ApplyLinearTransform` say so. Outside that region they differ, and
`NegativeOffsetReflects` shows an input where they do. The model follows the
code. Because the helper is never called, this is not reported as a defect.

## Model

| member | source | states |
|---|---|---|
| Fallback.Recover | app.py:20-22 | A successful attempt is returned with no notice; a raised one returns the input image and shows the error. |
| Fallback.RecoverNeverPropagates | app.py:29-31 | A failure never escapes a helper: an error is shown exactly when the attempt failed, and then the input image is returned. |
| ColorSpace.Select | app.py:9-17 | The if/elif chain selects a code exactly when the string is that code's identifier; otherwise no code is selected. |
| ColorSpace.IdentifiersDistinct | app.py:9-16 | The four identifiers are pairwise distinct, so no string can reach two branches. |
| ColorSpace.SelectIdentifier | app.py:9-16 | Every code's identifier selects that code and no other. |
| ColorSpace.ApplyCvtColor | app.py:6-22 | A supported identifier runs its own conversion under the error fallback; any other string returns the image unchanged with an unsupported warning. |
| ColorSpace.UnsupportedPassesThrough | app.py:17-19 | A string other than BGR2GRAY/BGR2RGB/BGR2HSV/BGR2LAB returns the input image unchanged, with a warning and not an error, whatever the converter does. |
| ColorSpace.RoutesToOneConversion | app.py:9-16 | The outcome for an identifier depends only on its own conversion: converters that agree on that code give equal outcomes. |
| ColorSpace.CvtColorFallsBack | app.py:20-22 | When the selected conversion raises, the helper returns its input image and shows that error. |
| Saturate.RoundHalfEven | app.py:27 | The result is within 1/2 of the input, and on an exact tie it is even. |
| Saturate.SaturateCast | app.py:27 | The result is an 8-bit sample; on [0,255] it is the input rounded to the nearest integer with ties to even (2.5 gives 2), as cvRound does; it is 255 at or above 255 and 0 at or below 0. |
| Saturate.Clamp8 | app.py:96 | The result is an 8-bit sample; in-range values are kept; negatives become 0 and values above 255 become 255. |
| LinearTransform.ScaleAbs | app.py:27 | Every output sample is 8-bit. For alpha >= 0, beta >= 0 it equals alpha * x + beta rounded and saturated. |
| LinearTransform.ConvertScaleAbs | app.py:27 | The output has the input's shape and only 8-bit samples, and each sample is the per-sample scale-abs of its input sample. |
| LinearTransform.ApplyLinearTransform | app.py:24-31 | No error is shown. The result has the input's shape and only 8-bit samples. For alpha, beta >= 0 on an 8-bit image each sample is saturate(alpha * x + beta). |
| LinearTransform.LinearKeepsImage | app.py:24-28 | An 8-bit image is mapped to an 8-bit image, for any alpha and beta. |
| LinearTransform.LinearDefaultsAreIdentity | app.py:24-27 | With the defaults alpha = 1.0, beta = 0 every 8-bit image is returned unchanged. |
| LinearTransform.LinearMonotone | app.py:25-27 | For alpha, beta >= 0 a brighter input sample never yields a darker output sample. |
| LinearTransform.DoubledGreySaturates | app.py:25-27 | Any H x W uniform (128,128,128) image scaled by alpha = 2.0, beta = 0 becomes uniform (255,255,255), because 256 saturates. |
| LinearTransform.NegativeOffsetReflects | app.py:25-27 | With alpha = 1, beta = -100 a sample of 50 gives 50, not the 0 that clamping alpha * x + beta would give. |
| NegativeTransform.NegateSample | app.py:36 | The uint8 result of 255 - x is always a sample, and on a sample x it is exactly 255 - x. |
| NegativeTransform.Negate | app.py:33-36 | The result has the input's shape and only 8-bit samples. On an 8-bit image each output sample plus its input sample is 255. |
| NegativeTransform.ApplyNegativeTransform | app.py:33-39 | The helper never falls back (no error is shown) and returns the negative of its input. |
| NegativeTransform.NegativeKeepsImage | app.py:36 | The negative of an 8-bit image is an 8-bit image of the same shape. |
| NegativeTransform.NegativeInvolution | app.py:36 | Applying the negative twice returns the original 8-bit image exactly. |
| NegativeTransform.NegativeOfBlackIsWhite | app.py:33-36 | An all-0 image of any dimensions becomes all-255. |
| Effects.ClipToByte | app.py:96 | The sepia clip keeps the shape and clamps each sample on its own: every output sample is its input sample clamped to [0,255]. |
| Effects.ClipIsNearest | app.py:96 | A clipped sample is at least as close to the unclipped value as any other 8-bit value. |
| Effects.ClipFixesInRange | app.py:96 | A grid already in [0,255] is left unchanged by the clip. |
| Effects.ClipIdempotent | app.py:96 | Clipping twice equals clipping once. |
| Effects.PencilSketchSubtracts | app.py:102-106 | When the grey conversion and the blur succeed with 8-bit images, the blur is given 255 minus each grey sample and the sketch divides the grey image, scaled by 256, by the grid of 255 minus each blurred sample. |
| Effects.ApplyEffect | app.py:59-106 | The negative never raises and is 255 minus each base sample. The sepia effect raises exactly when the colour mix raises, and otherwise is the mix with each sample clipped to [0,255]. |
| Effects.PencilInversionsCancel | app.py:101-106 | The two inversions around the sketch's blur cancel: with an identity blur the sketch divides the grey image by itself. |
| Effects.RunAll | app.py:49-110 | A run displays at most one result per enabled effect; all of them when no error is shown, and fewer when one is. |
| Effects.RunAllStopsAtFirstError | app.py:49-110 | Result i is enabled effect i with its own image of the base image; no error is shown exactly when no enabled effect raises; otherwise the error shown is the exception of the first effect not displayed. |
| Effects.RunAllAppend | app.py:49-110 | Running a concatenation of effect lists is running the first list and, only if it raised nothing, then the second; no effect sees another's output. |
| Effects.ToggleLeavesOthers | app.py:59-107 | When the effects above it do not raise, ticking an effect that does not raise inserts exactly its own result; the results above and below are unchanged. |
| Effects.FailureHidesLater | app.py:49-110 | When the effects above it do not raise, an effect that raises keeps the results above it, shows its own error, and hides every effect below it. |
| Effects.Slots | app.py:59-101 | There are seven checkbox slots, and slot i can only hold the effect at page position i. |
| Effects.Ticked | app.py:59-101 | Exactly the effects of ticked slots are kept, in strictly increasing page order. |
| Effects.EnabledEffects | app.py:57-107 | The enabled effects are exactly the ticked slots, each at most once, in page order. |
| Effects.BlurRunsFirst | app.py:57-62 | When the blur box is ticked, the blur is the first effect run. |
| Effects.EnabledAreChecked | app.py:59-101 | An effect is run if and only if its own box is ticked with those slider values. |
| Effects.ShownWithOwnImage | app.py:61-106 | Every displayed result belongs to an enabled effect and is that effect's image; when no enabled effect raises, every one of them is displayed with its image. |
| Effects.RunPanel | app.py:49-110 | Results appear in page order; each belongs to a ticked box and is that effect's image of the base image. No error is shown exactly when no ticked effect raises, and then every ticked box has its result on the page. |
| Effects.ErrorPathOfList | app.py:49-110 | On effects in page order, a run that raised shows the exception of the first undisplayed effect, and its results are exactly the effects above that one, each with its own image. |
| Effects.RunPanelStopsAtFirstError | app.py:49-110 | When an error is shown, it is the exception of a ticked effect; every result on the page lies above that effect, and every ticked box above it has its own result on the page. |
| Effects.ResultIndependentOfOthers | app.py:61-106 | A result displayed for an effect is its own image on any panel, whatever other boxes are ticked; an effect ticked on two error-free panels shows the same image on both. |
| Effects.UncheckedNotShown | app.py:59-101 | An effect whose box is not ticked shows no result. |
| Effects.BlurHeadsPage | app.py:59-62 | A ticked kernel-5 blur that does not raise is the first result on the page. |
| Effects.BlurUnaffectedBySharpening | app.py:59-76 | With a kernel-5 blur ticked that does not raise, the blur result heads the page whether or not sharpening is ticked; unticked sharpening shows nothing; ticked, it shows its own result when no error is shown. |

## Left out

- Streamlit page layout, widgets, slider ranges and defaults, captions, and the wording of `st.warning`/`st.error` messages (app.py:41-54, 107-112). These are UI. Only the kind of notice (none, warning, error) is modelled.
- The upload flow and PIL decoding into an RGB array (app.py:46-51, 111-112). This is I/O; the model starts from the decoded array. The outer try/except (app.py:49, 109-110) is modelled only for the effect computations, as `Page.error`.
- `st.image` and the other Streamlit calls inside the outer try are assumed not to raise. Only OpenCV calls can end a run early.
- OpenCV internals: the colour-space formulas, `GaussianBlur`, `bilateralFilter`, `filter2D`, `Canny`, `transform` and `divide`. Their code is not shown and works in floating point. They are parameters: the fields of `OpenCv`, whose `cvtColor` is the same converter `ApplyCvtColor` takes, so properties such as Canny producing only 0/255 are not stated.
- The floating-point sepia matrix product (app.py:92-95). Only the integer clip that follows it is modelled; the matrix is recorded as a constant.
- Floating-point precision of `convertScaleAbs`. Its arithmetic is modelled over exact reals with round-half-to-even.
- LinearTransform.ApplyLinearTransform: the value contract holds only for alpha >= 0 and beta >= 0. Outside that range the code reflects negative values (see `NegativeOffsetReflects`) instead of producing the documented `alpha * input + beta`.
- The except branches of `apply_negative_transform` and `apply_linear_transform` (app.py:29-31, 37-39) are never taken in the model. NumPy subtraction and `convertScaleAbs` do not raise on an 8-bit array. The fallback itself is shared (`Recover`) and can be reached through `apply_cvt_color`.
- Inputs that are not arrays (Python's untyped `image` argument) are not modelled.
