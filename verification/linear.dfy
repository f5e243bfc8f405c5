/** `apply_linear_transform`: `cv2.convertScaleAbs(image, alpha, beta)`,
    which computes `saturate_cast<uchar>(|alpha * x + beta|)` for every
    sample. Arithmetic is exact over the reals. */
module LinearTransform {
  import opened Images
  import opened Saturate
  import opened Outcomes
  import opened Fallback

  /** The helper's default parameters: identity scale, no offset. */
  const DefaultAlpha: real := 1.0
  const DefaultBeta: real := 0.0

  /** One output sample of `convertScaleAbs`. For a non-negative scale and
      offset the absolute value is idle and the result is the rounded,
      clamped value of `alpha * x + beta` that the helper documents. */
  function ScaleAbs(x: int, alpha: real, beta: real): (y: int)
    ensures IsSample(y)
    ensures alpha >= 0.0 && beta >= 0.0 && x >= 0 ==> y == SaturateCast(alpha * (x as real) + beta)
  {
    SaturateCast(AbsReal(alpha * (x as real) + beta))
  }

  /** `cv2.convertScaleAbs` on a whole array. */
  function ConvertScaleAbs(src: Grid, alpha: real, beta: real): (dst: Grid)
    ensures SameShape(dst, src)
    ensures InRange(dst)
    ensures forall i, j, k | 0 <= i < |src| && 0 <= j < |src[i]| && 0 <= k < |src[i][j]| ::
      dst[i][j][k] == ScaleAbs(src[i][j][k], alpha, beta)
  {
    MapSamples(src, x => ScaleAbs(x, alpha, beta))
  }

  /** `apply_linear_transform(image, alpha=1.0, beta=0)`. On an 8-bit image
      `convertScaleAbs` does not raise, so the fallback is never taken; the
      result has the input's shape, only 8-bit samples, and for non-negative
      parameters each sample is `alpha * x + beta` rounded and clamped. */
  function ApplyLinearTransform(image: Grid, alpha: real := DefaultAlpha, beta: real := DefaultBeta): (s: Shown)
    ensures s.notice == Quiet
    ensures SameShape(s.image, image)
    ensures InRange(s.image)
    ensures alpha >= 0.0 && beta >= 0.0 && InRange(image) ==>
      forall i, j, k | 0 <= i < |image| && 0 <= j < |image[i]| && 0 <= k < |image[i][j]| ::
        SaturateCast(alpha * (image[i][j][k] as real) + beta) == s.image[i][j][k]
  {
    Recover(image, Ok(ConvertScaleAbs(image, alpha, beta)))
  }

  /** The result of the helper on an 8-bit image is again an 8-bit image. */
  lemma LinearKeepsImage(image: Grid, alpha: real, beta: real)
    requires IsImage(image)
    ensures IsImage(ApplyLinearTransform(image, alpha, beta).image)
  {
  }

  /** With the defaults `alpha = 1.0`, `beta = 0` the helper returns every
      8-bit image unchanged. */
  lemma {:induction false} LinearDefaultsAreIdentity(image: Grid)
    requires InRange(image)
    ensures ApplyLinearTransform(image) == Shown(image, Quiet)
  {
    var out := ApplyLinearTransform(image).image;
    forall i, j, k | 0 <= i < |image| && 0 <= j < |image[i]| && 0 <= k < |image[i][j]|
      ensures out[i][j][k] == image[i][j][k]
    {
      var x := image[i][j][k];
      assert DefaultAlpha * (x as real) + DefaultBeta == x as real;
      RoundOfInteger(x);
    }
    SamplewiseEqual(out, image);
  }

  /** For non-negative parameters the transform keeps the order of samples:
      a brighter input sample never yields a darker output sample. */
  lemma LinearMonotone(x: int, y: int, alpha: real, beta: real)
    requires 0 <= x <= y
    requires alpha >= 0.0 && beta >= 0.0
    ensures ScaleAbs(x, alpha, beta) <= ScaleAbs(y, alpha, beta)
  {
    var u, v := alpha * (x as real) + beta, alpha * (y as real) + beta;
    var d := (y - x) as real;
    assert v == u + alpha * d;
    assert alpha * d >= 0.0;
    SaturateCastMonotone(u, v);
  }

  /** A uniform grey-128 image scaled by 2 saturates to uniform white
      (2 * 128 = 256 is clamped to 255), whatever its height and width. */
  lemma {:induction false} DoubledGreySaturates(h: nat, w: nat)
    ensures ApplyLinearTransform(Uniform(h, w, 3, 128), 2.0, 0.0).image == Uniform(h, w, 3, 255)
  {
    var src := Uniform(h, w, 3, 128);
    var out := ApplyLinearTransform(src, 2.0, 0.0).image;
    forall i, j, k | 0 <= i < |src| && 0 <= j < |src[i]| && 0 <= k < |src[i][j]|
      ensures out[i][j][k] == Uniform(h, w, 3, 255)[i][j][k]
    {
      assert src[i][j][k] == 128;
    }
    SamplewiseEqual(out, Uniform(h, w, 3, 255));
  }

  /** Where `alpha * x + beta` is negative, `convertScaleAbs` reflects it
      instead of clamping it to 0: with `alpha = 1`, `beta = -100` a sample of
      50 stays 50, where the documented `alpha * input + beta` clamps to 0. */
  lemma NegativeOffsetReflects()
    ensures ScaleAbs(50, 1.0, -100.0) == 50
    ensures SaturateCast(1.0 * 50.0 - 100.0) == 0
  {
  }
}
