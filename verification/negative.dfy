/** `apply_negative_transform`: `255 - image` on a NumPy `uint8` array. The
    subtraction is carried out in unsigned 8-bit arithmetic, so it wraps
    modulo 256; on 8-bit samples it never wraps and never raises. */
module NegativeTransform {
  import opened Images
  import opened Outcomes
  import opened Fallback

  /** The number of values of an unsigned byte; `uint8` arithmetic wraps modulo it. */
  const ByteModulus: int := 256

  /** `255 - x` in `uint8` arithmetic (Dafny's `%` is never negative). */
  function NegateSample(x: int): (y: int)
    ensures IsSample(y)
    ensures IsSample(x) ==> y == MaxSample - x
  {
    (MaxSample - x) % ByteModulus
  }

  /** `255 - image`: the photographic negative of an array. */
  function Negate(g: Grid): (r: Grid)
    ensures SameShape(r, g)
    ensures InRange(r)
    ensures InRange(g) ==>
      forall i, j, k | 0 <= i < |g| && 0 <= j < |g[i]| && 0 <= k < |g[i][j]| :: r[i][j][k] + g[i][j][k] == MaxSample
  {
    MapSamples(g, NegateSample)
  }

  /** `apply_negative_transform(image)`: the negative, under the error
      fallback; NumPy's subtraction does not raise, so no error is shown. */
  function ApplyNegativeTransform(image: Grid): (s: Shown)
    ensures s.notice == Quiet
    ensures s.image == Negate(image)
  {
    Recover(image, Ok(Negate(image)))
  }

  /** The negative of an 8-bit image is an 8-bit image of the same shape. */
  lemma NegativeKeepsImage(image: Grid)
    requires IsImage(image)
    ensures IsImage(ApplyNegativeTransform(image).image)
    ensures SameShape(ApplyNegativeTransform(image).image, image)
  {
  }

  /** Taking the negative twice gives back the original 8-bit image exactly. */
  lemma {:induction false} NegativeInvolution(image: Grid)
    requires InRange(image)
    ensures ApplyNegativeTransform(ApplyNegativeTransform(image).image).image == image
  {
    var once := Negate(image);
    var twice := Negate(once);
    forall i, j, k | 0 <= i < |image| && 0 <= j < |image[i]| && 0 <= k < |image[i][j]|
      ensures twice[i][j][k] == image[i][j][k]
    {
      assert once[i][j][k] == MaxSample - image[i][j][k];
    }
    SamplewiseEqual(twice, image);
  }

  /** An all-black image becomes all-white, whatever its dimensions. */
  lemma {:induction false} NegativeOfBlackIsWhite(h: nat, w: nat, c: nat)
    ensures ApplyNegativeTransform(Uniform(h, w, c, 0)).image == Uniform(h, w, c, MaxSample)
  {
    var black := Uniform(h, w, c, 0);
    var out := Negate(black);
    forall i, j, k | 0 <= i < |black| && 0 <= j < |black[i]| && 0 <= k < |black[i][j]|
      ensures out[i][j][k] == Uniform(h, w, c, MaxSample)[i][j][k]
    {
      assert black[i][j][k] == 0;
    }
    SamplewiseEqual(out, Uniform(h, w, c, MaxSample));
  }
}
