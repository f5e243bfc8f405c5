/** Images as the application sees them after decoding: a NumPy array of
    unsigned 8-bit samples, indexed as rows x columns x channels. A
    single-channel (grayscale) array is written with one sample per pixel.
    Samples are unbounded integers; `InRange` says when they fit a byte. */
module Images {

  /** rows x columns x channels */
  type Grid = seq<seq<seq<int>>>

  /** The largest value of an unsigned 8-bit sample. */
  const MaxSample: int := 255

  predicate IsSample(x: int) {
    0 <= x <= MaxSample
  }

  /** Every sample of the grid fits in an unsigned byte. */
  predicate InRange(g: Grid) {
    forall i, j, k | 0 <= i < |g| && 0 <= j < |g[i]| && 0 <= k < |g[i][j]| :: IsSample(g[i][j][k])
  }

  /** Both grids have the same rows, the same columns per row and the same
      channels per pixel. */
  predicate SameShape(a: Grid, b: Grid) {
    && |a| == |b|
    && (forall i | 0 <= i < |a| :: |a[i]| == |b[i]|)
    && (forall i, j | 0 <= i < |a| && 0 <= j < |a[i]| :: |a[i][j]| == |b[i][j]|)
  }

  /** The grid is an H x W x C array: every row has the width of the first
      row and every pixel the channel count of the first pixel. */
  predicate Rectangular(g: Grid) {
    && (forall i | 0 <= i < |g| :: |g[i]| == |g[0]|)
    && (forall i, j | 0 <= i < |g| && 0 <= j < |g[i]| :: |g[i][j]| == |g[0][0]|)
  }

  /** An 8-bit image as a NumPy `uint8` array: rectangular, samples in [0,255]. */
  predicate IsImage(g: Grid) {
    Rectangular(g) && InRange(g)
  }

  /** The H x W x C grid whose every sample is `v`. */
  function Uniform(h: nat, w: nat, c: nat, v: int): (g: Grid)
    ensures |g| == h
    ensures forall i | 0 <= i < h :: |g[i]| == w
    ensures forall i, j | 0 <= i < h && 0 <= j < w :: g[i][j] == seq(c, _ => v)
  {
    seq(h, _ => seq(w, _ => seq(c, _ => v)))
  }

  /** Element-wise application of `f` to the samples of one pixel. */
  function MapPixel(p: seq<int>, f: int -> int): (q: seq<int>)
    ensures |q| == |p|
    ensures forall k | 0 <= k < |p| :: q[k] == f(p[k])
  {
    if |p| == 0 then [] else [f(p[0])] + MapPixel(p[1..], f)
  }

  /** Element-wise application of `f` to every sample of one row. */
  function MapRow(row: seq<seq<int>>, f: int -> int): (out: seq<seq<int>>)
    ensures |out| == |row|
    ensures forall j | 0 <= j < |row| :: |out[j]| == |row[j]|
    ensures forall j, k | 0 <= j < |row| && 0 <= k < |row[j]| :: out[j][k] == f(row[j][k])
  {
    if |row| == 0 then [] else [MapPixel(row[0], f)] + MapRow(row[1..], f)
  }

  /** Element-wise application of `f` to every sample of the grid, the way a
      NumPy universal function acts on an array. */
  function MapSamples(g: Grid, f: int -> int): (r: Grid)
    ensures SameShape(r, g)
    ensures forall i, j, k | 0 <= i < |g| && 0 <= j < |g[i]| && 0 <= k < |g[i][j]| :: r[i][j][k] == f(g[i][j][k])
  {
    if |g| == 0 then [] else [MapRow(g[0], f)] + MapSamples(g[1..], f)
  }

  /** Two grids of the same shape that agree on every sample are equal. */
  lemma {:induction false} SamplewiseEqual(a: Grid, b: Grid)
    requires SameShape(a, b)
    requires forall i, j, k | 0 <= i < |a| && 0 <= j < |a[i]| && 0 <= k < |a[i][j]| :: a[i][j][k] == b[i][j][k]
    ensures a == b
  {
    forall i | 0 <= i < |a|
      ensures a[i] == b[i]
    {
      forall j | 0 <= j < |a[i]|
        ensures a[i][j] == b[i][j]
      {
        assert |a[i][j]| == |b[i][j]|;
      }
    }
  }
}
