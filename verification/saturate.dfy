/** Saturating conversion to an unsigned byte, shared by `np.clip(x, 0, 255)`
    and OpenCV's `saturate_cast<uchar>`. Floating point is modelled by exact
    reals; OpenCV's `cvRound` rounds halves to the even neighbour. */
module Saturate {
  import opened Images

  /** `np.clip(x, 0, 255)` on one integer sample. */
  function Clamp8(x: int): (r: int)
    ensures IsSample(r)
    ensures IsSample(x) ==> r == x
    ensures x < 0 ==> r == 0
    ensures x > MaxSample ==> r == MaxSample
  {
    if x < 0 then 0 else if x > MaxSample then MaxSample else x
  }

  function AbsReal(x: real): (r: real)
    ensures r >= 0.0
    ensures r == x || r == -x
  {
    if x < 0.0 then -x else x
  }

  /** `cvRound`: the nearest integer, ties going to the even neighbour. */
  function RoundHalfEven(x: real): (n: int)
    ensures (n as real) - 0.5 <= x <= (n as real) + 0.5
    ensures x == (n as real) - 0.5 || x == (n as real) + 0.5 ==> n % 2 == 0
  {
    var f := x.Floor;
    var d := x - f as real;
    if d < 0.5 then f
    else if d > 0.5 then f + 1
    else if f % 2 == 0 then f
    else f + 1
  }

  /** An integral value rounds to itself. */
  lemma RoundOfInteger(k: int)
    ensures RoundHalfEven(k as real) == k
  {
  }

  /** Rounding is monotone: it never reverses the order of two values. */
  lemma RoundMonotone(x: real, y: real)
    requires x <= y
    ensures RoundHalfEven(x) <= RoundHalfEven(y)
  {
  }

  /** `saturate_cast<uchar>` of a real value: round, then saturate. */
  function SaturateCast(x: real): (r: int)
    ensures IsSample(r)
    ensures 0.0 <= x <= 255.0 ==> (r as real) - 0.5 <= x <= (r as real) + 0.5
    ensures 0.0 <= x <= 255.0 ==> r == RoundHalfEven(x)
    ensures x >= 255.0 ==> r == MaxSample
    ensures x <= 0.0 ==> r == 0
  {
    Clamp8(RoundHalfEven(x))
  }

  /** Saturating conversion keeps the order of its inputs. */
  lemma SaturateCastMonotone(x: real, y: real)
    requires x <= y
    ensures SaturateCast(x) <= SaturateCast(y)
  {
    RoundMonotone(x, y);
  }
}
