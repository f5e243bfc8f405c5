/** `apply_cvt_color`: a string switch over four OpenCV conversion codes.
    The conversions themselves are OpenCV's and are not modelled: the caller
    supplies `cvtColor`, which may fail (for instance on an image with the
    wrong number of channels). */
module ColorSpace {
  import opened Images
  import opened Outcomes
  import opened Fallback

  /** The conversion codes the helper recognises. */
  datatype Conversion = BGR2GRAY | BGR2RGB | BGR2HSV | BGR2LAB

  /** The identifier string a caller passes for each code. */
  function Identifier(c: Conversion): string {
    match c
    case BGR2GRAY => "BGR2GRAY"
    case BGR2RGB => "BGR2RGB"
    case BGR2HSV => "BGR2HSV"
    case BGR2LAB => "BGR2LAB"
  }

  /** The `if/elif` chain: which code, if any, an identifier selects. */
  function Select(colorSpace: string): (r: Option<Conversion>)
    ensures r.Some? ==> Identifier(r.value) == colorSpace
    ensures r.None? ==> forall c :: Identifier(c) != colorSpace
  {
    if colorSpace == "BGR2GRAY" then Some(BGR2GRAY)
    else if colorSpace == "BGR2RGB" then Some(BGR2RGB)
    else if colorSpace == "BGR2HSV" then Some(BGR2HSV)
    else if colorSpace == "BGR2LAB" then Some(BGR2LAB)
    else None
  }

  /** Distinct codes have distinct identifiers, so no identifier can reach
      two branches of the switch. */
  lemma IdentifiersDistinct(c: Conversion, d: Conversion)
    requires Identifier(c) == Identifier(d)
    ensures c == d
  {
  }

  /** Every code's identifier selects that code and no other. */
  lemma SelectIdentifier(c: Conversion)
    ensures Select(Identifier(c)) == Some(c)
  {
  }

  /** `apply_cvt_color(image, color_space)`: a recognised identifier runs its
      one conversion under the error fallback; anything else warns and
      returns the image unchanged. */
  function ApplyCvtColor(image: Grid, colorSpace: string, cvtColor: (Conversion, Grid) -> Result<Grid>): (s: Shown)
    ensures forall c :: Identifier(c) == colorSpace ==> s == Recover(image, cvtColor(c, image))
    ensures (forall c :: Identifier(c) != colorSpace) ==> s == Shown(image, UnsupportedWarning(colorSpace))
  {
    match Select(colorSpace)
    case Some(c) => Recover(image, cvtColor(c, image))
    case None => Shown(image, UnsupportedWarning(colorSpace))
  }

  /** An identifier other than the four returns the input image unchanged with
      a warning (never an error), whatever the converter would have done. */
  lemma UnsupportedPassesThrough(image: Grid, colorSpace: string, cvtColor: (Conversion, Grid) -> Result<Grid>)
    requires colorSpace != "BGR2GRAY" && colorSpace != "BGR2RGB"
    requires colorSpace != "BGR2HSV" && colorSpace != "BGR2LAB"
    ensures ApplyCvtColor(image, colorSpace, cvtColor).image == image
    ensures ApplyCvtColor(image, colorSpace, cvtColor).notice == UnsupportedWarning(colorSpace)
  {
  }

  /** Each identifier consults exactly its own conversion: two converters that
      agree on that one code give the same outcome, however they differ on the
      other three codes. */
  lemma RoutesToOneConversion(image: Grid, c: Conversion, cvt1: (Conversion, Grid) -> Result<Grid>, cvt2: (Conversion, Grid) -> Result<Grid>)
    requires cvt1(c, image) == cvt2(c, image)
    ensures ApplyCvtColor(image, Identifier(c), cvt1) == ApplyCvtColor(image, Identifier(c), cvt2)
  {
  }

  /** A supported identifier whose conversion raises returns the input image,
      with the error shown, instead of propagating the failure. */
  lemma CvtColorFallsBack(image: Grid, c: Conversion, cvtColor: (Conversion, Grid) -> Result<Grid>)
    requires cvtColor(c, image).Err?
    ensures ApplyCvtColor(image, Identifier(c), cvtColor).image == image
    ensures ApplyCvtColor(image, Identifier(c), cvtColor).notice == ErrorShown(cvtColor(c, image).error)
  {
  }
}
