/** The error convention shared by the three helpers of app.py: an attempt
    either produces an image or raises; a raise is reported on the page and
    the helper hands back the image it was given. */
module Fallback {
  import opened Images
  import opened Outcomes

  /** What the helper leaves on the page beside its returned image:
      nothing, an `st.warning` about an unsupported colour space, or an
      `st.error` carrying the exception. The message wording is not modelled. */
  datatype Notice = Quiet | UnsupportedWarning(colorSpace: string) | ErrorShown(cause: string)

  /** The value a helper returns, with the notice it displayed. */
  datatype Shown = Shown(image: Grid, notice: Notice)

  /** `try: return attempt except Exception as e: st.error(...); return image`. */
  function Recover(input: Grid, attempt: Result<Grid>): (s: Shown)
    ensures attempt.Ok? ==> s.image == attempt.value && s.notice == Quiet
    ensures attempt.Err? ==> s.image == input && s.notice == ErrorShown(attempt.error)
  {
    match attempt
    case Ok(out) => Shown(out, Quiet)
    case Err(e) => Shown(input, ErrorShown(e))
  }

  /** A failure is never propagated: whatever the attempt, the helper returns
      an image, and an error notice is shown exactly when that image is the
      input standing in for a failed transform. */
  lemma RecoverNeverPropagates(input: Grid, attempt: Result<Grid>)
    ensures Recover(input, attempt).notice.ErrorShown? <==> attempt.Err?
    ensures attempt.Err? ==> Recover(input, attempt).image == input
  {
  }
}
