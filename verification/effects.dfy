/** The effect panels of `main`: seven checkboxes, each of which applies one
    effect to its own copy of the uploaded image and displays the result.
    The OpenCV calls are not modelled; they are the fields of an `OpenCv`
    value chosen by the caller, and each may raise. Because every effect
    reads a copy of the same base image, the results are independent of one
    another, except that all effects share the one `try` of `main`: the
    first effect that raises ends the refresh with a single error. */
module Effects {
  import opened Images
  import opened Saturate
  import opened Outcomes
  import opened ColorSpace
  import opened NegativeTransform

  /** The OpenCV functions `main` calls, taken as given: each returns its
      output image or the exception it raised. */
  datatype OpenCv = OpenCv(
    /** `cv2.GaussianBlur(img, (k, k), 0)`: square kernel, sigma derived from k */
    gaussianBlur: (Grid, int) -> Result<Grid>,
    /** `cv2.bilateralFilter(img, d, sigmaColor, sigmaSpace)` */
    bilateralFilter: (Grid, int, int, int) -> Result<Grid>,
    /** `cv2.filter2D(img, -1, kernel)`: same depth as the input */
    filter2D: (Grid, seq<seq<int>>) -> Result<Grid>,
    /** `cv2.Canny(img, threshold1, threshold2)` */
    canny: (Grid, int, int) -> Result<Grid>,
    /** `cv2.transform(img, matrix)`: per-pixel colour mixing */
    transform: (Grid, seq<seq<real>>) -> Result<Grid>,
    /** `cv2.cvtColor(img, code)`: the same converter `ApplyCvtColor` takes */
    cvtColor: (Conversion, Grid) -> Result<Grid>,
    /** `cv2.divide(a, b, scale=s)` */
    divide: (Grid, Grid, real) -> Result<Grid>)
  {
    /** `cv2.cvtColor(img, cv2.COLOR_BGR2GRAY)` */
    function ToGray(g: Grid): Result<Grid> {
      cvtColor(BGR2GRAY, g)
    }
  }

  /** One ticked checkbox with the slider values read for it. */
  datatype Effect =
    | GaussianBlur(ksize: int)
    | BilateralFilter(diameter: int, sigmaColor: int, sigmaSpace: int)
    | Sharpening
    | Negative
    | EdgeDetection(threshold1: int, threshold2: int)
    | Sepia
    | PencilSketch

  /** The sharpening kernel: centre weight 5, minus each 4-neighbour. */
  const SharpenKernel: seq<seq<int>> := [[0, -1, 0], [-1, 5, -1], [0, -1, 0]]

  /** The sepia colour-mixing matrix. */
  const SepiaMatrix: seq<seq<real>> := [[0.272, 0.534, 0.131], [0.349, 0.686, 0.168], [0.393, 0.769, 0.189]]

  /** The fixed kernel size of the pencil sketch's blur. */
  const SketchKernel: int := 21

  /** The scale of the pencil sketch's colour-dodge division. */
  const SketchScale: real := 256.0

  /** `np.clip(g, 0, 255).astype(np.uint8)`: the sepia output clamp. Every
      sample is clamped to [0,255] on its own. */
  function ClipToByte(g: Grid): (r: Grid)
    ensures SameShape(r, g)
    ensures InRange(r)
    ensures forall i, j, k | 0 <= i < |g| && 0 <= j < |g[i]| && 0 <= k < |g[i][j]| ::
      r[i][j][k] == Clamp8(g[i][j][k])
  {
    MapSamples(g, Clamp8)
  }

  /** A clipped sample is the 8-bit value nearest to the unclipped one. */
  lemma ClipIsNearest(x: int, y: int)
    requires IsSample(y)
    ensures (Clamp8(x) - x) * (Clamp8(x) - x) <= (y - x) * (y - x)
  {
  }

  /** A grid already in [0,255] is unchanged by the clip. */
  lemma {:induction false} ClipFixesInRange(g: Grid)
    requires InRange(g)
    ensures ClipToByte(g) == g
  {
    SamplewiseEqual(ClipToByte(g), g);
  }

  /** Clipping twice is the same as clipping once. */
  lemma ClipIdempotent(g: Grid)
    ensures ClipToByte(ClipToByte(g)) == ClipToByte(g)
  {
    ClipFixesInRange(ClipToByte(g));
  }

  /** The pencil sketch: grey, invert, blur, invert, colour-dodge divide.
      The first OpenCV call that raises ends the chain with its exception. */
  function PencilSketchOf(cv: OpenCv, base: Grid): Result<Grid> {
    var gray :- cv.ToGray(base);
    var blurred :- cv.gaussianBlur(Negate(gray), SketchKernel);
    cv.divide(gray, Negate(blurred), SketchScale)
  }

  /** The sketch's two inversions are the `255 - x` of each 8-bit sample: when
      the grey image and the blur succeed with 8-bit results, the sketch is the
      division of the grey image by the grid whose samples are 255 minus the
      blurred ones, the blur having been given 255 minus each grey sample. */
  lemma PencilSketchSubtracts(cv: OpenCv, base: Grid, g: Grid, inv: Grid, b: Grid, invb: Grid)
    requires cv.ToGray(base) == Ok(g) && InRange(g)
    requires SameShape(inv, g)
    requires forall i, j, k | 0 <= i < |g| && 0 <= j < |g[i]| && 0 <= k < |g[i][j]| :: inv[i][j][k] == MaxSample - g[i][j][k]
    requires cv.gaussianBlur(inv, SketchKernel) == Ok(b) && InRange(b)
    requires SameShape(invb, b)
    requires forall i, j, k | 0 <= i < |b| && 0 <= j < |b[i]| && 0 <= k < |b[i][j]| :: invb[i][j][k] == MaxSample - b[i][j][k]
    ensures PencilSketchOf(cv, base) == cv.divide(g, invb, SketchScale)
  {
    SamplewiseEqual(inv, Negate(g));
    SamplewiseEqual(invb, Negate(b));
  }

  /** The image one effect displays, computed from the base image alone, or
      the exception its OpenCV call raised. The negative never raises and is
      `255 - base`; the sepia result, when there is one, is the clip of the
      colour mix. */
  function ApplyEffect(cv: OpenCv, base: Grid, e: Effect): (r: Result<Grid>)
    ensures e.Sepia? ==> (r.Ok? <==> cv.transform(base, SepiaMatrix).Ok?)
    ensures e.Negative? ==> r == Ok(Negate(base))
    ensures e.Sepia? && cv.transform(base, SepiaMatrix).Ok? ==> r == Ok(ClipToByte(cv.transform(base, SepiaMatrix).value))
  {
    match e
    case GaussianBlur(k) => cv.gaussianBlur(base, k)
    case BilateralFilter(d, sc, ss) => cv.bilateralFilter(base, d, sc, ss)
    case Sharpening => cv.filter2D(base, SharpenKernel)
    case Negative => Ok(ApplyNegativeTransform(base).image)
    case EdgeDetection(t1, t2) => cv.canny(base, t1, t2)
    case Sepia =>
      var mixed :- cv.transform(base, SepiaMatrix);
      Ok(ClipToByte(mixed))
    case PencilSketch => PencilSketchOf(cv, base)
  }

  /** The two inversions around the sketch's blur cancel: were the blur the
      identity, the sketch would divide the grey image by itself. */
  lemma PencilInversionsCancel(cv: OpenCv, base: Grid)
    requires cv.ToGray(base).Ok? && InRange(cv.ToGray(base).value)
    requires cv.gaussianBlur(Negate(cv.ToGray(base).value), SketchKernel) == Ok(Negate(cv.ToGray(base).value))
    ensures ApplyEffect(cv, base, PencilSketch) == cv.divide(cv.ToGray(base).value, cv.ToGray(base).value, SketchScale)
  {
    NegativeInvolution(cv.ToGray(base).value);
  }

  /** One displayed result: the effect (its caption) and its image. */
  datatype Display = Display(effect: Effect, image: Grid)

  /** What one refresh leaves on the page: the results displayed, in order,
      and the error `main`'s outer handler showed, if an effect raised. */
  datatype Page = Page(shown: seq<Display>, error: Option<string>)

  /** No effect of the list raises on the base image. */
  predicate NoneRaise(cv: OpenCv, base: Grid, enabled: seq<Effect>) {
    forall i | 0 <= i < |enabled| :: ApplyEffect(cv, base, enabled[i]).Ok?
  }

  /** Runs the enabled effects in order, each against the same base image.
      The first effect that raises stops the run: the results before it stay
      displayed, its exception is shown once, and no later effect runs. */
  function RunAll(cv: OpenCv, base: Grid, enabled: seq<Effect>): (page: Page)
    ensures |page.shown| <= |enabled|
    ensures page.error.None? ==> |page.shown| == |enabled|
    ensures page.error.Some? ==> |page.shown| < |enabled|
  {
    if |enabled| == 0 then Page([], None)
    else
      var head := ApplyEffect(cv, base, enabled[0]);
      if head.Err? then Page([], Some(head.error))
      else
        var rest := RunAll(cv, base, enabled[1..]);
        Page([Display(enabled[0], head.value)] + rest.shown, rest.error)
  }

  /** What a run displays: the results of a prefix of the enabled effects,
      each captioned with its effect and holding that effect's image; the run
      ends without error exactly when no effect raises, and otherwise with the
      exception of the first effect not displayed. */
  lemma {:induction false} RunAllStopsAtFirstError(cv: OpenCv, base: Grid, enabled: seq<Effect>)
    ensures var page := RunAll(cv, base, enabled);
      && (forall i | 0 <= i < |page.shown| ::
            page.shown[i].effect == enabled[i] && ApplyEffect(cv, base, enabled[i]) == Ok(page.shown[i].image))
      && (page.error.None? <==> NoneRaise(cv, base, enabled))
      && (page.error.Some? ==> ApplyEffect(cv, base, enabled[|page.shown|]) == Err(page.error.value))
  {
    if |enabled| > 0 && ApplyEffect(cv, base, enabled[0]).Ok? {
      var page, rest := RunAll(cv, base, enabled), RunAll(cv, base, enabled[1..]);
      RunAllStopsAtFirstError(cv, base, enabled[1..]);
      assert page.shown == [Display(enabled[0], ApplyEffect(cv, base, enabled[0]).value)] + rest.shown;
      forall i | 0 < i < |page.shown|
        ensures page.shown[i] == rest.shown[i - 1] && enabled[i] == enabled[1..][i - 1]
      {
      }
      if NoneRaise(cv, base, enabled[1..]) {
        forall i | 0 <= i < |enabled|
          ensures ApplyEffect(cv, base, enabled[i]).Ok?
        {
          if i > 0 {
            assert enabled[i] == enabled[1..][i - 1];
          }
        }
      }
    }
  }

  /** The page of one run followed by the page of another: the second run's
      results appear only if the first run raised nothing. */
  function Then(first: Page, second: Page): Page {
    if first.error.Some? then first else Page(first.shown + second.shown, second.error)
  }

  /** Running a concatenation of effect lists is running the first list and,
      if nothing raised, then the second: no effect sees another's output. */
  lemma {:induction false} RunAllAppend(cv: OpenCv, base: Grid, xs: seq<Effect>, ys: seq<Effect>)
    ensures RunAll(cv, base, xs + ys) == Then(RunAll(cv, base, xs), RunAll(cv, base, ys))
  {
    if |xs| == 0 {
      assert xs + ys == ys;
      assert [] + RunAll(cv, base, ys).shown == RunAll(cv, base, ys).shown;
    } else {
      var zs := xs + ys;
      assert zs[0] == xs[0];
      assert zs[1..] == xs[1..] + ys;
      var head := ApplyEffect(cv, base, xs[0]);
      if head.Ok? {
        var tail := RunAll(cv, base, xs[1..] + ys);
        RunAllAppend(cv, base, xs[1..], ys);
        var d, rest, later := Display(xs[0], head.value), RunAll(cv, base, xs[1..]), RunAll(cv, base, ys);
        assert RunAll(cv, base, zs) == Page([d] + tail.shown, tail.error);
        assert RunAll(cv, base, xs) == Page([d] + rest.shown, rest.error);
        if rest.error.None? {
          assert [d] + (rest.shown + later.shown) == ([d] + rest.shown) + later.shown;
        }
      } else {
        assert RunAll(cv, base, zs) == Page([], Some(head.error)) == RunAll(cv, base, xs);
      }
    }
  }

  /** Enabling one effect that does not raise, after effects that do not
      raise, inserts exactly its own result and leaves every other result as
      it was. */
  lemma ToggleLeavesOthers(cv: OpenCv, base: Grid, xs: seq<Effect>, e: Effect, ys: seq<Effect>)
    requires NoneRaise(cv, base, xs) && ApplyEffect(cv, base, e).Ok?
    ensures RunAll(cv, base, xs + [e] + ys)
         == Page(RunAll(cv, base, xs).shown + [Display(e, ApplyEffect(cv, base, e).value)] + RunAll(cv, base, ys).shown,
                 RunAll(cv, base, ys).error)
  {
    RunAllStopsAtFirstError(cv, base, xs);
    RunAllAppend(cv, base, xs + [e], ys);
    RunAllAppend(cv, base, xs, [e]);
  }

  /** An effect that raises, after effects that do not, hides the results of
      every effect below it: they are not run and its error is shown. */
  lemma FailureHidesLater(cv: OpenCv, base: Grid, xs: seq<Effect>, e: Effect, ys: seq<Effect>)
    requires NoneRaise(cv, base, xs) && ApplyEffect(cv, base, e).Err?
    ensures RunAll(cv, base, xs + [e] + ys) == Page(RunAll(cv, base, xs).shown, Some(ApplyEffect(cv, base, e).error))
  {
    RunAllStopsAtFirstError(cv, base, xs);
    RunAllAppend(cv, base, xs + [e], ys);
    RunAllAppend(cv, base, xs, [e]);
  }

  /** The checkboxes and sliders of the Filters, Effects and Additional
      Effects tabs: `None`/`false` for an unticked box, otherwise the slider
      values read for it. */
  datatype Panel = Panel(
    gaussianBlur: Option<int>,
    bilateralFilter: Option<(int, int, int)>,
    sharpening: bool,
    negative: bool,
    edgeDetection: Option<(int, int)>,
    sepia: bool,
    pencilSketch: bool)

  /** The position of each effect on the page, top to bottom. */
  function PageOrder(e: Effect): nat {
    match e
    case GaussianBlur(_) => 0
    case BilateralFilter(_, _, _) => 1
    case Sharpening => 2
    case Negative => 3
    case EdgeDetection(_, _) => 4
    case Sepia => 5
    case PencilSketch => 6
  }

  /** The seven checkbox slots of the page, top to bottom: the effect with its
      slider values when the box is ticked, `None` when it is not. */
  function Slots(p: Panel): (slots: seq<Option<Effect>>)
    ensures |slots| == 7
    ensures forall i | 0 <= i < |slots| && slots[i].Some? :: PageOrder(slots[i].value) == i
  {
    [ (match p.gaussianBlur case Some(k) => Some(GaussianBlur(k)) case None => None),
      (match p.bilateralFilter case Some((d, sc, ss)) => Some(BilateralFilter(d, sc, ss)) case None => None),
      (if p.sharpening then Some(Sharpening) else None),
      (if p.negative then Some(Negative) else None),
      (match p.edgeDetection case Some((t1, t2)) => Some(EdgeDetection(t1, t2)) case None => None),
      (if p.sepia then Some(Sepia) else None),
      (if p.pencilSketch then Some(PencilSketch) else None) ]
  }

  /** The effects of the ticked slots, keeping their order. Slot `i` holds an
      effect whose page position is `first + i`. */
  function Ticked(slots: seq<Option<Effect>>, first: nat): (es: seq<Effect>)
    requires forall i | 0 <= i < |slots| && slots[i].Some? :: PageOrder(slots[i].value) == first + i
    ensures forall e :: e in es <==> Some(e) in slots
    ensures forall i | 0 <= i < |es| :: first <= PageOrder(es[i])
    ensures forall i, j | 0 <= i < j < |es| :: PageOrder(es[i]) < PageOrder(es[j])
  {
    if |slots| == 0 then []
    else
      var rest := Ticked(slots[1..], first + 1);
      match slots[0]
      case Some(e) => [e] + rest
      case None => rest
  }

  /** The effects whose boxes are ticked, in page order, each once. */
  function EnabledEffects(p: Panel): (es: seq<Effect>)
    ensures forall e :: e in es <==> Some(e) in Slots(p)
    ensures forall i, j | 0 <= i < j < |es| :: PageOrder(es[i]) < PageOrder(es[j])
  {
    Ticked(Slots(p), 0)
  }

  /** Whether the panel's own checkbox for `e` is ticked with `e`'s slider values. */
  predicate Checked(p: Panel, e: Effect) {
    match e
    case GaussianBlur(k) => p.gaussianBlur == Some(k)
    case BilateralFilter(d, sc, ss) => p.bilateralFilter == Some((d, sc, ss))
    case Sharpening => p.sharpening
    case Negative => p.negative
    case EdgeDetection(t1, t2) => p.edgeDetection == Some((t1, t2))
    case Sepia => p.sepia
    case PencilSketch => p.pencilSketch
  }

  /** The first box of the page, the blur, is run first whenever it is ticked. */
  lemma BlurRunsFirst(p: Panel, k: int)
    requires p.gaussianBlur == Some(k)
    ensures |EnabledEffects(p)| > 0 && EnabledEffects(p)[0] == GaussianBlur(k)
  {
  }

  /** An effect is run exactly when its own box is ticked with those slider
      values. */
  lemma EnabledAreChecked(p: Panel)
    ensures forall e :: e in EnabledEffects(p) <==> Checked(p, e)
  {
  }

  /** Every result a run displays belongs to one of the enabled effects and
      is that effect's image; when no enabled effect raises, each of them is
      displayed with its image. */
  lemma ShownWithOwnImage(cv: OpenCv, base: Grid, es: seq<Effect>)
    ensures forall d | d in RunAll(cv, base, es).shown :: d.effect in es && ApplyEffect(cv, base, d.effect) == Ok(d.image)
    ensures NoneRaise(cv, base, es) ==>
      forall e | e in es :: ApplyEffect(cv, base, e).Ok? && Display(e, ApplyEffect(cv, base, e).value) in RunAll(cv, base, es).shown
  {
  }

  /** The page one refresh of `main` leaves: every displayed result belongs to
      a ticked box and is that effect's image; if nothing raised, every ticked
      box has its result displayed. */
  function RunPanel(cv: OpenCv, base: Grid, p: Panel): (page: Page)
    ensures forall d | d in page.shown :: Checked(p, d.effect) && ApplyEffect(cv, base, d.effect) == Ok(d.image)
    ensures page.error.None? ==>
      forall e | Checked(p, e) :: ApplyEffect(cv, base, e).Ok? && Display(e, ApplyEffect(cv, base, e).value) in page.shown
    ensures page.error.None? <==> forall e | Checked(p, e) :: ApplyEffect(cv, base, e).Ok?
    ensures forall i, j | 0 <= i < j < |page.shown| :: PageOrder(page.shown[i].effect) < PageOrder(page.shown[j].effect)
  {
    EnabledAreChecked(p);
    RunAllStopsAtFirstError(cv, base, EnabledEffects(p));
    ShownWithOwnImage(cv, base, EnabledEffects(p));
    RunAll(cv, base, EnabledEffects(p))
  }

  /** On a list of effects in page order, a run that raises has displayed
      exactly the effects above the one that raised, each with its image. */
  lemma ErrorPathOfList(cv: OpenCv, base: Grid, es: seq<Effect>)
    requires forall i, j | 0 <= i < j < |es| :: PageOrder(es[i]) < PageOrder(es[j])
    ensures var page := RunAll(cv, base, es);
      page.error.Some? ==>
        && |page.shown| < |es|
        && ApplyEffect(cv, base, es[|page.shown|]) == Err(page.error.value)
        && (forall d | d in page.shown :: PageOrder(d.effect) < PageOrder(es[|page.shown|]))
        && (forall f | f in es && PageOrder(f) < PageOrder(es[|page.shown|]) ::
              ApplyEffect(cv, base, f).Ok? && Display(f, ApplyEffect(cv, base, f).value) in page.shown)
  {
    var page := RunAll(cv, base, es);
    RunAllStopsAtFirstError(cv, base, es);
    if page.error.Some? {
      var n := |page.shown|;
      forall d | d in page.shown
        ensures PageOrder(d.effect) < PageOrder(es[n])
      {
        var i :| 0 <= i < n && page.shown[i] == d;
      }
      forall f | f in es && PageOrder(f) < PageOrder(es[n])
        ensures ApplyEffect(cv, base, f).Ok? && Display(f, ApplyEffect(cv, base, f).value) in page.shown
      {
        var i :| 0 <= i < |es| && es[i] == f;
        assert i < n;
        assert page.shown[i].effect == f;
      }
    }
  }

  /** The page `page` is what remains when ticked effect `e` raised: its
      exception is the error shown, every result shown lies above `e`, and
      every ticked box above `e` has its own result shown. */
  ghost predicate StoppedAt(cv: OpenCv, base: Grid, p: Panel, page: Page, e: Effect) {
    && page.error.Some?
    && ApplyEffect(cv, base, e) == Err(page.error.value)
    && (forall d | d in page.shown :: PageOrder(d.effect) < PageOrder(e))
    && (forall f | Checked(p, f) && PageOrder(f) < PageOrder(e) ::
          ApplyEffect(cv, base, f).Ok? && Display(f, ApplyEffect(cv, base, f).value) in page.shown)
  }

  /** When a ticked effect raises, the page shows the error of the first
      ticked effect that raised, and above it the result of every ticked box
      before it, each with its own image; nothing below it is shown. */
  lemma RunPanelStopsAtFirstError(cv: OpenCv, base: Grid, p: Panel)
    ensures var page := RunPanel(cv, base, p);
      page.error.Some? ==> exists e | Checked(p, e) :: StoppedAt(cv, base, p, page, e)
  {
    var es := EnabledEffects(p);
    var page := RunAll(cv, base, es);
    assert RunPanel(cv, base, p) == page;
    if page.error.Some? {
      var n := |page.shown|;
      ErrorPathOfList(cv, base, es);
      var e := es[n];
      assert Checked(p, e) by {
        EnabledAreChecked(p);
      }
      assert forall f | Checked(p, f) && PageOrder(f) < PageOrder(e) ::
          ApplyEffect(cv, base, f).Ok? && Display(f, ApplyEffect(cv, base, f).value) in page.shown by {
        EnabledAreChecked(p);
      }
      assert StoppedAt(cv, base, p, page, e);
    }
  }

  /** Whatever else is ticked, a result displayed for an effect is always
      that effect's own image of the base image; and when no ticked effect
      raises, an effect ticked on two panels shows the same image on both. */
  lemma ResultIndependentOfOthers(cv: OpenCv, base: Grid, p: Panel, q: Panel, e: Effect)
    requires Checked(p, e) && Checked(q, e)
    ensures forall d | d in RunPanel(cv, base, p).shown && d.effect == e :: Ok(d.image) == ApplyEffect(cv, base, e)
    ensures forall d | d in RunPanel(cv, base, q).shown && d.effect == e :: Ok(d.image) == ApplyEffect(cv, base, e)
    ensures RunPanel(cv, base, p).error.None? && RunPanel(cv, base, q).error.None? ==>
      && ApplyEffect(cv, base, e).Ok?
      && Display(e, ApplyEffect(cv, base, e).value) in RunPanel(cv, base, p).shown
      && Display(e, ApplyEffect(cv, base, e).value) in RunPanel(cv, base, q).shown
  {
  }

  /** An effect whose box is not ticked displays no result. */
  lemma UncheckedNotShown(cv: OpenCv, base: Grid, p: Panel, e: Effect)
    requires !Checked(p, e)
    ensures forall d | d in RunPanel(cv, base, p).shown :: d.effect != e
  {
  }

  /** With a kernel-5 blur ticked, its result heads the page whether or not
      sharpening is ticked; unticked, sharpening shows nothing, and ticked it
      shows its own result whenever no ticked effect raises. */
  lemma BlurUnaffectedBySharpening(cv: OpenCv, base: Grid, p: Panel)
    requires p.gaussianBlur == Some(5) && cv.gaussianBlur(base, 5).Ok?
    ensures |RunPanel(cv, base, p.(sharpening := true)).shown| > 0
    ensures RunPanel(cv, base, p.(sharpening := true)).shown[0] == Display(GaussianBlur(5), cv.gaussianBlur(base, 5).value)
    ensures |RunPanel(cv, base, p.(sharpening := false)).shown| > 0
    ensures RunPanel(cv, base, p.(sharpening := false)).shown[0] == Display(GaussianBlur(5), cv.gaussianBlur(base, 5).value)
    ensures RunPanel(cv, base, p.(sharpening := true)).error.None? ==>
      && cv.filter2D(base, SharpenKernel).Ok?
      && Display(Sharpening, cv.filter2D(base, SharpenKernel).value) in RunPanel(cv, base, p.(sharpening := true)).shown
    ensures forall d | d in RunPanel(cv, base, p.(sharpening := false)).shown :: d.effect != Sharpening
  {
    var on, off := p.(sharpening := true), p.(sharpening := false);
    BlurHeadsPage(cv, base, on);
    BlurHeadsPage(cv, base, off);
    assert Checked(on, Sharpening) && !Checked(off, Sharpening);
    assert ApplyEffect(cv, base, Sharpening) == cv.filter2D(base, SharpenKernel);
  }

  /** A ticked kernel-5 blur that does not raise heads the page. */
  lemma BlurHeadsPage(cv: OpenCv, base: Grid, p: Panel)
    requires p.gaussianBlur == Some(5) && cv.gaussianBlur(base, 5).Ok?
    ensures |RunPanel(cv, base, p).shown| > 0
    ensures RunPanel(cv, base, p).shown[0] == Display(GaussianBlur(5), cv.gaussianBlur(base, 5).value)
  {
  }
}
