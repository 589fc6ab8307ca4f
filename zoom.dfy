/** The zoom controller: a scale value that is either the symbolic "page-width" or a
    number written with two decimals, changed by the zoom buttons, by "fit width"
    and by Ctrl/Meta + wheel over the viewer. */
module Zoom {
  import opened Numbers
  import opened Text

  /** The bounds of the scale and the button step, in hundredths. */
  const MIN_SCALE: int := 50
  const MAX_SCALE: int := 300
  const BUTTON_STEP: int := 10

  /** The stored scale value. A number is kept the way `toFixed(2)` writes it: as a
      whole number of hundredths. */
  datatype ScaleValue = PageWidth | Fixed(hundredths: int)

  /** Every value the controller stores: "page-width" or a scale in [0.5, 3]. */
  predicate ValidScale(s: ScaleValue) {
    s.Fixed? ==> MIN_SCALE <= s.hundredths <= MAX_SCALE
  }

  /** `clampScale`. */
  function ClampScale(value: real): (r: real)
    ensures 0.5 <= r <= 3.0
    ensures 0.5 <= value <= 3.0 ==> r == value
    ensures value < 0.5 ==> r == 0.5
    ensures value > 3.0 ==> r == 3.0
  {
    RealMax(0.5, RealMin(3.0, value))
  }

  /** A larger input never clamps to a smaller scale. */
  lemma ClampScaleMonotone(a: real, b: real)
    requires a <= b
    ensures ClampScale(a) <= ClampScale(b)
  {
  }

  /** `parseScaleValue`: "page-width" counts as 1. */
  function ParseScaleValue(s: ScaleValue): (r: real)
    ensures s.PageWidth? ==> r == 1.0
    ensures s.Fixed? ==> r * 100.0 == s.hundredths as real
    ensures ValidScale(s) ==> 0.5 <= r <= 3.0
  {
    match s
    case PageWidth => 1.0
    case Fixed(h) => h as real / 100.0
  }

  /** A clamped scale written with two decimals. */
  function ToScaleValue(scale: real): (r: ScaleValue)
    ensures r.Fixed? && ValidScale(r)
    ensures r.hundredths as real - 0.5 <= ClampScale(scale) * 100.0 < r.hundredths as real + 0.5
  {
    var x := ClampScale(scale);
    MathRoundMonotone(0.5 * 100.0, x * 100.0);
    MathRoundMonotone(x * 100.0, 3.0 * 100.0);
    MathRoundOfInteger(50);
    MathRoundOfInteger(300);
    Fixed(ToFixedUnits(x, 100.0))
  }

  /** A scale that already has two decimals is written back unchanged. */
  lemma ToScaleValueOfHundredths(h: int)
    requires MIN_SCALE <= h <= MAX_SCALE
    ensures ToScaleValue(h as real / 100.0) == Fixed(h)
  {
    MathRoundOfInteger(h);
    assert h as real / 100.0 * 100.0 == h as real;
  }

  /** Writing with two decimals keeps the order of clamped scales. */
  lemma ToScaleValueMonotone(a: real, b: real)
    requires a <= b
    ensures ToScaleValue(a).hundredths <= ToScaleValue(b).hundredths
  {
    ClampScaleMonotone(a, b);
    MathRoundMonotone(ClampScale(a) * 100.0, ClampScale(b) * 100.0);
  }

  /** `normalizeDelta`: line mode (1) counts 16 pixels a line, page mode (2) 800
      pixels a page, and pixel mode is left as is. */
  function NormalizeDelta(deltaY: real, deltaMode: int): (r: real)
    ensures deltaMode == 1 ==> r == deltaY * 16.0
    ensures deltaMode == 2 ==> r == deltaY * 800.0
    ensures deltaMode != 1 && deltaMode != 2 ==> r == deltaY
    ensures (r < 0.0 <==> deltaY < 0.0) && (r > 0.0 <==> deltaY > 0.0)
  {
    var d := deltaY;
    if deltaMode == 1 then d * 16.0
    else if deltaMode == 2 then d * 800.0
    else d
  }

  /** What `Math.exp(-delta * 0.0008)` is known to be: positive, above 1 for a
      negative delta, below 1 for a positive one, and 1 for none. */
  predicate IsWheelFactor(factor: real, delta: real) {
    && factor > 0.0
    && (delta < 0.0 ==> factor > 1.0)
    && (delta > 0.0 ==> factor < 1.0)
    && (delta == 0.0 ==> factor == 1.0)
  }

  datatype WheelEvent = WheelEvent(deltaY: real, deltaMode: int, ctrlKey: bool, metaKey: bool, targetInContainer: bool)

  /** Whether the wheel event is handled: the listener is attached only while the
      container exists and the hook is active, and it reacts only to Ctrl/Meta
      wheels over the container. */
  predicate WheelHandled(listening: bool, e: WheelEvent) {
    listening && (e.ctrlKey || e.metaKey) && e.targetInContainer
  }

  /** The current scale multiplied by the wheel factor. */
  function ZoomedBy(scale: real, factor: real): real {
    scale * factor
  }

  /** The scale after one wheel event, `factor` standing for the exponential. */
  function WheelStep(s: ScaleValue, listening: bool, e: WheelEvent, factor: real): (r: ScaleValue)
    ensures !WheelHandled(listening, e) ==> r == s
    ensures WheelHandled(listening, e) ==> r == ToScaleValue(ZoomedBy(ParseScaleValue(s), factor))
  {
    if !listening then s
    else if !(e.ctrlKey || e.metaKey) then s
    else if !e.targetInContainer then s
    else ToScaleValue(ZoomedBy(ParseScaleValue(s), factor))
  }

  /** Scrolling up (negative delta) never zooms out, scrolling down never zooms in,
      and a zero delta keeps the scale. */
  lemma WheelDirection(s: ScaleValue, listening: bool, e: WheelEvent, factor: real)
    requires ValidScale(s)
    requires IsWheelFactor(factor, NormalizeDelta(e.deltaY, e.deltaMode))
    requires WheelHandled(listening, e)
    ensures e.deltaY < 0.0 ==> ParseScaleValue(WheelStep(s, listening, e, factor)) >= ParseScaleValue(s)
    ensures e.deltaY > 0.0 ==> ParseScaleValue(WheelStep(s, listening, e, factor)) <= ParseScaleValue(s)
    ensures e.deltaY == 0.0 ==> ParseScaleValue(WheelStep(s, listening, e, factor)) == ParseScaleValue(s)
  {
    if e.deltaY < 0.0 {
      assert factor > 1.0;
      FactorAboveOne(s, factor);
    } else if e.deltaY > 0.0 {
      assert factor < 1.0;
      FactorBelowOne(s, factor);
    } else {
      assert factor == 1.0;
      FactorOne(s);
    }
  }

  lemma FactorAboveOne(s: ScaleValue, factor: real)
    requires ValidScale(s) && factor > 1.0
    ensures ParseScaleValue(ToScaleValue(ZoomedBy(ParseScaleValue(s), factor))) >= ParseScaleValue(s)
  {
    if s.PageWidth? {
      WrittenAtLeast(100, factor);
    } else {
      WrittenAtLeast(s.hundredths, factor);
    }
  }

  lemma FactorBelowOne(s: ScaleValue, factor: real)
    requires ValidScale(s) && 0.0 < factor < 1.0
    ensures ParseScaleValue(ToScaleValue(ZoomedBy(ParseScaleValue(s), factor))) <= ParseScaleValue(s)
  {
    if s.PageWidth? {
      WrittenAtMost(100, factor);
    } else {
      WrittenAtMost(s.hundredths, factor);
    }
  }

  lemma FactorOne(s: ScaleValue)
    requires ValidScale(s)
    ensures ParseScaleValue(ToScaleValue(ZoomedBy(ParseScaleValue(s), 1.0))) == ParseScaleValue(s)
  {
    var h := if s.PageWidth? then 100 else s.hundredths;
    ToScaleValueOfHundredths(h);
  }

  lemma ScaledUp(c: real, f: real)
    requires c > 0.0 && f > 1.0
    ensures ZoomedBy(c, f) > c
  {
    PositiveProduct(c, f - 1.0);
  }

  lemma ScaledDown(c: real, f: real)
    requires c > 0.0 && f < 1.0
    ensures ZoomedBy(c, f) < c
  {
    PositiveProduct(c, 1.0 - f);
  }

  lemma PositiveProduct(a: real, b: real)
    requires a > 0.0 && b > 0.0
    ensures a * b > 0.0
  {
  }

  /** A stored scale times a factor above 1 is written no smaller. */
  lemma WrittenAtLeast(h: int, factor: real)
    requires MIN_SCALE <= h <= MAX_SCALE && factor > 1.0
    ensures ParseScaleValue(ToScaleValue(ZoomedBy(h as real / 100.0, factor))) >= h as real / 100.0
  {
    ScaledUp(h as real / 100.0, factor);
    ToScaleValueOfHundredths(h);
    ToScaleValueMonotone(h as real / 100.0, ZoomedBy(h as real / 100.0, factor));
  }

  /** A stored scale times a factor below 1 is written no larger. */
  lemma WrittenAtMost(h: int, factor: real)
    requires MIN_SCALE <= h <= MAX_SCALE && 0.0 < factor < 1.0
    ensures ParseScaleValue(ToScaleValue(ZoomedBy(h as real / 100.0, factor))) <= h as real / 100.0
  {
    ScaledDown(h as real / 100.0, factor);
    ToScaleValueOfHundredths(h);
    ToScaleValueMonotone(ZoomedBy(h as real / 100.0, factor), h as real / 100.0);
  }

  /** `zoomIn` and `zoomOut`: one button step, clamped, written with two decimals. */
  function ZoomedIn(s: ScaleValue): (r: ScaleValue)
    ensures ValidScale(r)
  {
    ToScaleValue(ParseScaleValue(s) + BUTTON_STEP as real / 100.0)
  }

  function ZoomedOut(s: ScaleValue): (r: ScaleValue)
    ensures ValidScale(r)
  {
    ToScaleValue(ParseScaleValue(s) - BUTTON_STEP as real / 100.0)
  }

  /** The step in hundredths: a stored scale moves by 0.1 and stops at the bounds;
      "page-width" steps from 1. */
  lemma ZoomSteps(s: ScaleValue)
    ensures s.Fixed? ==> ZoomedIn(s) == Fixed(IntMax(MIN_SCALE, IntMin(MAX_SCALE, s.hundredths + BUTTON_STEP)))
    ensures s.Fixed? ==> ZoomedOut(s) == Fixed(IntMax(MIN_SCALE, IntMin(MAX_SCALE, s.hundredths - BUTTON_STEP)))
    ensures s.PageWidth? ==> ZoomedIn(s) == Fixed(110) && ZoomedOut(s) == Fixed(90)
  {
    var h := if s.PageWidth? then 100 else s.hundredths;
    assert ParseScaleValue(s) == h as real / 100.0;
    var up := IntMax(MIN_SCALE, IntMin(MAX_SCALE, h + BUTTON_STEP));
    var down := IntMax(MIN_SCALE, IntMin(MAX_SCALE, h - BUTTON_STEP));
    assert ClampScale((h + BUTTON_STEP) as real / 100.0) == up as real / 100.0;
    assert ClampScale((h - BUTTON_STEP) as real / 100.0) == down as real / 100.0;
    ToScaleValueOfHundredths(up);
    ToScaleValueOfHundredths(down);
  }

  /** Zooming in from a value inside the range and then out again returns to it. */
  lemma ZoomInOutRoundTrip(h: int)
    requires MIN_SCALE <= h <= MAX_SCALE - BUTTON_STEP
    ensures ZoomedOut(ZoomedIn(Fixed(h))) == Fixed(h)
  {
    ZoomSteps(Fixed(h));
    ZoomSteps(Fixed(h + BUTTON_STEP));
  }

  /** `fitWidth`. */
  function FitWidth(): ScaleValue {
    PageWidth
  }

  /** `zoomLabel`: "Fit" for "page-width", otherwise the rounded percentage. */
  function ZoomLabel(s: ScaleValue): (r: string)
    ensures s.PageWidth? <==> r == "Fit"
    ensures s.Fixed? ==> r == IntToString(s.hundredths) + "%"
  {
    match s
    case PageWidth => "Fit"
    case Fixed(h) =>
      assert h as real / 100.0 * 100.0 == h as real;
      MathRoundOfInteger(h);
      var shown := IntToString(MathRound(h as real / 100.0 * 100.0)) + "%";
      assert shown[|shown| - 1] == '%';
      shown
  }

  /** The label without its last character. */
  function LabelDigits(s: ScaleValue): string {
    var shown := ZoomLabel(s);
    if shown == [] then [] else shown[..|shown| - 1]
  }

  /** The label of a stored scale is its number of hundredths followed by "%", the
      digits read back as that number, and only "page-width" reads "Fit". */
  lemma ZoomLabelSpec(s: ScaleValue)
    ensures ValidScale(s) && s.Fixed? ==>
      |ZoomLabel(s)| >= 2 && ZoomLabel(s)[|ZoomLabel(s)| - 1] == '%' &&
      IsDigits(LabelDigits(s)) && DigitsValue(LabelDigits(s)) == s.hundredths
  {
    if s.Fixed? {
      var h := s.hundredths;
      var shown := ZoomLabel(s);
      assert shown[|shown| - 1] == '%';
      if h >= 0 {
        assert shown[..|shown| - 1] == NatToString(h);
        NatToStringRoundTrip(h);
      }
    }
  }

  /** The operations of the controller, for reasoning about sequences of them. */
  datatype ZoomOp = ZoomIn | ZoomOut | FitWidthOp | Wheel(listening: bool, e: WheelEvent, factor: real)

  function Apply(s: ScaleValue, op: ZoomOp): ScaleValue {
    match op
    case ZoomIn => ZoomedIn(s)
    case ZoomOut => ZoomedOut(s)
    case FitWidthOp => FitWidth()
    case Wheel(listening, e, factor) => WheelStep(s, listening, e, factor)
  }

  function ApplyAll(s: ScaleValue, ops: seq<ZoomOp>): ScaleValue
    decreases |ops|
  {
    if ops == [] then s else ApplyAll(Apply(s, ops[0]), ops[1..])
  }

  /** Whatever the factor, the controller never leaves [0.5, 3]. */
  lemma {:induction false} ZoomStaysInRange(s: ScaleValue, ops: seq<ZoomOp>)
    requires ValidScale(s)
    ensures ValidScale(ApplyAll(s, ops))
    decreases |ops|
  {
    if ops != [] {
      ZoomStaysInRange(Apply(s, ops[0]), ops[1..]);
    }
  }

  /** The `useZoom` hook's state: the single `pdfScaleValue` field. */
  class ZoomController {
    var pdfScaleValue: ScaleValue

    predicate Valid()
      reads this
    {
      ValidScale(pdfScaleValue)
    }

    constructor()
      ensures pdfScaleValue == PageWidth && Valid()
    {
      pdfScaleValue := PageWidth;
    }

    method ZoomIn()
      modifies this
      ensures pdfScaleValue == ZoomedIn(old(pdfScaleValue)) && Valid()
    {
      var current := ParseScaleValue(pdfScaleValue);
      pdfScaleValue := ToScaleValue(current + BUTTON_STEP as real / 100.0);
    }

    method ZoomOut()
      modifies this
      ensures pdfScaleValue == ZoomedOut(old(pdfScaleValue)) && Valid()
    {
      var current := ParseScaleValue(pdfScaleValue);
      pdfScaleValue := ToScaleValue(current - BUTTON_STEP as real / 100.0);
    }

    method FitWidth()
      modifies this
      ensures pdfScaleValue == PageWidth && Valid()
    {
      pdfScaleValue := PageWidth;
    }

    /** The wheel listener; `factor` is the value of the exponential for this event. */
    method HandleWheel(listening: bool, e: WheelEvent, factor: real)
      modifies this
      ensures pdfScaleValue == WheelStep(old(pdfScaleValue), listening, e, factor)
      ensures old(Valid()) ==> Valid()
    {
      if !listening || !(e.ctrlKey || e.metaKey) || !e.targetInContainer {
        return;
      }
      var currentScale := ParseScaleValue(pdfScaleValue);
      pdfScaleValue := ToScaleValue(ZoomedBy(currentScale, factor));
    }

    function ZoomLabelNow(): string
      reads this
    {
      ZoomLabel(pdfScaleValue)
    }
  }
}
