/** Placement of the tip container next to a highlight: above it when there is room
    below the scroll position, otherwise below it, and horizontally centred on the
    highlight but kept inside the page. The measured width and height of the
    container are inputs here. */
module TipContainer {
  import opened Types
  import opened Numbers

  /** The gap, in pixels, between the highlight and the tip. */
  const GAP: real := 5.0

  /** `clamp(value, min, max)`: `min(max(value, min), max)`. */
  function Clamp(value: real, min: real, max: real): (r: real)
    ensures r <= max
    ensures min <= max ==> min <= r
    ensures min <= value <= max ==> r == value
    ensures value < min && min <= max ==> r == min
    ensures max < value ==> r == max
  {
    RealMin(RealMax(value, min), max)
  }

  /** Clamping twice to the same interval clamps once. */
  lemma ClampIdempotent(value: real, min: real, max: real)
    requires min <= max
    ensures Clamp(Clamp(value, min, max), min, max) == Clamp(value, min, max)
  {
  }

  /** The anchor the highlight layer hands to the tip: the highlight's top, left and
      bottom edges, and its width when known. */
  datatype TipStyle = TipStyle(top: real, left: real, bottom: real, highlightWidth: Option<real>)

  datatype Placement = Above | Below

  datatype Visibility = Hidden | Visible

  /** The container's style and the position handed to its popup. */
  datatype TipLayout = TipLayout(top: real, left: real, placement: Placement, visibility: Visibility)

  /** The tip moves below the highlight when placing it above would put its top
      edge above the scroll position. */
  predicate ShouldMove(style: TipStyle, height: real, scrollTop: real) {
    style.top - height - GAP < scrollTop
  }

  function TipTop(style: TipStyle, height: real, scrollTop: real): (top: real)
    ensures ShouldMove(style, height, scrollTop) ==> top == style.bottom + GAP
    ensures !ShouldMove(style, height, scrollTop) ==> top + height + GAP == style.top
  {
    if ShouldMove(style, height, scrollTop) then style.bottom + GAP else style.top - height - GAP
  }

  /** A tip kept above the highlight never starts above the scroll position, and a
      tip moved below starts under the highlight's bottom edge. */
  lemma TipTopVisible(style: TipStyle, height: real, scrollTop: real)
    ensures !ShouldMove(style, height, scrollTop) ==> scrollTop <= TipTop(style, height, scrollTop)
    ensures ShouldMove(style, height, scrollTop) ==> style.bottom < TipTop(style, height, scrollTop)
  {
  }

  /** The horizontal centre of the highlight; a missing width counts as 0. */
  function HighlightCenter(style: TipStyle): real {
    style.left + style.highlightWidth.GetOr(0.0) / 2.0
  }

  /** The left edge that centres a tip of the given width on the highlight. */
  function IdealLeft(style: TipStyle, width: real): (r: real)
    ensures r + width / 2.0 == HighlightCenter(style)
  {
    HighlightCenter(style) - width / 2.0
  }

  function PageRight(page: Rect): real {
    page.left + page.width
  }

  /** The left edge: the centred position, clamped to the page. */
  function TipLeft(style: TipStyle, width: real, page: Rect): (left: real)
    ensures page.left <= left
    ensures left <= RealMax(page.left, PageRight(page) - width)
    ensures width <= page.width ==> left + width <= PageRight(page)
    ensures (page.left <= IdealLeft(style, width) && IdealLeft(style, width) + width <= PageRight(page))
            ==> left == IdealLeft(style, width) && left + width / 2.0 == HighlightCenter(style)
  {
    Clamp(IdealLeft(style, width), page.left, RealMax(page.left, PageRight(page) - width))
  }

  /** A tip wider than the page starts at the page's left edge. */
  lemma WideTipStartsAtPageLeft(style: TipStyle, width: real, page: Rect)
    requires width > page.width
    ensures TipLeft(style, width, page) == page.left
  {
  }

  /** A highlight without a width is placed as one of width 0. */
  lemma MissingWidthIsZero(top: real, left: real, bottom: real, width: real, page: Rect)
    ensures TipLeft(TipStyle(top, left, bottom, None), width, page)
         == TipLeft(TipStyle(top, left, bottom, Some(0.0)), width, page)
  {
  }

  /** The whole layout: position, the popup's placement, and whether the container
      is shown (it stays hidden until it has been measured). */
  function Layout(style: TipStyle, width: real, height: real, scrollTop: real, page: Rect): (r: TipLayout)
    ensures r.placement == Below <==> ShouldMove(style, height, scrollTop)
    ensures r.visibility == Hidden <==> width == 0.0 && height == 0.0
    ensures r.top == TipTop(style, height, scrollTop) && r.left == TipLeft(style, width, page)
  {
    var isStyleCalculationInProgress := width == 0.0 && height == 0.0;
    var shouldMove := ShouldMove(style, height, scrollTop);
    TipLayout(
      TipTop(style, height, scrollTop),
      TipLeft(style, width, page),
      if shouldMove then Below else Above,
      if isStyleCalculationInProgress then Hidden else Visible)
  }
}
