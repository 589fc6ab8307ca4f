/** The demo application's own state: its highlight list with inline add, update,
    delete, save-comment and reset updaters, and its own zoom value with
    Ctrl/Meta + wheel, "−", "+" and "fit width". */
module DemoApp {
  import opened Types
  import opened Numbers
  import opened Text
  import opened Records
  import opened Zoom
  import HighlightsHook

  /** `NewHighlight`: a record without an id. */
  datatype NewHighlight = NewHighlight(position: ScaledPosition, content: Content, comment: Option<string>)

  /** `{ ...highlight, id: getNextId() }`: the fresh id is always used. */
  function WithFreshId(input: NewHighlight, freshId: string): (h: Highlight)
    ensures h.id == freshId
    ensures h.position == input.position && h.content == input.content && h.comment == input.comment
    ensures h.meta == None
  {
    Highlight(freshId, input.position, input.content, input.comment, None)
  }

  /** The record the demo's `updateHighlight` makes of a matching one: position and
      content are always merged, everything else is kept. */
  function Merged(h: Highlight, position: PositionPatch, content: ContentPatch): (r: Highlight)
    ensures r.id == h.id && r.comment == h.comment && r.meta == h.meta
    ensures r.position == MergePosition(h.position, position)
    ensures r.content == MergeContent(h.content, content)
  {
    h.(position := MergePosition(h.position, position), content := MergeContent(h.content, content))
  }

  /** The demo's `updateHighlight`: matching records are merged in place, the rest kept. */
  function AppUpdated(hs: seq<Highlight>, id: string, position: PositionPatch, content: ContentPatch): (r: seq<Highlight>)
    ensures |r| == |hs|
    ensures forall k :: 0 <= k < |hs| && hs[k].id != id ==> r[k] == hs[k]
    ensures forall k :: 0 <= k < |hs| && hs[k].id == id ==> r[k] == Merged(hs[k], position, content)
  {
    MapMatching(hs, id, h => Merged(h, position, content))
  }

  /** The demo's update is the hook's update with both a position and a content patch. */
  lemma AppUpdateAgreesWithHook(hs: seq<Highlight>, id: string, position: PositionPatch, content: ContentPatch)
    ensures AppUpdated(hs, id, position, content)
         == HighlightsHook.Updated(hs, id, HighlightsHook.HighlightPatch(Some(position), Some(content), None, None, None))
  {
    var patch := HighlightsHook.HighlightPatch(Some(position), Some(content), None, None, None);
    var l := AppUpdated(hs, id, position, content);
    var r := HighlightsHook.Updated(hs, id, patch);
    forall k | 0 <= k < |hs|
      ensures l[k] == r[k]
    {
    }
  }

  /** `saveComment`'s new list: only the comment of the records with the id changes,
      to the trimmed text or to nothing for blank text. */
  function AppCommented(hs: seq<Highlight>, id: string, text: string): (r: seq<Highlight>)
    ensures |r| == |hs|
    ensures forall k :: 0 <= k < |hs| && hs[k].id != id ==> r[k] == hs[k]
    ensures forall k :: 0 <= k < |hs| && hs[k].id == id ==> r[k] == hs[k].(comment := NormalizedComment(text))
  {
    MapMatching(hs, id, (h: Highlight) => h.(comment := NormalizedComment(text)))
  }

  /** The demo's save-comment is the hook's. */
  lemma AppCommentAgreesWithHook(hs: seq<Highlight>, id: string, text: string)
    ensures AppCommented(hs, id, text) == HighlightsHook.Updated(hs, id, HighlightsHook.CommentPatch(text))
  {
    var l := AppCommented(hs, id, text);
    var r := HighlightsHook.Updated(hs, id, HighlightsHook.CommentPatch(text));
    HighlightsHook.SaveCommentSpec(hs, id, text);
    forall k | 0 <= k < |hs|
      ensures l[k] == r[k]
    {
      if hs[k].id == id {
        assert l[k] == hs[k].(comment := NormalizedComment(text));
      } else {
        assert l[k] == hs[k];
      }
    }
  }

  /** The Ctrl/Meta wheel: one tenth down for a positive `deltaY`, one tenth up
      otherwise, clamped, written with one decimal. */
  function WheelDelta(deltaY: real): (d: real)
    ensures deltaY > 0.0 ==> d < 0.0
    ensures deltaY <= 0.0 ==> d > 0.0
    ensures d * d == 0.01
  {
    if deltaY > 0.0 then -0.1 else 0.1
  }

  function AppWheel(s: ScaleValue, listening: bool, ctrlOrMeta: bool, deltaY: real): (r: ScaleValue)
    ensures ValidScale(r) || r == s
    ensures !(listening && ctrlOrMeta) ==> r == s
    ensures listening && ctrlOrMeta ==>
      r.Fixed? && r.hundredths % 10 == 0
      && (r.hundredths / 10) as real - 0.5 <= ClampScale(ParseScaleValue(s) + WheelDelta(deltaY)) * 10.0
      && ClampScale(ParseScaleValue(s) + WheelDelta(deltaY)) * 10.0 < (r.hundredths / 10) as real + 0.5
  {
    if listening && ctrlOrMeta then
      var newScale := ClampScale(ParseScaleValue(s) + WheelDelta(deltaY));
      var tenths := ToFixedUnits(newScale, 10.0);
      Fixed(10 * tenths)
    else s
  }

  /** A handled wheel event always lands in [0.5, 3] on a whole tenth. */
  lemma AppWheelInRange(s: ScaleValue, ctrlOrMeta: bool, deltaY: real)
    requires ctrlOrMeta
    ensures var r := AppWheel(s, true, ctrlOrMeta, deltaY);
      ValidScale(r) && r.Fixed? && r.hundredths % 10 == 0
  {
  }

  /** A positive delta never zooms in and any other delta never zooms out. */
  lemma AppWheelDirection(s: ScaleValue, ctrlOrMeta: bool, deltaY: real)
    requires ValidScale(s)
    ensures deltaY > 0.0 ==> ParseScaleValue(AppWheel(s, true, ctrlOrMeta, deltaY)) <= ParseScaleValue(s)
    ensures deltaY <= 0.0 ==> ParseScaleValue(AppWheel(s, true, ctrlOrMeta, deltaY)) >= ParseScaleValue(s)
  {
  }

  /** From a value on a whole tenth, the wheel moves exactly one tenth, stopping at
      the bounds. */
  lemma AppWheelSteps(t: int, deltaY: real)
    requires 5 <= t <= 30
    ensures deltaY > 0.0 ==> AppWheel(Fixed(10 * t), true, true, deltaY) == Fixed(10 * IntMax(5, t - 1))
    ensures deltaY <= 0.0 ==> AppWheel(Fixed(10 * t), true, true, deltaY) == Fixed(10 * IntMin(30, t + 1))
  {
    var current := ParseScaleValue(Fixed(10 * t));
    assert current == t as real / 10.0;
    var next := if deltaY > 0.0 then IntMax(5, t - 1) else IntMin(30, t + 1);
    assert ClampScale(current + WheelDelta(deltaY)) == next as real / 10.0;
    assert next as real / 10.0 * 10.0 == next as real;
    MathRoundOfInteger(next);
  }

  /** The "−" button: a quarter down, never below 0.5, with no upper bound. */
  function MinusButton(s: ScaleValue): (r: ScaleValue)
    ensures r.Fixed? && r.hundredths >= 50
    ensures r.hundredths as real - 0.5 <= RealMax(0.5, ParseScaleValue(s) - 0.25) * 100.0 < r.hundredths as real + 0.5
  {
    Fixed(ToFixedUnits(RealMax(0.5, ParseScaleValue(s) - 0.25), 100.0))
  }

  /** The "+" button: a quarter up, never above 3, with no lower bound. */
  function PlusButton(s: ScaleValue): (r: ScaleValue)
    ensures r.Fixed? && r.hundredths <= 300
    ensures r.hundredths as real - 0.5 <= RealMin(3.0, ParseScaleValue(s) + 0.25) * 100.0 < r.hundredths as real + 0.5
  {
    // The sum is a whole number of hundredths, so no tie arises on the negative side.
    var h := if s.PageWidth? then 100 else s.hundredths;
    assert ParseScaleValue(s) == h as real / 100.0;
    var up := IntMin(300, h + 25);
    assert RealMin(3.0, h as real / 100.0 + 0.25) * 100.0 == up as real;
    MathRoundOfInteger(up);
    MathRoundOfInteger(-up);
    Fixed(ToFixedUnits(RealMin(3.0, ParseScaleValue(s) + 0.25), 100.0))
  }

  /** The buttons step by 25 hundredths; "page-width" steps from 1. */
  lemma ButtonSteps(s: ScaleValue)
    ensures s.Fixed? ==> MinusButton(s) == Fixed(IntMax(50, s.hundredths - 25))
    ensures s.Fixed? ==> PlusButton(s) == Fixed(IntMin(300, s.hundredths + 25))
    ensures s.PageWidth? ==> MinusButton(s) == Fixed(75) && PlusButton(s) == Fixed(125)
  {
    var h := if s.PageWidth? then 100 else s.hundredths;
    assert ParseScaleValue(s) == h as real / 100.0;
    var down := IntMax(50, h - 25);
    var up := IntMin(300, h + 25);
    assert RealMax(0.5, h as real / 100.0 - 0.25) == down as real / 100.0;
    assert RealMin(3.0, h as real / 100.0 + 0.25) == up as real / 100.0;
    assert down as real / 100.0 * 100.0 == down as real;
    assert up as real / 100.0 * 100.0 == up as real;
    MathRoundOfInteger(down);
    MathRoundOfInteger(up);
  }

  /** From a value in [0.5, 3] the buttons stay in [0.5, 3]; "−" is not clamped
      from above and "+" not from below, so outside the range they can leave it. */
  lemma ButtonsStayInRange(s: ScaleValue)
    requires ValidScale(s)
    ensures ValidScale(MinusButton(s)) && ValidScale(PlusButton(s))
  {
    ButtonSteps(s);
  }

  lemma ButtonsUnclampedOutsideRange()
    ensures MinusButton(Fixed(400)) == Fixed(375)
    ensures PlusButton(Fixed(10)) == Fixed(35)
  {
    ButtonSteps(Fixed(400));
    ButtonSteps(Fixed(10));
  }

  /** The demo application's state. */
  class App {
    var highlights: seq<Highlight>
    var pdfScaleValue: ScaleValue
    var editingHighlight: Option<Highlight>
    var isPanelOpen: bool

    constructor()
      ensures highlights == [] && pdfScaleValue == PageWidth
      ensures editingHighlight == None && !isPanelOpen
    {
      highlights := [];
      pdfScaleValue := PageWidth;
      editingHighlight := None;
      isPanelOpen := false;
    }

    method AddHighlight(input: NewHighlight, freshId: string) returns (h: Highlight)
      modifies this`highlights
      ensures h == WithFreshId(input, freshId)
      ensures highlights == [h] + old(highlights)
    {
      h := Highlight(freshId, input.position, input.content, input.comment, None);
      highlights := [h] + highlights;
    }

    method UpdateHighlight(id: string, position: PositionPatch, content: ContentPatch)
      modifies this`highlights
      ensures highlights == AppUpdated(old(highlights), id, position, content)
    {
      highlights := AppUpdated(highlights, id, position, content);
    }

    method DeleteHighlight(id: string)
      modifies this`highlights
      ensures highlights == RemoveId(old(highlights), id)
    {
      highlights := RemoveId(highlights, id);
    }

    method SaveComment(id: string, text: string)
      modifies this`highlights, this`editingHighlight
      ensures highlights == AppCommented(old(highlights), id, text)
      ensures editingHighlight == None
    {
      highlights := AppCommented(highlights, id, text);
      editingHighlight := None;
    }

    method ResetHighlights()
      modifies this`highlights
      ensures highlights == []
    {
      highlights := [];
    }

    method SetPanelOpen(open: bool)
      modifies this`isPanelOpen
      ensures isPanelOpen == open
    {
      isPanelOpen := open;
    }

    /** The wheel listener, attached only while the container is mounted and the
        panel is open. */
    method HandleWheel(containerMounted: bool, ctrlKey: bool, metaKey: bool, deltaY: real)
      modifies this`pdfScaleValue
      ensures pdfScaleValue == AppWheel(old(pdfScaleValue), containerMounted && isPanelOpen, ctrlKey || metaKey, deltaY)
    {
      if containerMounted && isPanelOpen && (ctrlKey || metaKey) {
        var currentScale := ParseScaleValue(pdfScaleValue);
        var delta := WheelDelta(deltaY);
        var newScale := ClampScale(currentScale + delta);
        pdfScaleValue := Fixed(10 * ToFixedUnits(newScale, 10.0));
      }
    }

    method ZoomOutButton()
      modifies this`pdfScaleValue
      ensures pdfScaleValue == MinusButton(old(pdfScaleValue))
    {
      pdfScaleValue := MinusButton(pdfScaleValue);
    }

    method ZoomInButton()
      modifies this`pdfScaleValue
      ensures pdfScaleValue == PlusButton(old(pdfScaleValue))
    {
      pdfScaleValue := PlusButton(pdfScaleValue);
    }

    method FitWidthButton()
      modifies this`pdfScaleValue
      ensures pdfScaleValue == PageWidth
    {
      pdfScaleValue := PageWidth;
    }

    /** The zoom label reads the same as the hook's. */
    function Label(): (r: string)
      reads this
      ensures pdfScaleValue.PageWidth? <==> r == "Fit"
      ensures pdfScaleValue.Fixed? ==> r == IntToString(pdfScaleValue.hundredths) + "%"
    {
      ZoomLabel(pdfScaleValue)
    }
  }
}
