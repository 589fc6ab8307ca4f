/** The per-page partition of highlights (`groupHighlightsByPage`): which pages get a
    group, and which page-local copy of each highlight lands in each group. The loop
    that builds the partition lives in `Highlighter.PdfHighlighter`; these are the
    functions it is proved against and the facts proved about them. */
module Partition {
  import opened Types

  /** The highlight under construction after "transform selection": a position and,
      for an area selection, the captured image. */
  datatype GhostHighlight = GhostHighlight(position: ScaledPosition, content: Option<Content>)

  /** One element of the list the partition walks: a committed highlight or the ghost. */
  datatype Entry = Committed(highlight: Highlight) | InProgress(inProgress: GhostHighlight)

  function PositionOf(e: Entry): ScaledPosition {
    match e
    case Committed(h) => h.position
    case InProgress(g) => g.position
  }

  /** `{ ...e, position: p }`: the same entry with its position replaced. */
  function WithPosition(e: Entry, p: ScaledPosition): (r: Entry)
    ensures PositionOf(r) == p
    ensures r.Committed? == e.Committed?
  {
    match e
    case Committed(h) => Committed(h.(position := p))
    case InProgress(g) => InProgress(g.(position := p))
  }

  /** Replacing the position touches nothing else: putting the old one back restores the entry. */
  lemma WithPositionRestores(e: Entry, p: ScaledPosition)
    ensures WithPosition(WithPosition(e, p), PositionOf(e)) == e
  {
  }

  /** `[...highlights, ghostHighlight].filter(Boolean)`: the committed highlights in
      order, then the ghost when there is one. */
  function AllHighlights(highlights: seq<Highlight>, ghostHighlight: Option<GhostHighlight>): (r: seq<Entry>)
    ensures |r| == |highlights| + (if ghostHighlight.Some? then 1 else 0)
    ensures forall i :: 0 <= i < |highlights| ==> r[i] == Committed(highlights[i])
    ensures ghostHighlight.Some? ==> r[|highlights|] == InProgress(ghostHighlight.value)
  {
    seq(|highlights|, i requires 0 <= i < |highlights| => Committed(highlights[i]))
      + (if ghostHighlight.Some? then [InProgress(ghostHighlight.value)] else [])
  }

  /** The page a rect is filed under: its own page number when truthy, else the highlight's. */
  function RectPage(rect: Scaled, own: int): int {
    if IsTruthyPage(rect.pageNumber) then rect.pageNumber.value else own
  }

  /** The rects filed under `page`, in their original order. */
  function RectsOnPage(rects: seq<Scaled>, page: int, own: int): (r: seq<Scaled>)
    ensures |r| <= |rects|
    ensures forall k :: 0 <= k < |r| ==> RectPage(r[k], own) == page
  {
    if rects == [] then []
    else
      var last := rects[|rects| - 1];
      RectsOnPage(rects[..|rects| - 1], page, own) + (if RectPage(last, own) == page then [last] else [])
  }

  /** The rects filed under a page are exactly those whose `RectPage` is that page,
      each as often as it occurs in the input. */
  lemma {:induction false} RectsOnPageFilters(rects: seq<Scaled>, page: int, own: int)
    ensures forall x :: x in RectsOnPage(rects, page, own) ==> RectPage(x, own) == page
    ensures forall x :: multiset(RectsOnPage(rects, page, own))[x]
                     == if RectPage(x, own) == page then multiset(rects)[x] else 0
    decreases |rects|
  {
    if rects != [] {
      var last := rects[|rects| - 1];
      RectsOnPageFilters(rects[..|rects| - 1], page, own);
      assert rects == rects[..|rects| - 1] + [last];
    }
  }

  /** Filing rects distributes over concatenation; with the one-rect case below this
      makes `RectsOnPage` the order-preserving filter. */
  lemma {:induction false} RectsOnPageAppend(a: seq<Scaled>, b: seq<Scaled>, page: int, own: int)
    ensures RectsOnPage(a + b, page, own) == RectsOnPage(a, page, own) + RectsOnPage(b, page, own)
    decreases |b|
  {
    if b != [] {
      var b' := b[..|b| - 1];
      assert (a + b)[..|a + b| - 1] == a + b';
      RectsOnPageAppend(a, b', page, own);
    } else {
      assert a + b == a;
    }
  }

  lemma RectsOnPageSingle(x: Scaled, page: int, own: int)
    ensures RectsOnPage([x], page, own) == if RectPage(x, own) == page then [x] else []
  {
    assert [x][..0] == [];
  }

  /** Every rect is filed under exactly one page: the page `RectPage` names. */
  lemma RectLandsOnItsPage(rects: seq<Scaled>, k: int, page: int, own: int)
    requires 0 <= k < |rects|
    ensures rects[k] in RectsOnPage(rects, page, own) <==> RectPage(rects[k], own) == page
  {
    RectsOnPageFilters(rects, page, own);
    assert rects[k] in multiset(rects);
  }

  /** The truthy page numbers carried by the rects. */
  function TruthyRectPages(rects: seq<Scaled>): set<int> {
    if rects == [] then {}
    else
      var last := rects[|rects| - 1];
      TruthyRectPages(rects[..|rects| - 1]) + (if IsTruthyPage(last.pageNumber) then {last.pageNumber.value} else {})
  }

  predicate HasTruthyRectOn(rects: seq<Scaled>, page: int) {
    exists j :: 0 <= j < |rects| && IsTruthyPage(rects[j].pageNumber) && rects[j].pageNumber.value == page
  }

  lemma {:induction false} TruthyRectPagesSpec(rects: seq<Scaled>, page: int)
    ensures page in TruthyRectPages(rects) <==> HasTruthyRectOn(rects, page)
    decreases |rects|
  {
    if rects != [] {
      var n := |rects| - 1;
      TruthyRectPagesSpec(rects[..n], page);
      if HasTruthyRectOn(rects[..n], page) {
        var j :| 0 <= j < n && IsTruthyPage(rects[..n][j].pageNumber) && rects[..n][j].pageNumber.value == page;
        assert rects[j] == rects[..n][j];
      }
      if HasTruthyRectOn(rects, page) && !(IsTruthyPage(rects[n].pageNumber) && rects[n].pageNumber.value == page) {
        var j :| 0 <= j < |rects| && IsTruthyPage(rects[j].pageNumber) && rects[j].pageNumber.value == page;
        assert rects[..n][j] == rects[j];
      }
    }
  }

  /** The pages one entry contributes to the key set. */
  function EntryPages(e: Entry): set<int> {
    {PositionOf(e).pageNumber} + TruthyRectPages(PositionOf(e).rects)
  }

  /** The key set: every entry's own page and every truthy rect page. */
  function PageNumbers(all: seq<Entry>): (r: set<int>)
    ensures forall i :: 0 <= i < |all| ==> EntryPages(all[i]) <= r
  {
    if all == [] then {} else PageNumbers(all[..|all| - 1]) + EntryPages(all[|all| - 1])
  }

  /** An entry touches a page when it is its own page or one of its rects names it. */
  predicate Touches(e: Entry, page: int) {
    PositionOf(e).pageNumber == page || HasTruthyRectOn(PositionOf(e).rects, page)
  }

  /** The keys are exactly the pages some entry touches. */
  lemma {:induction false} PageNumbersSpec(all: seq<Entry>, page: int)
    ensures page in PageNumbers(all) <==> exists i :: 0 <= i < |all| && Touches(all[i], page)
    decreases |all|
  {
    if all != [] {
      var n := |all| - 1;
      PageNumbersSpec(all[..n], page);
      TruthyRectPagesSpec(PositionOf(all[n]).rects, page);
      if exists i :: 0 <= i < n && Touches(all[..n][i], page) {
        var i :| 0 <= i < n && Touches(all[..n][i], page);
        assert all[i] == all[..n][i];
      }
      if (exists i :: 0 <= i < |all| && Touches(all[i], page)) && !Touches(all[n], page) {
        var i :| 0 <= i < |all| && Touches(all[i], page);
        assert all[..n][i] == all[i];
      }
    }
  }

  /** Whether the entry gets a copy in the page's group. */
  predicate OnPage(e: Entry, page: int) {
    |RectsOnPage(PositionOf(e).rects, page, PositionOf(e).pageNumber)| > 0 || page == PositionOf(e).pageNumber
  }

  /** An entry has a copy in a page's group exactly when it touches that page. */
  lemma OnPageIffTouches(e: Entry, page: int)
    ensures OnPage(e, page) <==> Touches(e, page)
  {
    var pos := PositionOf(e);
    var r := RectsOnPage(pos.rects, page, pos.pageNumber);
    RectsOnPageFilters(pos.rects, page, pos.pageNumber);
    if |r| > 0 && page != pos.pageNumber {
      assert r[0] in r;
      assert multiset(r)[r[0]] > 0;
      assert r[0] in multiset(pos.rects);
      var j :| 0 <= j < |pos.rects| && pos.rects[j] == r[0];
      assert HasTruthyRectOn(pos.rects, page);
    }
    if HasTruthyRectOn(pos.rects, page) {
      var j :| 0 <= j < |pos.rects| && IsTruthyPage(pos.rects[j].pageNumber) && pos.rects[j].pageNumber.value == page;
      RectLandsOnItsPage(pos.rects, j, page, pos.pageNumber);
    }
  }

  /** The copy filed under `page`: that page's rects only, the page number set to the
      group's page, bounding rect and coordinate flag kept. */
  function PageLocal(e: Entry, page: int): (r: Entry)
    ensures PositionOf(r).pageNumber == page
    ensures PositionOf(r).boundingRect == PositionOf(e).boundingRect
    ensures PositionOf(r).usePdfCoordinates == PositionOf(e).usePdfCoordinates
    ensures PositionOf(r).rects == RectsOnPage(PositionOf(e).rects, page, PositionOf(e).pageNumber)
    ensures WithPosition(r, PositionOf(e)) == e
  {
    var pos := PositionOf(e);
    WithPosition(e, ScaledPosition(pos.boundingRect, RectsOnPage(pos.rects, page, pos.pageNumber), page, pos.usePdfCoordinates))
  }

  /** The group of one page, in input order. */
  function GroupFor(all: seq<Entry>, page: int): (r: seq<Entry>)
    ensures |r| <= |all|
    ensures forall k :: 0 <= k < |r| ==> PositionOf(r[k]).pageNumber == page
  {
    if all == [] then []
    else
      var last := all[|all| - 1];
      GroupFor(all[..|all| - 1], page) + (if OnPage(last, page) then [PageLocal(last, page)] else [])
  }

  /** Groups keep the input order: grouping distributes over concatenation. */
  lemma {:induction false} GroupForAppend(a: seq<Entry>, b: seq<Entry>, page: int)
    ensures GroupFor(a + b, page) == GroupFor(a, page) + GroupFor(b, page)
    decreases |b|
  {
    if b != [] {
      var b' := b[..|b| - 1];
      assert (a + b)[..|a + b| - 1] == a + b';
      GroupForAppend(a, b', page);
    } else {
      assert a + b == a;
    }
  }

  lemma GroupForSingle(e: Entry, page: int)
    ensures GroupFor([e], page) == if OnPage(e, page) then [PageLocal(e, page)] else []
  {
    assert [e][..0] == [];
  }

  /** The ghost comes last in every group it belongs to, after the committed highlights. */
  lemma GhostLast(highlights: seq<Highlight>, g: GhostHighlight, page: int)
    ensures GroupFor(AllHighlights(highlights, Some(g)), page)
         == GroupFor(AllHighlights(highlights, None), page)
            + (if OnPage(InProgress(g), page) then [PageLocal(InProgress(g), page)] else [])
  {
    var withGhost := AllHighlights(highlights, Some(g));
    assert withGhost[..|withGhost| - 1] == AllHighlights(highlights, None);
  }

  /** A group is non-empty exactly when some entry has a copy on that page. */
  lemma {:induction false} GroupNonEmptyIff(all: seq<Entry>, page: int)
    ensures |GroupFor(all, page)| > 0 <==> exists i :: 0 <= i < |all| && OnPage(all[i], page)
    decreases |all|
  {
    if all != [] {
      var n := |all| - 1;
      var front := all[..n];
      var last := all[n];
      GroupNonEmptyIff(front, page);
      assert |GroupFor(all, page)| == |GroupFor(front, page)| + (if OnPage(last, page) then 1 else 0);
      if OnPage(last, page) {
        assert 0 <= n < |all| && OnPage(all[n], page);
      } else if |GroupFor(front, page)| > 0 {
        var i :| 0 <= i < n && OnPage(front[i], page);
        assert front[i] == all[i];
      } else {
        forall i | 0 <= i < |all| ensures !OnPage(all[i], page) {
          if i < n {
            assert front[i] == all[i];
          }
        }
      }
    }
  }

  /** Exactly the keys have non-empty groups: every key's group holds something, and
      no highlight is filed under a page outside the key set. */
  lemma GroupKeys(all: seq<Entry>, page: int)
    ensures |GroupFor(all, page)| > 0 <==> page in PageNumbers(all)
  {
    GroupNonEmptyIff(all, page);
    PageNumbersSpec(all, page);
    forall i | 0 <= i < |all| ensures OnPage(all[i], page) <==> Touches(all[i], page) {
      OnPageIffTouches(all[i], page);
    }
  }
}
