/** The demo's list of saved highlights: a sorted copy of the records, by page and
    then by the top of the bounding rectangle, each shown with its rounded
    coordinates, under a header counting the records. */
module HighlightList {
  import opened Types
  import opened Numbers

  /** What the comparator reads of a record: its page and the top of its bounding
      rectangle. A stored bounding rectangle is a `Scaled` one, which has no `top`
      key, so its top is `y1`. */
  datatype ListKey = ListKey(page: int, top: real)

  function Key(h: Highlight): ListKey {
    ListKey(h.position.pageNumber, h.position.boundingRect.y1)
  }

  /** The comparator is negative: an earlier page, or the same page and a smaller top. */
  predicate KeyBefore(a: ListKey, b: ListKey) {
    a.page < b.page || (a.page == b.page && a.top < b.top)
  }

  predicate Before(a: Highlight, b: Highlight) {
    KeyBefore(Key(a), Key(b))
  }

  predicate SortedForList(s: seq<Highlight>) {
    forall i, j :: 0 <= i < j < |s| ==> !Before(s[j], s[i])
  }

  /** Inserts after every record the comparator does not put after `x`, so that ties
      keep their order. */
  function Insert(s: seq<Highlight>, x: Highlight): (r: seq<Highlight>)
    ensures |r| == |s| + 1
    ensures multiset(r) == multiset(s) + multiset{x}
  {
    if s == [] then [x]
    else if Before(x, s[0]) then [x] + s
    else
      assert s == [s[0]] + s[1..];
      [s[0]] + Insert(s[1..], x)
  }

  /** `[...highlights].sort(comparator)`: a stable sort, written as insertion of each
      record in turn. */
  function SortForList(hs: seq<Highlight>): (r: seq<Highlight>)
    ensures |r| == |hs|
    ensures multiset(r) == multiset(hs)
  {
    if hs == [] then []
    else
      assert hs == hs[..|hs| - 1] + [hs[|hs| - 1]];
      Insert(SortForList(hs[..|hs| - 1]), hs[|hs| - 1])
  }

  lemma {:induction false} InsertSorted(s: seq<Highlight>, x: Highlight)
    requires SortedForList(s)
    ensures SortedForList(Insert(s, x))
  {
    if s != [] && !Before(x, s[0]) {
      InsertSorted(s[1..], x);
      var tail := Insert(s[1..], x);
      forall j | 0 <= j < |tail|
        ensures !Before(tail[j], s[0])
      {
        assert tail[j] in multiset(tail);
        assert tail[j] in multiset(s[1..]) || tail[j] == x;
        if tail[j] != x {
          var m :| 0 <= m < |s[1..]| && s[1..][m] == tail[j];
          assert s[m + 1] == tail[j];
        }
      }
    }
  }

  /** The list is ordered by page, then by top, and holds the same records as the
      input, as often as the input does. The input itself is not reordered: the
      result is a new sequence. */
  lemma {:induction false} SortForListSpec(hs: seq<Highlight>)
    ensures SortedForList(SortForList(hs))
    ensures multiset(SortForList(hs)) == multiset(hs)
    ensures |SortForList(hs)| == |hs|
  {
    if hs != [] {
      SortForListSpec(hs[..|hs| - 1]);
      InsertSorted(SortForList(hs[..|hs| - 1]), hs[|hs| - 1]);
    }
  }

  /** The records with one key, in order. */
  function WithKey(s: seq<Highlight>, k: ListKey): (r: seq<Highlight>)
    ensures |r| <= |s|
  {
    if s == [] then []
    else if Key(s[0]) == k then [s[0]] + WithKey(s[1..], k)
    else WithKey(s[1..], k)
  }

  lemma {:induction false} WithKeyAppend(a: seq<Highlight>, b: seq<Highlight>, k: ListKey)
    ensures WithKey(a + b, k) == WithKey(a, k) + WithKey(b, k)
  {
    if a != [] {
      WithKeyAppend(a[1..], b, k);
      assert (a + b)[0] == a[0] && (a + b)[1..] == a[1..] + b;
    } else {
      assert a + b == b;
    }
  }

  /** In a sorted list, no record after a larger one has the smaller key. */
  lemma {:induction false} NoKeyAfterLarger(s: seq<Highlight>, x: Highlight)
    requires SortedForList(s) && s != [] && Before(x, s[0])
    ensures WithKey(s, Key(x)) == []
  {
    if |s| > 1 {
      assert Before(x, s[1..][0]) by {
        assert !Before(s[1], s[0]);
      }
      NoKeyAfterLarger(s[1..], x);
    }
  }

  /** Inserting into a sorted list puts the new record after every record with the
      same key. */
  lemma {:induction false} InsertWithKey(s: seq<Highlight>, x: Highlight, k: ListKey)
    requires SortedForList(s)
    ensures WithKey(Insert(s, x), k) == WithKey(s, k) + (if Key(x) == k then [x] else [])
  {
    if s == [] {
    } else if Before(x, s[0]) {
      assert Insert(s, x) == [x] + s;
      if Key(x) == k {
        NoKeyAfterLarger(s, x);
      }
      assert ([x] + s)[1..] == s;
    } else {
      InsertWithKey(s[1..], x, k);
      assert Insert(s, x)[1..] == Insert(s[1..], x);
    }
  }

  /** The sort is stable: the records that compare equal keep their input order. */
  lemma {:induction false} SortKeepsTies(hs: seq<Highlight>, k: ListKey)
    ensures WithKey(SortForList(hs), k) == WithKey(hs, k)
  {
    if hs != [] {
      SortKeepsTies(hs[..|hs| - 1], k);
      SortStepWithKey(hs, k);
    }
  }

  /** The last insertion step of the sort keeps the records with a key in order. */
  lemma SortStepWithKey(hs: seq<Highlight>, k: ListKey)
    requires hs != []
    requires WithKey(SortForList(hs[..|hs| - 1]), k) == WithKey(hs[..|hs| - 1], k)
    ensures WithKey(SortForList(hs), k) == WithKey(hs, k)
  {
    var front := hs[..|hs| - 1];
    var last := hs[|hs| - 1];
    var sorted := SortForList(front);
    SortForListSpec(front);
    calc {
      WithKey(SortForList(hs), k);
      WithKey(Insert(sorted, last), k);
      { InsertWithKey(sorted, last, k); WithKeySingle(last, k); }
      WithKey(sorted, k) + WithKey([last], k);
      WithKey(front, k) + WithKey([last], k);
      { WithKeySnoc(hs, k); }
      WithKey(hs, k);
    }
  }

  /** The records with a key are those of all but the last, then the last if it
      has the key. */
  lemma WithKeySnoc(hs: seq<Highlight>, k: ListKey)
    requires hs != []
    ensures WithKey(hs, k) == WithKey(hs[..|hs| - 1], k) + WithKey([hs[|hs| - 1]], k)
  {
    assert hs == hs[..|hs| - 1] + [hs[|hs| - 1]];
    WithKeyAppend(hs[..|hs| - 1], [hs[|hs| - 1]], k);
  }

  lemma WithKeySingle(x: Highlight, k: ListKey)
    ensures WithKey([x], k) == if Key(x) == k then [x] else []
  {
    assert [x][1..] == [];
  }

  /** A displayed coordinate: the rounded value, or a dash. */
  datatype Coordinate = Rounded(n: int) | Dash

  /** `Number.isFinite(raw) ? Math.round(raw) : "—"`, with `None` standing for a
      value that is missing or not finite. */
  function DisplayCoordinate(raw: Option<real>): (c: Coordinate)
    ensures raw.None? <==> c == Dash
    ensures raw.Some? ==> c.Rounded? && c.n as real - 0.5 <= raw.value < c.n as real + 0.5
  {
    match raw
    case None => Dash
    case Some(v) => Rounded(MathRound(v))
  }

  /** One row of the list: page, then y and x. */
  datatype Row = Row(page: int, y: Coordinate, x: Coordinate)

  function RowOf(h: Highlight): (r: Row)
    ensures r.page == h.position.pageNumber
    ensures r.y == Rounded(MathRound(h.position.boundingRect.y1))
    ensures r.x == Rounded(MathRound(h.position.boundingRect.x1))
  {
    var rect := h.position.boundingRect;
    Row(h.position.pageNumber, DisplayCoordinate(Some(rect.y1)), DisplayCoordinate(Some(rect.x1)))
  }

  /** What the list shows: its header count and the rows, in sorted order. */
  datatype Listing = Listing(count: nat, rows: seq<Row>)

  function ListingOf(hs: seq<Highlight>): (r: Listing)
    ensures r.count == |hs| && |r.rows| == |hs|
    ensures forall k :: 0 <= k < |hs| ==> r.rows[k] == RowOf(SortForList(hs)[k])
  {
    var sorted := SortForList(hs);
    Listing(|hs|, seq(|sorted|, k requires 0 <= k < |sorted| => RowOf(sorted[k])))
  }

  /** The rows' pages never decrease, and on one page the displayed y never
      decreases. */
  lemma ListingOrdered(hs: seq<Highlight>)
    ensures var rows := ListingOf(hs).rows;
      forall i, j :: 0 <= i < j < |rows| ==>
        rows[i].page <= rows[j].page &&
        (rows[i].page == rows[j].page ==> rows[i].y.n <= rows[j].y.n)
  {
    SortForListSpec(hs);
    var sorted := SortForList(hs);
    var rows := ListingOf(hs).rows;
    forall i, j | 0 <= i < j < |rows|
      ensures rows[i].page <= rows[j].page
      ensures rows[i].page == rows[j].page ==> rows[i].y.n <= rows[j].y.n
    {
      assert !Before(sorted[j], sorted[i]);
      if rows[i].page == rows[j].page {
        MathRoundMonotone(sorted[i].position.boundingRect.y1, sorted[j].position.boundingRect.y1);
      }
    }
  }
}
