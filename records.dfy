/** The list operations shared by the highlight store and the demo applications:
    removing every record with an id, rewriting every record with an id, the
    shallow merge of a position or content patch, and the comment normalisation
    `comment.trim() || undefined`. */
module Records {
  import opened Types
  import opened Text

  /** `Partial<ScaledPosition>`: each key is either absent (`None`) or given. The
      optional key `usePdfCoordinates` may be given as `undefined`, hence the
      nested option. */
  datatype PositionPatch = PositionPatch(
    boundingRect: Option<Scaled>,
    rects: Option<seq<Scaled>>,
    pageNumber: Option<int>,
    usePdfCoordinates: Option<Option<bool>>)

  /** `Partial<Content>`, with the same reading of its optional keys. */
  datatype ContentPatch = ContentPatch(text: Option<Option<string>>, image: Option<Option<string>>)

  const EmptyPositionPatch := PositionPatch(None, None, None, None)
  const EmptyContentPatch := ContentPatch(None, None)

  /** The value of a key after spreading a patch over a record. */
  function Spread<T>(original: T, patch: Option<T>): (r: T)
    ensures patch.None? ==> r == original
    ensures patch.Some? ==> r == patch.value
  {
    match patch
    case None => original
    case Some(v) => v
  }

  /** `{ ...position, ...patch }`: a key the patch gives takes the patch's value; every
      other key keeps its own. */
  function MergePosition(p: ScaledPosition, patch: PositionPatch): (r: ScaledPosition)
    ensures patch.boundingRect.None? ==> r.boundingRect == p.boundingRect
    ensures patch.boundingRect.Some? ==> r.boundingRect == patch.boundingRect.value
    ensures patch.rects.None? ==> r.rects == p.rects
    ensures patch.rects.Some? ==> r.rects == patch.rects.value
    ensures patch.pageNumber.None? ==> r.pageNumber == p.pageNumber
    ensures patch.pageNumber.Some? ==> r.pageNumber == patch.pageNumber.value
    ensures patch.usePdfCoordinates.None? ==> r.usePdfCoordinates == p.usePdfCoordinates
    ensures patch.usePdfCoordinates.Some? ==> r.usePdfCoordinates == patch.usePdfCoordinates.value
  {
    ScaledPosition(
      Spread(p.boundingRect, patch.boundingRect),
      Spread(p.rects, patch.rects),
      Spread(p.pageNumber, patch.pageNumber),
      Spread(p.usePdfCoordinates, patch.usePdfCoordinates))
  }

  /** `{ ...content, ...patch }`: a key the patch gives takes the patch's value; the
      other keeps its own. */
  function MergeContent(c: Content, patch: ContentPatch): (r: Content)
    ensures patch.text.None? ==> r.text == c.text
    ensures patch.text.Some? ==> r.text == patch.text.value
    ensures patch.image.None? ==> r.image == c.image
    ensures patch.image.Some? ==> r.image == patch.image.value
  {
    Content(Spread(c.text, patch.text), Spread(c.image, patch.image))
  }

  /** An empty patch changes nothing, and spreading the same patch twice is
      spreading it once. */
  lemma MergeIdentityAndIdempotence(p: ScaledPosition, c: Content, pp: PositionPatch, cp: ContentPatch)
    ensures MergePosition(p, EmptyPositionPatch) == p
    ensures MergeContent(c, EmptyContentPatch) == c
    ensures MergePosition(MergePosition(p, pp), pp) == MergePosition(p, pp)
    ensures MergeContent(MergeContent(c, cp), cp) == MergeContent(c, cp)
  {
  }

  /** `list.filter(h => h.id !== id)`. */
  function RemoveId(hs: seq<Highlight>, id: string): (r: seq<Highlight>)
    ensures |r| <= |hs|
  {
    if hs == [] then []
    else if hs[0].id == id then RemoveId(hs[1..], id)
    else [hs[0]] + RemoveId(hs[1..], id)
  }

  /** The filter keeps exactly the records whose id differs, each as many times as
      it occurs. */
  lemma {:induction false} RemoveIdSpec(hs: seq<Highlight>, id: string)
    ensures forall k :: 0 <= k < |RemoveId(hs, id)| ==> RemoveId(hs, id)[k].id != id
    ensures forall h :: multiset(RemoveId(hs, id))[h] == if h.id == id then 0 else multiset(hs)[h]
    ensures forall h :: h in RemoveId(hs, id) <==> h in hs && h.id != id
  {
    if hs != [] {
      RemoveIdSpec(hs[1..], id);
      assert hs == [hs[0]] + hs[1..];
    }
  }

  /** The filter works piecewise, so the kept records stay in their order. */
  lemma {:induction false} RemoveIdAppend(a: seq<Highlight>, b: seq<Highlight>, id: string)
    ensures RemoveId(a + b, id) == RemoveId(a, id) + RemoveId(b, id)
  {
    if a != [] {
      RemoveIdAppend(a[1..], b, id);
      assert (a + b)[0] == a[0] && (a + b)[1..] == a[1..] + b;
    } else {
      assert a + b == b;
    }
  }

  /** A list without the id is left as it is, and filtering twice filters once. */
  lemma {:induction false} RemoveIdAbsent(hs: seq<Highlight>, id: string)
    requires forall k :: 0 <= k < |hs| ==> hs[k].id != id
    ensures RemoveId(hs, id) == hs
  {
    if hs != [] {
      RemoveIdAbsent(hs[1..], id);
    }
  }

  lemma RemoveIdIdempotent(hs: seq<Highlight>, id: string)
    ensures RemoveId(RemoveId(hs, id), id) == RemoveId(hs, id)
  {
    RemoveIdSpec(hs, id);
    RemoveIdAbsent(RemoveId(hs, id), id);
  }

  /** `list.map(h => h.id === id ? f(h) : h)`: records with another id are untouched
      and records with the id are rewritten, all in place. */
  function MapMatching(hs: seq<Highlight>, id: string, f: Highlight -> Highlight): (r: seq<Highlight>)
    ensures |r| == |hs|
    ensures forall k :: 0 <= k < |hs| && hs[k].id != id ==> r[k] == hs[k]
    ensures forall k :: 0 <= k < |hs| && hs[k].id == id ==> r[k] == f(hs[k])
  {
    seq(|hs|, k requires 0 <= k < |hs| => if hs[k].id == id then f(hs[k]) else hs[k])
  }

  /** The rewrite works piecewise. */
  lemma MapMatchingAppend(a: seq<Highlight>, b: seq<Highlight>, id: string, f: Highlight -> Highlight)
    ensures MapMatching(a + b, id, f) == MapMatching(a, id, f) + MapMatching(b, id, f)
  {
    var l := MapMatching(a + b, id, f);
    var r := MapMatching(a, id, f) + MapMatching(b, id, f);
    assert forall k :: 0 <= k < |l| ==> l[k] == r[k];
  }

  /** A rewrite that keeps ids keeps the id of every position, and is invisible once
      the records with the id are filtered out. */
  lemma {:induction false} RewriteInvisibleOutsideId(hs: seq<Highlight>, id: string, f: Highlight -> Highlight)
    requires forall h :: f(h).id == h.id
    ensures forall k :: 0 <= k < |hs| ==> MapMatching(hs, id, f)[k].id == hs[k].id
    ensures RemoveId(MapMatching(hs, id, f), id) == RemoveId(hs, id)
  {
    if hs != [] {
      RewriteInvisibleOutsideId(hs[1..], id, f);
      assert hs == [hs[0]] + hs[1..];
      MapMatchingAppend([hs[0]], hs[1..], id, f);
    }
  }

  /** `comment.trim() || undefined`: the trimmed text, or nothing when only
      whitespace was given. */
  function NormalizedComment(text: string): (r: Option<string>)
    ensures r.None? <==> AllTrimmable(text)
    ensures r.Some? ==> r.value == Trim(text) && r.value != []
    ensures r.Some? ==> !IsTrimmable(r.value[0]) && !IsTrimmable(r.value[|r.value| - 1])
  {
    TrimEmptyIff(text);
    var trimmed := Trim(text);
    if trimmed == "" then None else Some(trimmed)
  }

  /** Normalising an already normalised comment keeps it. */
  lemma NormalizedCommentIdempotent(text: string)
    requires NormalizedComment(text).Some?
    ensures NormalizedComment(NormalizedComment(text).value) == NormalizedComment(text)
  {
    var t := NormalizedComment(text).value;
    TrimOfTrimmed(t);
  }

  /** A string with no trimmable character at either end is its own trim. */
  lemma TrimOfTrimmed(t: string)
    requires t != [] && !IsTrimmable(t[0]) && !IsTrimmable(t[|t| - 1])
    ensures Trim(t) == t
  {
    assert TrimStart(t) == t;
  }
}
