/** The `useHighlights` hook: a list of highlight records owned by the caller, with
    add, update, delete, save-comment and reset, and the record being edited. Fresh
    ids come from the caller's `getId` or a random generator; here the fresh id is a
    parameter. */
module HighlightsHook {
  import opened Types
  import opened Text
  import opened Records

  /** `Omit<T, "id"> & { id?: string }`. */
  datatype HighlightInput = HighlightInput(
    id: Option<string>,
    position: ScaledPosition,
    content: Content,
    comment: Option<string>,
    meta: Option<Meta>)

  /** `Partial<Omit<T, "id">>`. An `id` key is listed too, because a patch built
      with a cast may carry one at run time. */
  datatype HighlightPatch = HighlightPatch(
    position: Option<PositionPatch>,
    content: Option<ContentPatch>,
    comment: Option<Option<string>>,
    meta: Option<Option<Meta>>,
    id: Option<string>)

  const EmptyPatch := HighlightPatch(None, None, None, None, None)

  /** `{ ...highlight, id: highlight.id ?? resolveId() }`. */
  function NewRecord(input: HighlightInput, freshId: string): (r: Highlight)
    ensures input.id.Some? ==> r.id == input.id.value
    ensures input.id.None? ==> r.id == freshId
    ensures r.position == input.position && r.content == input.content
    ensures r.comment == input.comment && r.meta == input.meta
  {
    Highlight(input.id.GetOr(freshId), input.position, input.content, input.comment, input.meta)
  }

  /** An empty caller id is kept: `??` replaces only a missing one. */
  lemma EmptyIdKept(input: HighlightInput, freshId: string)
    requires input.id == Some("")
    ensures NewRecord(input, freshId).id == ""
  {
  }

  /** The record an update makes of a matching one. */
  function ApplyPatch(h: Highlight, patch: HighlightPatch): (r: Highlight)
    ensures r.id == h.id
    ensures patch.position.None? ==> r.position == h.position
    ensures patch.position.Some? ==> r.position == MergePosition(h.position, patch.position.value)
    ensures patch.content.None? ==> r.content == h.content
    ensures patch.content.Some? ==> r.content == MergeContent(h.content, patch.content.value)
    ensures r.comment == Spread(h.comment, patch.comment) && r.meta == Spread(h.meta, patch.meta)
  {
    var nextPosition := if patch.position.Some? then MergePosition(h.position, patch.position.value) else h.position;
    var nextContent := if patch.content.Some? then MergeContent(h.content, patch.content.value) else h.content;
    Highlight(h.id, nextPosition, nextContent, Spread(h.comment, patch.comment), Spread(h.meta, patch.meta))
  }

  /** An id in the patch has no effect, and an empty patch changes nothing. */
  lemma PatchIdIgnored(h: Highlight, patch: HighlightPatch)
    ensures ApplyPatch(h, patch) == ApplyPatch(h, patch.(id := None))
    ensures ApplyPatch(h, EmptyPatch) == h
  {
    MergeIdentityAndIdempotence(h.position, h.content, EmptyPositionPatch, EmptyContentPatch);
  }

  /** `updateHighlight`'s new list: the records with the id are patched in place, every
      other record is left as it was, and every id is kept. */
  function Updated(hs: seq<Highlight>, id: string, patch: HighlightPatch): (r: seq<Highlight>)
    ensures |r| == |hs|
    ensures forall k :: 0 <= k < |hs| ==> r[k].id == hs[k].id
    ensures forall k :: 0 <= k < |hs| && hs[k].id != id ==> r[k] == hs[k]
    ensures forall k :: 0 <= k < |hs| && hs[k].id == id ==> r[k] == ApplyPatch(hs[k], patch)
  {
    MapMatching(hs, id, h => ApplyPatch(h, patch))
  }

  /** The update cannot be seen once the id is filtered out. */
  lemma UpdatedInvisibleOutsideId(hs: seq<Highlight>, id: string, patch: HighlightPatch)
    ensures RemoveId(Updated(hs, id, patch), id) == RemoveId(hs, id)
  {
    RewriteInvisibleOutsideId(hs, id, h => ApplyPatch(h, patch));
  }

  /** The patch `saveComment` sends. */
  function CommentPatch(text: string): (patch: HighlightPatch)
    ensures patch.comment == Some(NormalizedComment(text))
    ensures patch.position.None? && patch.content.None? && patch.meta.None?
  {
    EmptyPatch.(comment := Some(NormalizedComment(text)))
  }

  /** Saving a comment changes only the comment of the records with the id: it
      becomes the trimmed text, or nothing when the text is blank. */
  lemma SaveCommentSpec(hs: seq<Highlight>, id: string, text: string)
    ensures forall k :: 0 <= k < |hs| && hs[k].id == id ==>
      Updated(hs, id, CommentPatch(text))[k] == hs[k].(comment := NormalizedComment(text))
    ensures forall k :: 0 <= k < |hs| && hs[k].id != id ==>
      Updated(hs, id, CommentPatch(text))[k] == hs[k]
  {
  }

  /** The hook's state: the caller's list and the record being edited. */
  class HighlightStore {
    var highlights: seq<Highlight>
    var editingHighlight: Option<Highlight>

    constructor(initial: seq<Highlight>)
      ensures highlights == initial && editingHighlight == None
    {
      highlights := initial;
      editingHighlight := None;
    }

    /** `addHighlight`: the new record goes first; the rest of the list is kept. */
    method AddHighlight(input: HighlightInput, freshId: string) returns (h: Highlight)
      modifies this`highlights
      ensures h == NewRecord(input, freshId)
      ensures highlights == [h] + old(highlights)
    {
      h := Highlight(input.id.GetOr(freshId), input.position, input.content, input.comment, input.meta);
      highlights := [h] + highlights;
    }

    method UpdateHighlight(id: string, patch: HighlightPatch)
      modifies this`highlights
      ensures highlights == Updated(old(highlights), id, patch)
    {
      highlights := Updated(highlights, id, patch);
    }

    method DeleteHighlight(id: string)
      modifies this`highlights
      ensures highlights == RemoveId(old(highlights), id)
    {
      highlights := RemoveId(highlights, id);
    }

    /** `saveComment`: an update with the normalised comment, then no record is
        being edited. */
    method SaveComment(id: string, text: string)
      modifies this`highlights, this`editingHighlight
      ensures highlights == Updated(old(highlights), id, CommentPatch(text))
      ensures editingHighlight == None
    {
      UpdateHighlight(id, CommentPatch(text));
      editingHighlight := None;
    }

    method ResetHighlights()
      modifies this`highlights
      ensures highlights == []
    {
      highlights := [];
    }

    method SetEditingHighlight(h: Option<Highlight>)
      modifies this`editingHighlight
      ensures editingHighlight == h
    {
      editingHighlight := h;
    }
  }
}
