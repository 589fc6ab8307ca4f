/** The quote demo: a new selection becomes a temporary record at the head of the
    list; the edit-quote button opens a dialog for it; saving renames it to a
    permanent id and stores the trimmed comment; a context menu opens an action
    popup that holds off the hover tip. Ids come from a random generator and are
    parameters here. */
module QuoteDemo {
  import opened Types
  import opened Text
  import opened Records
  import Highlighter

  /** A request made to the highlighter's tip: show the comment popup or the action
      popup of a record, or hide the tip (together with any selection). */
  datatype TipRequest = NoRequest | ShowComment(id: string) | ShowActions(id: string) | HideTip

  /** `onCreate`: a record with id "temp-" + the generated suffix, the payload's
      position and content, and no comment. */
  function TemporaryRecord(payload: Highlighter.CreatePayload, suffix: string): (h: Highlight)
    ensures h.id == "temp-" + suffix && h.id[..5] == "temp-"
    ensures h.position == payload.position && h.content == payload.content
    ensures h.comment == None && h.meta == None
  {
    Highlight("temp-" + suffix, payload.position, payload.content, None, None)
  }

  /** The index of the first record with the id, if any (`Array.prototype.find`). */
  function FirstIndex(hs: seq<Highlight>, id: string): (r: Option<nat>)
    ensures r.Some? ==> r.value < |hs| && hs[r.value].id == id
    ensures r.Some? ==> forall k :: 0 <= k < r.value ==> hs[k].id != id
    ensures r.None? ==> forall k :: 0 <= k < |hs| ==> hs[k].id != id
  {
    if hs == [] then None
    else if hs[0].id == id then Some(0)
    else
      match FirstIndex(hs[1..], id)
      case None => None
      case Some(k) => Some(k + 1)
  }

  /** `pendingHighlight`: with a non-empty pending id, the first record carrying it;
      otherwise none. */
  function PendingRecord(hs: seq<Highlight>, pendingId: Option<string>): (r: Option<Highlight>)
    ensures r.Some? ==> IsTruthyString(pendingId) && r.value.id == pendingId.value
  {
    if !IsTruthyString(pendingId) then None
    else
      match FirstIndex(hs, pendingId.value)
      case None => None
      case Some(k) => Some(hs[k])
  }

  /** The pending record is the first record with the pending id; there is one
      exactly when the id is non-empty and some record carries it. */
  lemma PendingRecordSpec(hs: seq<Highlight>, pendingId: Option<string>)
    ensures PendingRecord(hs, pendingId).Some? <==>
      IsTruthyString(pendingId) && exists k :: 0 <= k < |hs| && hs[k].id == pendingId.value
    ensures PendingRecord(hs, pendingId).Some? ==>
      var k := FirstIndex(hs, pendingId.value).value;
      PendingRecord(hs, pendingId).value == hs[k] && forall j :: 0 <= j < k ==> hs[j].id != pendingId.value
  {
  }

  /** `onSave`'s new list: the pending records are renamed in place and take the
      normalised comment, keeping position, content and meta; every other record is
      untouched. */
  function Saved(hs: seq<Highlight>, pendingId: string, newId: string, text: string): (r: seq<Highlight>)
    ensures |r| == |hs|
    ensures forall k :: 0 <= k < |hs| && hs[k].id != pendingId ==> r[k] == hs[k]
    ensures forall k :: 0 <= k < |hs| && hs[k].id == pendingId ==>
      && r[k].id == newId && r[k].comment == NormalizedComment(text)
      && r[k].position == hs[k].position && r[k].content == hs[k].content && r[k].meta == hs[k].meta
  {
    MapMatching(hs, pendingId, (h: Highlight) => h.(id := newId, comment := NormalizedComment(text)))
  }

  /** Once saved under a fresh id, no record keeps the pending id, and the pending
      record can no longer be found. */
  lemma SavedLeavesNoPending(hs: seq<Highlight>, pendingId: string, newId: string, text: string)
    requires newId != pendingId
    ensures forall k :: 0 <= k < |hs| ==> Saved(hs, pendingId, newId, text)[k].id != pendingId
    ensures FirstIndex(Saved(hs, pendingId, newId, text), pendingId).None?
  {
  }

  /** The hover guard: the comment popup is shown only for a record with a
      non-empty comment while no action popup is open. */
  function MouseOver(h: Highlight, actionId: Option<string>): (r: TipRequest)
    ensures r != NoRequest <==> IsTruthyString(h.comment) && !IsTruthyString(actionId)
    ensures r != NoRequest ==> r == ShowComment(h.id)
  {
    if !IsTruthyString(h.comment) || IsTruthyString(actionId) then NoRequest
    else ShowComment(h.id)
  }

  /** Leaving a record hides the tip unless an action popup is open. */
  function MouseOut(actionId: Option<string>): (r: TipRequest)
    ensures r == HideTip <==> !IsTruthyString(actionId)
    ensures r == HideTip || r == NoRequest
  {
    if IsTruthyString(actionId) then NoRequest else HideTip
  }

  /** The quote demo's state. */
  class QuoteApp {
    var highlights: seq<Highlight>
    var pendingHighlightId: Option<string>
    var actionHighlightId: Option<string>
    var comment: string

    constructor()
      ensures highlights == [] && pendingHighlightId == None
      ensures actionHighlightId == None && comment == ""
    {
      highlights := [];
      pendingHighlightId := None;
      actionHighlightId := None;
      comment := "";
    }

    function PendingHighlight(): Option<Highlight>
      reads this
    {
      PendingRecord(highlights, pendingHighlightId)
    }

    method OnCreate(payload: Highlighter.CreatePayload, suffix: string)
      modifies this`highlights
      ensures highlights == [TemporaryRecord(payload, suffix)] + old(highlights)
    {
      var id := "temp-" + suffix;
      highlights := [Highlight(id, payload.position, payload.content, None, None)] + highlights;
    }

    /** The edit-quote button opens the dialog for the record, pre-filled with its
        comment, closes the action popup and hides the tip. */
    method OnEditQuote(h: Highlight) returns (request: TipRequest)
      modifies this`pendingHighlightId, this`comment, this`actionHighlightId
      ensures pendingHighlightId == Some(h.id) && comment == h.comment.GetOr("")
      ensures actionHighlightId == None && request == HideTip
    {
      pendingHighlightId := Some(h.id);
      comment := h.comment.GetOr("");
      actionHighlightId := None;
      request := HideTip;
    }

    method OnChangeComment(text: string)
      modifies this`comment
      ensures comment == text
    {
      comment := text;
    }

    /** The dialog's save button; the dialog is only shown while a pending record
        exists. */
    method OnSave(suffix: string)
      requires PendingHighlight().Some?
      modifies this`highlights, this`pendingHighlightId
      ensures highlights == Saved(old(highlights), old(pendingHighlightId).value, "saved-" + suffix, old(comment))
      ensures pendingHighlightId == None
    {
      var newId := "saved-" + suffix;
      highlights := Saved(highlights, pendingHighlightId.value, newId, comment);
      pendingHighlightId := None;
    }

    method OnCancel()
      modifies this`pendingHighlightId
      ensures pendingHighlightId == None
    {
      pendingHighlightId := None;
    }

    /** The delete button in the action popup. */
    method OnDelete(h: Highlight) returns (request: TipRequest)
      modifies this`highlights, this`actionHighlightId
      ensures highlights == RemoveId(old(highlights), h.id)
      ensures actionHighlightId == None && request == HideTip
    {
      highlights := RemoveId(highlights, h.id);
      actionHighlightId := None;
      request := HideTip;
    }

    method OnMouseOver(h: Highlight) returns (request: TipRequest)
      ensures request == MouseOver(h, actionHighlightId)
    {
      if !IsTruthyString(h.comment) || IsTruthyString(actionHighlightId) {
        return NoRequest;
      }
      request := ShowComment(h.id);
    }

    method OnMouseOut() returns (request: TipRequest)
      ensures request == MouseOut(actionHighlightId)
    {
      if IsTruthyString(actionHighlightId) {
        return NoRequest;
      }
      request := HideTip;
    }

    /** A right click opens the action popup for the record. */
    method OnContextMenu(h: Highlight) returns (request: TipRequest)
      modifies this`actionHighlightId
      ensures actionHighlightId == Some(h.id) && request == ShowActions(h.id)
    {
      actionHighlightId := Some(h.id);
      request := ShowActions(h.id);
    }

    /** A pointer press anywhere in the demo closes the action popup. */
    method OnRootPointerDown()
      modifies this`actionHighlightId
      ensures actionHighlightId == None
    {
      actionHighlightId := None;
    }
  }
}
