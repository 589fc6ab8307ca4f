/** The bookkeeping of the `PdfHighlighter` component: the hover/selection tip state
    machine with its three cancellable timers, the selection guards, the scroll target,
    the text-layer render-once flag and the per-page grouping loop.

    A timer is a pending flag (the show timer also carries what its callback captured);
    its callback runs only through an explicit "fires" event, and firing a timer that is
    not pending does nothing. Each event runs to completion before the next one, with
    React state updates applied in order. */
module Highlighter {
  import opened Types
  import opened Numbers
  import opened Partition

  const EMPTY_ID: string := "empty-id"

  datatype TipMode = Hover | Selection

  /** A rendered element (popup or tip contents), known only by identity. */
  datatype Popup = Popup(name: string)

  /** `state.tip`, as the highlight layer sets it. */
  datatype LayerTip = LayerTip(highlight: Position, popup: Popup)

  /** What the pending 200 ms show timer will show when it fires. */
  datatype PendingShow = PendingShow(position: Position, popup: Popup)

  /** A rect of the selection in viewport pixels, paired with what `viewportToScaled`
      gives for it in the viewport of the selection's first page. */
  datatype ClientRect = ClientRect(viewport: Rect, scaled: Scaled)

  /** A DOM text selection range together with what the pdf.js DOM helpers compute from
      it: the pages it spans (`getPagesFromRange`, possibly nothing), its client rects,
      their bounding rect (`getBoundingRect`), and its text. */
  datatype TextRange = TextRange(
    pages: Option<seq<int>>,
    rects: seq<ClientRect>,
    boundingRect: ClientRect,
    text: string)

  function Viewports(rects: seq<ClientRect>): (r: seq<Rect>)
    ensures |r| == |rects|
    ensures forall i :: 0 <= i < |rects| ==> r[i] == rects[i].viewport
  {
    seq(|rects|, i requires 0 <= i < |rects| => rects[i].viewport)
  }

  /** `viewportPositionToScaled`: every rect and the bounding rect converted in the
      viewport of the position's page, one scaled rect per viewport rect, the page number
      kept and no `usePdfCoordinates` key written. */
  function ViewportPositionToScaled(boundingRect: ClientRect, rects: seq<ClientRect>, pageNumber: int): (p: ScaledPosition)
    ensures p.pageNumber == pageNumber && p.usePdfCoordinates.None?
    ensures p.boundingRect == boundingRect.scaled
    ensures |p.rects| == |rects|
    ensures forall i :: 0 <= i < |rects| ==> p.rects[i] == rects[i].scaled
  {
    ScaledPosition(boundingRect.scaled, seq(|rects|, i requires 0 <= i < |rects| => rects[i].scaled), pageNumber, None)
  }

  /** The component state (`State<T_HT>`). */
  datatype UiState = UiState(
    ghostHighlight: Option<GhostHighlight>,
    isCollapsed: bool,
    range: Option<TextRange>,
    tip: Option<LayerTip>,
    tipPosition: Option<Position>,
    tipChildren: Option<Popup>,
    tipMode: Option<TipMode>,
    isAreaSelectionInProgress: bool,
    scrolledToHighlightId: string,
    isTipHovered: bool,
    isHighlightHovered: bool)

  /** The state plus the three timer fields of the instance. */
  datatype Interaction = Interaction(
    ui: UiState,
    showTipTimeout: Option<PendingShow>,
    hideTipTimeout: bool,
    flashTimeout: bool)

  const InitialUi: UiState := UiState(None, true, None, None, None, None, None, false, EMPTY_ID, false, false)

  const Initial: Interaction := Interaction(InitialUi, None, false, false)

  /** The tip fields as `setTip` writes them. */
  function SetTip(s: Interaction, position: Position, inner: Option<Popup>, mode: TipMode): Interaction {
    s.(ui := s.ui.(tipPosition := Some(position), tipChildren := inner, tipMode := Some(mode)))
  }

  /** `showTip` proceeds only with a collapsed selection, no ghost and no area selection. */
  predicate ShowTipAllowed(ui: UiState) {
    ui.isCollapsed && ui.ghostHighlight.None? && !ui.isAreaSelectionInProgress
  }

  function ShowTip(s: Interaction, position: Position, content: Popup): Interaction {
    if ShowTipAllowed(s.ui) then SetTip(s, position, Some(content), Hover) else s
  }

  /** Cancels the show and hide timers and clears the tip, both hover flags and the ghost. */
  function HideTipAndSelection(s: Interaction): (r: Interaction)
    ensures NoTipTimers(r) && r.flashTimeout == s.flashTimeout
    ensures r.ui.tipPosition.None? && r.ui.tipChildren.None? && r.ui.tipMode.None? && r.ui.tip.None?
    ensures r.ui.ghostHighlight.None? && !r.ui.isTipHovered && !r.ui.isHighlightHovered
    ensures r.ui.range == s.ui.range && r.ui.isCollapsed == s.ui.isCollapsed
  {
    Interaction(
      s.ui.(tipPosition := None, tipChildren := None, tipMode := None,
            isTipHovered := false, isHighlightHovered := false,
            ghostHighlight := None, tip := None),
      None, false, s.flashTimeout)
  }

  /** Entering the tip marks it hovered and cancels a pending hide, so the next hide
      tick does nothing; the tip itself and a pending show are kept. */
  function TipMouseEnter(s: Interaction): (r: Interaction)
    ensures r.ui.isTipHovered && !r.hideTipTimeout
    ensures HideTimeoutFires(r) == r
    ensures r.showTipTimeout == s.showTipTimeout
    ensures r.ui.tipPosition == s.ui.tipPosition && r.ui.tipMode == s.ui.tipMode
  {
    s.(hideTipTimeout := false, ui := s.ui.(isTipHovered := true))
  }

  /** Arms (or re-arms) the 150 ms hide timer, but only for a hover tip. */
  function ScheduleHide(s: Interaction): (r: Interaction)
    ensures s.ui.tipMode != Some(Hover) ==> r == s
    ensures s.ui.tipMode == Some(Hover) ==> r.hideTipTimeout && r.ui == s.ui && r.showTipTimeout == s.showTipTimeout
  {
    if s.ui.tipMode != Some(Hover) then s else s.(hideTipTimeout := true)
  }

  /** Leaving the tip unmarks it and arms the hide timer for a hover tip only. */
  function TipMouseLeave(s: Interaction): (r: Interaction)
    ensures !r.ui.isTipHovered
    ensures r.hideTipTimeout <==> s.hideTipTimeout || s.ui.tipMode == Some(Hover)
    ensures r.ui.tipPosition == s.ui.tipPosition && r.ui.tipMode == s.ui.tipMode
    ensures r.showTipTimeout == s.showTipTimeout
  {
    ScheduleHide(s.(ui := s.ui.(isTipHovered := false)))
  }

  /** Cancels a pending hide, marks the highlight hovered and replaces the pending show. */
  function HighlightMouseEnter(s: Interaction, position: Position, popup: Popup): (r: Interaction)
    ensures r.ui.isHighlightHovered && r.showTipTimeout == Some(PendingShow(position, popup))
    ensures !r.hideTipTimeout && HideTimeoutFires(r) == r
    ensures r.ui.tipPosition == s.ui.tipPosition && r.ui.tipMode == s.ui.tipMode
  {
    Interaction(s.ui.(isHighlightHovered := true), Some(PendingShow(position, popup)), false, s.flashTimeout)
  }

  /** Leaving a highlight unmarks it, cancels the pending show (so a show tick does
      nothing) and arms the hide timer for a hover tip only. */
  function HighlightMouseLeave(s: Interaction): (r: Interaction)
    ensures !r.ui.isHighlightHovered && r.showTipTimeout.None?
    ensures ShowTimeoutFires(r) == r
    ensures r.hideTipTimeout <==> s.hideTipTimeout || s.ui.tipMode == Some(Hover)
    ensures r.ui.tipPosition == s.ui.tipPosition && r.ui.tipMode == s.ui.tipMode
  {
    ScheduleHide(s.(showTipTimeout := None, ui := s.ui.(isHighlightHovered := false)))
  }

  /** The show timer's callback: shows a hover tip if the highlight or the tip is hovered. */
  function ShowTimeoutFires(s: Interaction): (r: Interaction)
    ensures r.showTipTimeout.None?
    ensures s.showTipTimeout.None? ==> r == s
    ensures s.showTipTimeout.Some? && (s.ui.isHighlightHovered || s.ui.isTipHovered) ==>
            r.ui.tipPosition == Some(s.showTipTimeout.value.position)
            && r.ui.tipChildren == Some(s.showTipTimeout.value.popup) && r.ui.tipMode == Some(Hover)
    ensures !(s.showTipTimeout.Some? && (s.ui.isHighlightHovered || s.ui.isTipHovered)) ==> r.ui == s.ui
    ensures r.hideTipTimeout == s.hideTipTimeout && r.flashTimeout == s.flashTimeout
  {
    match s.showTipTimeout
    case None => s
    case Some(pending) =>
      var cleared := s.(showTipTimeout := None);
      if s.ui.isHighlightHovered || s.ui.isTipHovered
      then SetTip(cleared, pending.position, Some(pending.popup), Hover)
      else cleared
  }

  /** The hide timer's callback: clears the tip unless the highlight or the tip is hovered. */
  function HideTimeoutFires(s: Interaction): (r: Interaction)
    ensures !r.hideTipTimeout
    ensures !s.hideTipTimeout ==> r == s
    ensures s.hideTipTimeout && !s.ui.isHighlightHovered && !s.ui.isTipHovered ==>
            r.ui == s.ui.(tipPosition := None, tipChildren := None, tipMode := None)
    ensures !(s.hideTipTimeout && !s.ui.isHighlightHovered && !s.ui.isTipHovered) ==> r.ui == s.ui
    ensures r.showTipTimeout == s.showTipTimeout && r.flashTimeout == s.flashTimeout
  {
    if !s.hideTipTimeout then s
    else
      var cleared := s.(hideTipTimeout := false);
      if !s.ui.isHighlightHovered && !s.ui.isTipHovered
      then cleared.(ui := cleared.ui.(tipPosition := None, tipChildren := None, tipMode := None))
      else cleared
  }

  /** The flash timer's callback: the scrolled-to highlight stops being marked. */
  function FlashTimeoutFires(s: Interaction): (r: Interaction)
    ensures !r.flashTimeout
    ensures s.flashTimeout ==> r.ui == s.ui.(scrolledToHighlightId := EMPTY_ID)
    ensures !s.flashTimeout ==> r == s
    ensures r.showTipTimeout == s.showTipTimeout && r.hideTipTimeout == s.hideTipTimeout
  {
    if !s.flashTimeout then s
    else s.(flashTimeout := false, ui := s.ui.(scrolledToHighlightId := EMPTY_ID))
  }

  /** Unmounting clears all three timers, so none of their callbacks does anything
      afterwards; the state is kept. */
  function Unmount(s: Interaction): (r: Interaction)
    ensures r.ui == s.ui
    ensures ShowTimeoutFires(r) == r && HideTimeoutFires(r) == r && FlashTimeoutFires(r) == r
  {
    s.(showTipTimeout := None, hideTipTimeout := false, flashTimeout := false)
  }

  /** The state part of `scrollTo`: mark the highlight and replace the flash timer. */
  function ScrollFlash(s: Interaction, id: string): Interaction {
    s.(ui := s.ui.(scrolledToHighlightId := id), flashTimeout := true)
  }

  /** What a `selectionchange` finds in the document. */
  datatype SelectionSnapshot =
    | NoContainerOrSelection
    | CollapsedSelection
    | OpenSelection(range: Option<TextRange>, inContainer: bool)

  /** `onSelectionChange` touches only the collapsed flag and the stored range. */
  function SelectionChange(s: Interaction, snapshot: SelectionSnapshot): (r: Interaction)
    ensures r.ui.(isCollapsed := s.ui.isCollapsed, range := s.ui.range) == s.ui
    ensures r.showTipTimeout == s.showTipTimeout && r.hideTipTimeout == s.hideTipTimeout
    ensures r.flashTimeout == s.flashTimeout
    ensures r.ui.range != s.ui.range ==> snapshot.OpenSelection? && snapshot.inContainer && r.ui.range == snapshot.range
  {
    match snapshot
    case NoContainerOrSelection => s
    case CollapsedSelection => s.(ui := s.ui.(isCollapsed := true))
    case OpenSelection(range, inContainer) =>
      if range.None? || !inContainer then s
      else s.(ui := s.ui.(isCollapsed := false, range := range))
  }

  /** What a pointer-down on the component lands on. */
  datatype PointerTarget = NotAnElement | InsideTip | OnHighlight | Elsewhere

  /** A pointer-down outside the tip and the highlights hides the tip and selection;
      anywhere else it does nothing. */
  function PointerDown(s: Interaction, target: PointerTarget): (r: Interaction)
    ensures target != Elsewhere ==> r == s
    ensures target == Elsewhere ==> r.ui.tipPosition.None? && r.ui.ghostHighlight.None? && NoTipTimers(r)
  {
    if target == Elsewhere then HideTipAndSelection(s) else s
  }

  /** Escape hides the tip and selection; any other key does nothing. */
  function KeyDown(s: Interaction, code: string): (r: Interaction)
    ensures code != "Escape" ==> r == s
    ensures code == "Escape" ==> r.ui.tipPosition.None? && r.ui.ghostHighlight.None? && NoTipTimers(r)
  {
    if code == "Escape" then HideTipAndSelection(s) else s
  }

  /** The "transform selection" callback: the selection becomes the ghost highlight. */
  function TransformSelection(s: Interaction, selected: GhostHighlight): Interaction {
    s.(ui := s.ui.(ghostHighlight := Some(selected)))
  }

  /** Every event the machine reacts to. */
  datatype Event =
    | ShowTipCall(position: Position, content: Popup)
    | SetTipCall(position: Position, inner: Option<Popup>, mode: TipMode)
    | HighlightEnter(position: Position, popup: Popup)
    | HighlightLeave
    | TipEnter
    | TipLeave
    | ShowTimerFired
    | HideTimerFired
    | FlashTimerFired
    | HideTipAndSelectionCall
    | UnmountCall
    | ScrolledTo(id: string)
    | SelectionChanged(snapshot: SelectionSnapshot)
    | AreaSelectionChanged(visible: bool)
    | GhostCommitted(selected: GhostHighlight)
    | LayerTipSet(layerTip: Option<LayerTip>)
    | PointerDownOn(target: PointerTarget)
    | KeyPressed(code: string)

  /** One event. Only a scroll or a flash tick changes the scrolled-to id, only
      entering a highlight arms a new show, only the selection events change the
      stored range, and only the transform callback installs a ghost. */
  function Step(s: Interaction, e: Event): (r: Interaction)
    ensures r.ui.scrolledToHighlightId != s.ui.scrolledToHighlightId ==> e.ScrolledTo? || e.FlashTimerFired?
    ensures r.showTipTimeout.Some? && r.showTipTimeout != s.showTipTimeout ==> e.HighlightEnter?
    ensures r.ui.range != s.ui.range ==> e.SelectionChanged?
    ensures r.ui.ghostHighlight.Some? && r.ui.ghostHighlight != s.ui.ghostHighlight ==> e.GhostCommitted?
  {
    match e
    case ShowTipCall(position, content) => ShowTip(s, position, content)
    case SetTipCall(position, inner, mode) => SetTip(s, position, inner, mode)
    case HighlightEnter(position, popup) => HighlightMouseEnter(s, position, popup)
    case HighlightLeave => HighlightMouseLeave(s)
    case TipEnter => TipMouseEnter(s)
    case TipLeave => TipMouseLeave(s)
    case ShowTimerFired => ShowTimeoutFires(s)
    case HideTimerFired => HideTimeoutFires(s)
    case FlashTimerFired => FlashTimeoutFires(s)
    case HideTipAndSelectionCall => HideTipAndSelection(s)
    case UnmountCall => Unmount(s)
    case ScrolledTo(id) => ScrollFlash(s, id)
    case SelectionChanged(snapshot) => SelectionChange(s, snapshot)
    case AreaSelectionChanged(visible) => s.(ui := s.ui.(isAreaSelectionInProgress := visible))
    case GhostCommitted(selected) => TransformSelection(s, selected)
    case LayerTipSet(layerTip) => s.(ui := s.ui.(tip := layerTip))
    case PointerDownOn(target) => PointerDown(s, target)
    case KeyPressed(code) => KeyDown(s, code)
  }

  function Run(s: Interaction, events: seq<Event>): Interaction
    decreases |events|
  {
    if events == [] then s else Run(Step(s, events[0]), events[1..])
  }

  predicate IsTimerFire(e: Event) {
    e.ShowTimerFired? || e.HideTimerFired? || e.FlashTimerFired?
  }

  predicate AllTimerFires(events: seq<Event>) {
    forall k :: 0 <= k < |events| ==> IsTimerFire(events[k])
  }

  /** No tip timer (show or hide) is pending. */
  predicate NoTipTimers(s: Interaction) {
    s.showTipTimeout.None? && !s.hideTipTimeout
  }

  // ---------------------------------------------------------------- tip machine facts

  /** `showTip` changes nothing while a selection is open, a ghost exists or an area
      selection is in progress; otherwise it shows a hover tip. */
  lemma ShowTipGuard(s: Interaction, position: Position, content: Popup)
    ensures !s.ui.isCollapsed || s.ui.ghostHighlight.Some? || s.ui.isAreaSelectionInProgress
            ==> Step(s, ShowTipCall(position, content)) == s
    ensures ShowTipAllowed(s.ui) ==>
            var t := Step(s, ShowTipCall(position, content));
            t.ui.tipPosition == Some(position) && t.ui.tipChildren == Some(content) && t.ui.tipMode == Some(Hover)
  {
  }

  /** Entering a highlight cancels a pending hide, replaces a pending show with its own
      and marks the highlight hovered; the tip itself is not touched yet. */
  lemma HighlightEnterArmsShow(s: Interaction, position: Position, popup: Popup)
    ensures var t := Step(s, HighlightEnter(position, popup));
            !t.hideTipTimeout && t.showTipTimeout == Some(PendingShow(position, popup))
            && t.ui.isHighlightHovered
            && t.ui.tipPosition == s.ui.tipPosition && t.ui.tipMode == s.ui.tipMode
  {
  }

  /** When the show timer fires, the tip changes only if a show was pending and the
      highlight or the tip is still hovered; then it is that show's hover tip. */
  lemma ShowFiresOnlyWhenHovered(s: Interaction)
    ensures var t := Step(s, ShowTimerFired);
            t.ui.tipPosition != s.ui.tipPosition || t.ui.tipMode != s.ui.tipMode
            ==> s.showTipTimeout.Some? && (s.ui.isHighlightHovered || s.ui.isTipHovered)
    ensures s.showTipTimeout.Some? && (s.ui.isHighlightHovered || s.ui.isTipHovered) ==>
            var t := Step(s, ShowTimerFired);
            t.ui.tipPosition == Some(s.showTipTimeout.value.position) && t.ui.tipMode == Some(Hover)
    ensures Step(s, ShowTimerFired).showTipTimeout.None?
  {
  }

  /** Hovering a highlight and waiting shows its tip even while a ghost highlight
      exists or a selection is open: the timer's callback does not repeat the guard
      of `showTip`. */
  lemma HoverTimerIgnoresGhost(s: Interaction, position: Position, popup: Popup)
    ensures var t := Run(s, [HighlightEnter(position, popup), ShowTimerFired]);
            t.ui.tipPosition == Some(position) && t.ui.tipChildren == Some(popup)
            && t.ui.tipMode == Some(Hover) && t.ui.ghostHighlight == s.ui.ghostHighlight
            && t.ui.isCollapsed == s.ui.isCollapsed
  {
    RunCons(s, HighlightEnter(position, popup), [ShowTimerFired]);
    RunCons(Step(s, HighlightEnter(position, popup)), ShowTimerFired, []);
  }

  /** When the hide timer fires, the tip changes only if a hide was pending and neither
      the highlight nor the tip is hovered; then the tip is cleared. */
  lemma HideFiresOnlyWhenUnhovered(s: Interaction)
    ensures var t := Step(s, HideTimerFired);
            t.ui.tipPosition != s.ui.tipPosition || t.ui.tipMode != s.ui.tipMode
            ==> s.hideTipTimeout && !s.ui.isHighlightHovered && !s.ui.isTipHovered
    ensures s.hideTipTimeout && !s.ui.isHighlightHovered && !s.ui.isTipHovered ==>
            var t := Step(s, HideTimerFired);
            t.ui.tipPosition.None? && t.ui.tipChildren.None? && t.ui.tipMode.None?
    ensures !Step(s, HideTimerFired).hideTipTimeout
  {
  }

  /** Leaving the highlight or the tip while a selection tip is shown arms no hide
      timer and leaves the tip alone. */
  lemma SelectionTipIgnoresHoverLeave(s: Interaction, e: Event)
    requires s.ui.tipMode != Some(Hover)
    requires e == HighlightLeave || e == TipLeave
    ensures var t := Step(s, e);
            t.hideTipTimeout == s.hideTipTimeout
            && t.ui.tipPosition == s.ui.tipPosition && t.ui.tipChildren == s.ui.tipChildren
            && t.ui.tipMode == s.ui.tipMode
  {
  }

  /** Entering the tip cancels a pending hide, so a following hide tick is a no-op. */
  lemma TipEnterCancelsHide(s: Interaction)
    ensures !Step(s, TipEnter).hideTipTimeout
    ensures Run(s, [TipEnter, HideTimerFired]) == Step(s, TipEnter)
  {
    RunCons(s, TipEnter, [HideTimerFired]);
    RunCons(Step(s, TipEnter), HideTimerFired, []);
  }

  /** `setTip(..., "selection")` does not cancel a hide timer armed for an earlier hover
      tip: if it fires while nothing is hovered, it clears the selection tip. */
  lemma StaleHideTimerClearsSelectionTip(s: Interaction, position: Position, inner: Option<Popup>)
    requires s.hideTipTimeout && !s.ui.isHighlightHovered && !s.ui.isTipHovered
    ensures Step(s, SetTipCall(position, inner, Selection)).ui.tipMode == Some(Selection)
    ensures Run(s, [SetTipCall(position, inner, Selection), HideTimerFired]).ui.tipPosition.None?
  {
    RunCons(s, SetTipCall(position, inner, Selection), [HideTimerFired]);
    RunCons(Step(s, SetTipCall(position, inner, Selection)), HideTimerFired, []);
  }

  /** Running a sequence that starts with `e` is taking the step for `e`, then the rest. */
  lemma RunCons(s: Interaction, e: Event, rest: seq<Event>)
    ensures Run(s, [e] + rest) == Run(Step(s, e), rest)
  {
    assert ([e] + rest)[1..] == rest;
  }

  /** With no tip timer pending, timers alone change nothing but the flash marking. */
  lemma {:induction false} TimersAloneKeepUi(s: Interaction, events: seq<Event>)
    requires NoTipTimers(s)
    requires AllTimerFires(events)
    ensures NoTipTimers(Run(s, events))
    ensures Run(s, events).ui == s.ui.(scrolledToHighlightId := Run(s, events).ui.scrolledToHighlightId)
    decreases |events|
  {
    if events != [] {
      assert IsTimerFire(events[0]);
      TimersAloneKeepUi(Step(s, events[0]), events[1..]);
    }
  }

  /** With no show pending, timers alone never open a tip: the tip stays or goes. */
  lemma {:induction false} TimersNeverOpenTip(s: Interaction, events: seq<Event>)
    requires s.showTipTimeout.None?
    requires AllTimerFires(events)
    ensures Run(s, events).showTipTimeout.None?
    ensures Run(s, events).ui.tipPosition == s.ui.tipPosition || Run(s, events).ui.tipPosition.None?
    decreases |events|
  {
    if events != [] {
      assert IsTimerFire(events[0]);
      TimersNeverOpenTip(Step(s, events[0]), events[1..]);
    }
  }

  /** Leaving a highlight before its show timer fires means its tip is never shown:
      whatever timers fire afterwards, the tip is the one before, or none. */
  lemma LeaveBeforeShowNeverShows(s: Interaction, position: Position, popup: Popup, events: seq<Event>)
    requires AllTimerFires(events)
    ensures var t := Run(s, [HighlightEnter(position, popup), HighlightLeave] + events);
            t.ui.tipPosition == s.ui.tipPosition || t.ui.tipPosition.None?
  {
    var left := Run(s, [HighlightEnter(position, popup), HighlightLeave]);
    RunCons(s, HighlightEnter(position, popup), [HighlightLeave]);
    RunCons(Step(s, HighlightEnter(position, popup)), HighlightLeave, []);
    RunAppend(s, [HighlightEnter(position, popup), HighlightLeave], events);
    TimersNeverOpenTip(left, events);
  }

  lemma {:induction false} RunAppend(s: Interaction, a: seq<Event>, b: seq<Event>)
    ensures Run(s, a + b) == Run(Run(s, a), b)
    decreases |a|
  {
    if a != [] {
      assert (a + b)[1..] == a[1..] + b;
      RunAppend(Step(s, a[0]), a[1..], b);
    } else {
      assert a + b == b;
    }
  }

  /** After `hideTipAndSelection` no timer can bring a tip or the ghost back. */
  lemma NoRevivalAfterHideTipAndSelection(s: Interaction, events: seq<Event>)
    requires AllTimerFires(events)
    ensures var t := Run(Step(s, HideTipAndSelectionCall), events);
            t.ui.tipPosition.None? && t.ui.tipChildren.None? && t.ui.tipMode.None?
            && t.ui.tip.None? && t.ui.ghostHighlight.None?
            && !t.ui.isHighlightHovered && !t.ui.isTipHovered
  {
    TimersAloneKeepUi(Step(s, HideTipAndSelectionCall), events);
  }

  /** Unmounting cancels all three timers: nothing they would do happens any more. */
  lemma {:induction false} UnmountSilencesTimers(s: Interaction, events: seq<Event>)
    requires AllTimerFires(events)
    ensures Run(Step(s, UnmountCall), events) == Step(s, UnmountCall)
    decreases |events|
  {
    if events != [] {
      assert IsTimerFire(events[0]);
      assert Step(Step(s, UnmountCall), events[0]) == Step(s, UnmountCall);
      UnmountSilencesTimers(s, events[1..]);
    }
  }

  /** A second scroll replaces the flash timer: one tick resets the marking, and the
      replaced timer never fires again. */
  lemma FlashReplaced(s: Interaction, first: string, second: string)
    ensures Run(s, [ScrolledTo(first), ScrolledTo(second)]).ui.scrolledToHighlightId == second
    ensures var t := Run(s, [ScrolledTo(first), ScrolledTo(second), FlashTimerFired]);
            t.ui.scrolledToHighlightId == EMPTY_ID && !t.flashTimeout
            && Step(t, FlashTimerFired) == t
  {
    var a, b := ScrolledTo(first), ScrolledTo(second);
    RunCons(s, a, [b]);
    RunCons(Step(s, a), b, []);
    RunCons(s, a, [b, FlashTimerFired]);
    RunCons(Step(s, a), b, [FlashTimerFired]);
    RunCons(Step(Step(s, a), b), FlashTimerFired, []);
  }

  // ---------------------------------------------------------------- selection

  /** The highlight handed to `onCreate`. */
  datatype CreatePayload = CreatePayload(content: Content, position: ScaledPosition)

  /** What the host supplied: `onSelectionFinished` (with the popup it returns), or
      only possibly `onCreate`. */
  datatype SelectionHandler = CreateDirectly(hasOnCreate: bool) | AskWithTip(popup: Option<Popup>)

  /** The new state, the payload handed to `onCreate`, and the ghost highlight the
      selection tip's "transform selection" callback installs when it is called. */
  datatype SelectionOutcome = SelectionOutcome(next: Interaction, created: Option<CreatePayload>, onTransform: Option<GhostHighlight>)

  /** `afterSelection`: gives up without a range, with a collapsed selection, without
      pages or without rects; otherwise creates the highlight directly or shows a
      selection tip at the selection's viewport position. */
  function SelectionFinished(s: Interaction, handler: SelectionHandler): (o: SelectionOutcome)
    ensures o.created.Some? ==> handler == CreateDirectly(true)
    ensures o.onTransform.Some? ==> handler.AskWithTip?
    ensures s.ui.range.None? || s.ui.isCollapsed ==> o == SelectionOutcome(s, None, None)
  {
    match s.ui.range
    case None => SelectionOutcome(s, None, None)
    case Some(range) =>
      if s.ui.isCollapsed then SelectionOutcome(s, None, None)
      else if range.pages.None? || |range.pages.value| == 0 then SelectionOutcome(s, None, None)
      else if |range.rects| == 0 then SelectionOutcome(s, None, None)
      else
        var viewportPosition := Position(range.boundingRect.viewport, Viewports(range.rects), range.pages.value[0]);
        var content := Content(Some(range.text), None);
        var scaledPosition := ViewportPositionToScaled(range.boundingRect, range.rects, range.pages.value[0]);
        match handler
        case CreateDirectly(hasOnCreate) =>
          SelectionOutcome(
            HideTipAndSelection(s),
            if hasOnCreate then Some(CreatePayload(content, scaledPosition)) else None,
            None)
        case AskWithTip(popup) =>
          SelectionOutcome(SetTip(s, viewportPosition, popup, Selection), None,
                           Some(GhostHighlight(scaledPosition, None)))
  }

  /** A selection is acted on only when it is open and spans pages and rects. */
  predicate SelectionUsable(ui: UiState) {
    ui.range.Some? && !ui.isCollapsed
    && ui.range.value.pages.Some? && |ui.range.value.pages.value| > 0
    && |ui.range.value.rects| > 0
  }

  /** What a usable selection's scaled position is: on the first page of the selection,
      one scaled rect per client rect (each the conversion of that rect), the bounding
      rect converted, and no `usePdfCoordinates` key. */
  predicate ScaledFromSelection(p: ScaledPosition, range: TextRange)
    requires range.pages.Some? && |range.pages.value| > 0
  {
    && p.pageNumber == range.pages.value[0]
    && p.usePdfCoordinates.None?
    && p.boundingRect == range.boundingRect.scaled
    && |p.rects| == |range.rects|
    && forall i :: 0 <= i < |range.rects| ==> p.rects[i] == range.rects[i].scaled
  }

  lemma AfterSelectionGuards(s: Interaction, handler: SelectionHandler)
    ensures !SelectionUsable(s.ui) ==> SelectionFinished(s, handler) == SelectionOutcome(s, None, None)
    ensures SelectionUsable(s.ui) && handler.AskWithTip? ==>
            var o := SelectionFinished(s, handler);
            o.next.ui.tipMode == Some(Selection)
            && o.next.ui.tipChildren == handler.popup
            && o.next.ui.tipPosition.Some?
            && o.next.ui.tipPosition.value.pageNumber == s.ui.range.value.pages.value[0]
            && o.next.ui.tipPosition.value.boundingRect == s.ui.range.value.boundingRect.viewport
            && |o.next.ui.tipPosition.value.rects| == |s.ui.range.value.rects|
            && o.created.None?
            && o.onTransform.Some? && o.onTransform.value.content.None?
            && ScaledFromSelection(o.onTransform.value.position, s.ui.range.value)
    ensures SelectionUsable(s.ui) && handler.CreateDirectly? ==>
            var o := SelectionFinished(s, handler);
            o.next == HideTipAndSelection(s)
            && o.onTransform.None?
            && (o.created.Some? <==> handler.hasOnCreate)
            && (o.created.Some? ==> ScaledFromSelection(o.created.value.position, s.ui.range.value)
                                    && o.created.value.content.text == Some(s.ui.range.value.text))
  {
  }

  /** A collapsed selection only sets the flag; an open one outside the container is ignored. */
  lemma SelectionChangeFacts(s: Interaction, snapshot: SelectionSnapshot)
    ensures snapshot == CollapsedSelection ==> Step(s, SelectionChanged(snapshot)).ui == s.ui.(isCollapsed := true)
    ensures snapshot.OpenSelection? && (snapshot.range.None? || !snapshot.inContainer)
            ==> Step(s, SelectionChanged(snapshot)) == s
    ensures snapshot.OpenSelection? && snapshot.range.Some? && snapshot.inContainer
            ==> !Step(s, SelectionChanged(snapshot)).ui.isCollapsed
                && Step(s, SelectionChanged(snapshot)).ui.range == snapshot.range
  {
  }

  // ---------------------------------------------------------------- scrolling

  /** The scroll offset that centres the highlight's rect in the container, clamped to
      the scrollable range. */
  function ScrollTarget(pageTop: real, rectTop: real, rectHeight: real, clientHeight: real, scrollHeight: real): (top: real)
    ensures 0.0 <= top
    ensures top <= RealMax(0.0, scrollHeight - clientHeight)
    ensures var target := pageTop + rectTop - (clientHeight - rectHeight) / 2.0;
            0.0 <= target <= scrollHeight - clientHeight ==>
              top == target && top + clientHeight / 2.0 == pageTop + rectTop + rectHeight / 2.0
    ensures var target := pageTop + rectTop - (clientHeight - rectHeight) / 2.0;
            (target < 0.0 || scrollHeight - clientHeight < 0.0 ==> top == 0.0)
            && (0.0 <= scrollHeight - clientHeight < target ==> top == scrollHeight - clientHeight)
  {
    var targetTop := pageTop + rectTop - (clientHeight - rectHeight) / 2.0;
    var maxScroll := scrollHeight - clientHeight;
    RealMax(0.0, RealMin(maxScroll, targetTop))
  }

  // ---------------------------------------------------------------- text layers

  datatype TextLayerState = TextLayerState(renderedPages: set<int>, hasRenderedOnLoad: bool)

  /** The new bookkeeping, the page reported to `onTextLayerReady` (if any) and how many
      times the highlight layers are rendered. */
  datatype TextLayerOutcome = TextLayerOutcome(next: TextLayerState, ready: Option<int>, renders: nat)

  /** `onTextLayerRenderedEvent`: records a truthy page number, renders once, and renders
      a second time the first time the count of rendered pages reaches `numPages`. */
  function TextLayerRendered(t: TextLayerState, pageNumber: Option<int>, numPages: int, forceRenderOnLoad: bool): (o: TextLayerOutcome)
    ensures 1 <= o.renders <= 2
    ensures o.renders == 2 <==> !t.hasRenderedOnLoad && o.next.hasRenderedOnLoad
    ensures o.renders == 2 <==> forceRenderOnLoad && !t.hasRenderedOnLoad && |o.next.renderedPages| == numPages
    ensures t.hasRenderedOnLoad ==> o.next.hasRenderedOnLoad
    ensures o.next.renderedPages == if IsTruthyPage(pageNumber) then t.renderedPages + {pageNumber.value} else t.renderedPages
    ensures o.ready.Some? <==> IsTruthyPage(pageNumber)
    ensures o.ready.Some? ==> o.ready == pageNumber
  {
    var pages := if IsTruthyPage(pageNumber) then t.renderedPages + {pageNumber.value} else t.renderedPages;
    var ready := if IsTruthyPage(pageNumber) then pageNumber else None;
    if forceRenderOnLoad && !t.hasRenderedOnLoad && |pages| == numPages
    then TextLayerOutcome(TextLayerState(pages, true), ready, 2)
    else TextLayerOutcome(TextLayerState(pages, t.hasRenderedOnLoad), ready, 1)
  }

  /** Extra renders over a run of text-layer events. */
  function ExtraRenders(t: TextLayerState, pageNumbers: seq<Option<int>>, numPages: int, force: bool): nat
    decreases |pageNumbers|
  {
    if pageNumbers == [] then 0
    else
      var o := TextLayerRendered(t, pageNumbers[0], numPages, force);
      (o.renders - 1) + ExtraRenders(o.next, pageNumbers[1..], numPages, force)
  }

  function FinalTextLayer(t: TextLayerState, pageNumbers: seq<Option<int>>, numPages: int, force: bool): TextLayerState
    decreases |pageNumbers|
  {
    if pageNumbers == [] then t
    else FinalTextLayer(TextLayerRendered(t, pageNumbers[0], numPages, force).next, pageNumbers[1..], numPages, force)
  }

  /** The render-on-load happens at most once per document, and never again once done. */
  lemma {:induction false} RenderOnLoadAtMostOnce(t: TextLayerState, pageNumbers: seq<Option<int>>, numPages: int, force: bool)
    ensures ExtraRenders(t, pageNumbers, numPages, force) <= (if t.hasRenderedOnLoad then 0 else 1)
    ensures ExtraRenders(t, pageNumbers, numPages, force) == 1 ==> FinalTextLayer(t, pageNumbers, numPages, force).hasRenderedOnLoad
    ensures t.hasRenderedOnLoad ==> FinalTextLayer(t, pageNumbers, numPages, force).hasRenderedOnLoad
    decreases |pageNumbers|
  {
    if pageNumbers != [] {
      var o := TextLayerRendered(t, pageNumbers[0], numPages, force);
      RenderOnLoadAtMostOnce(o.next, pageNumbers[1..], numPages, force);
    }
  }

  /** A new document clears the bookkeeping, so its own render-on-load can happen. */
  function DocumentChanged(t: TextLayerState): (r: TextLayerState)
    ensures r.renderedPages == {} && !r.hasRenderedOnLoad
  {
    TextLayerState({}, false)
  }

  // ---------------------------------------------------------------- the component

  /** A JavaScript `Set` of numbers as it is iterated: distinct, in insertion order. */
  predicate Distinct(pages: seq<int>) {
    forall a, b :: 0 <= a < b < |pages| ==> pages[a] != pages[b]
  }

  /** `set.add(page)`: appended unless already present. */
  function AddPage(pages: seq<int>, page: int): (r: seq<int>)
    requires Distinct(pages)
    ensures Distinct(r)
    ensures forall p :: p in r <==> p in pages || p == page
  {
    if page in pages then pages else pages + [page]
  }

  /** The first loop of `groupHighlightsByPage`: every entry's page and every truthy
      rect page, collected into one set. */
  method CollectPageNumbers(all: seq<Entry>) returns (pageNumbers: seq<int>)
    ensures Distinct(pageNumbers)
    ensures forall p :: p in pageNumbers <==> p in PageNumbers(all)
  {
    pageNumbers := [];
    var i := 0;
    while i < |all|
      invariant 0 <= i <= |all|
      invariant Distinct(pageNumbers)
      invariant forall p :: p in pageNumbers <==> p in PageNumbers(all[..i])
    {
      var position := PositionOf(all[i]);
      pageNumbers := AddPage(pageNumbers, position.pageNumber);
      var j := 0;
      while j < |position.rects|
        invariant 0 <= j <= |position.rects|
        invariant Distinct(pageNumbers)
        invariant forall p :: p in pageNumbers <==>
                    p in PageNumbers(all[..i]) + {position.pageNumber} + TruthyRectPages(position.rects[..j])
      {
        var rect := position.rects[j];
        if IsTruthyPage(rect.pageNumber) {
          pageNumbers := AddPage(pageNumbers, rect.pageNumber.value);
        }
        assert position.rects[..j + 1][..j] == position.rects[..j];
        j := j + 1;
      }
      assert position.rects[..|position.rects|] == position.rects;
      assert all[..i + 1][..i] == all[..i];
      i := i + 1;
    }
    assert all[..|all|] == all;
  }

  /** The innermost loop: the rects filed under `pageNumber`, and whether there are any. */
  method CollectPageRects(rects: seq<Scaled>, pageNumber: int, own: int)
    returns (pageRects: seq<Scaled>, anyRectsOnPage: bool)
    ensures pageRects == RectsOnPage(rects, pageNumber, own)
    ensures anyRectsOnPage <==> |pageRects| > 0
  {
    pageRects := [];
    anyRectsOnPage := false;
    var j := 0;
    while j < |rects|
      invariant 0 <= j <= |rects|
      invariant pageRects == RectsOnPage(rects[..j], pageNumber, own)
      invariant anyRectsOnPage == (|pageRects| > 0)
    {
      var rect := rects[j];
      if pageNumber == (if IsTruthyPage(rect.pageNumber) then rect.pageNumber.value else own) {
        pageRects := pageRects + [rect];
        anyRectsOnPage := true;
      }
      assert rects[..j + 1][..j] == rects[..j];
      j := j + 1;
    }
    assert rects[..|rects|] == rects;
  }

  /** The middle loop: the page-local copies of the entries that belong on `pageNumber`. */
  method CollectGroup(all: seq<Entry>, pageNumber: int) returns (group: seq<Entry>)
    ensures group == GroupFor(all, pageNumber)
  {
    group := [];
    var k := 0;
    while k < |all|
      invariant 0 <= k <= |all|
      invariant group == GroupFor(all[..k], pageNumber)
    {
      var position := PositionOf(all[k]);
      var pageRects, anyRectsOnPage := CollectPageRects(position.rects, pageNumber, position.pageNumber);
      var pageSpecific := WithPosition(all[k],
        ScaledPosition(position.boundingRect, pageRects, pageNumber, position.usePdfCoordinates));
      if anyRectsOnPage || pageNumber == position.pageNumber {
        group := group + [pageSpecific];
      }
      assert all[..k + 1][..k] == all[..k];
      k := k + 1;
    }
    assert all[..|all|] == all;
  }

  class PdfHighlighter {
    var state: UiState
    var showTipTimeout: Option<PendingShow>
    var hideTipTimeout: bool
    var flashTimeout: bool
    var textLayerRenderedPages: set<int>
    var hasRenderedOnLoad: bool
    /** `viewer.container.scrollTop`. */
    var scrollTop: real

    function Current(): Interaction
      reads this
    {
      Interaction(state, showTipTimeout, hideTipTimeout, flashTimeout)
    }

    function TextLayer(): TextLayerState
      reads this
    {
      TextLayerState(textLayerRenderedPages, hasRenderedOnLoad)
    }

    constructor ()
      ensures Current() == Initial
      ensures TextLayer() == TextLayerState({}, false)
    {
      state := InitialUi;
      showTipTimeout := None;
      hideTipTimeout := false;
      flashTimeout := false;
      textLayerRenderedPages := {};
      hasRenderedOnLoad := false;
      scrollTop := 0.0;
    }

    /** `groupHighlightsByPage`: one group per page some highlight (or the ghost)
        touches, each holding the page-local copies in input order. */
    method GroupHighlightsByPage(highlights: seq<Highlight>) returns (grouped: map<int, seq<Entry>>)
      ensures forall page :: page in grouped <==> page in PageNumbers(AllHighlights(highlights, state.ghostHighlight))
      ensures forall page :: page in grouped ==>
                grouped[page] == GroupFor(AllHighlights(highlights, state.ghostHighlight), page)
    {
      var all := AllHighlights(highlights, state.ghostHighlight);
      var pageNumbers := CollectPageNumbers(all);
      grouped := map[];
      var i := 0;
      while i < |pageNumbers|
        invariant 0 <= i <= |pageNumbers|
        invariant forall p :: p in grouped <==> p in pageNumbers[..i]
        invariant forall page :: page in grouped ==> grouped[page] == GroupFor(all, page)
      {
        var pageNumber := pageNumbers[i];
        // the set yields each page once, so its group starts empty
        assert pageNumber !in grouped;
        var group := CollectGroup(all, pageNumber);
        grouped := grouped[pageNumber := group];
        assert pageNumbers[..i + 1] == pageNumbers[..i] + [pageNumber];
        i := i + 1;
      }
      assert pageNumbers[..|pageNumbers|] == pageNumbers;
    }

    method ShowTip(position: Position, content: Popup)
      modifies this`state
      ensures Current() == Step(old(Current()), ShowTipCall(position, content))
    {
      var highlightInProgress := !state.isCollapsed || state.ghostHighlight.Some?;
      if highlightInProgress || state.isAreaSelectionInProgress {
        return;
      }
      SetTip(position, Some(content), Hover);
    }

    method SetTip(position: Position, inner: Option<Popup>, mode: TipMode)
      modifies this`state
      ensures Current() == Step(old(Current()), SetTipCall(position, inner, mode))
    {
      state := state.(tipPosition := Some(position), tipChildren := inner, tipMode := Some(mode));
    }

    method HideTipAndSelection()
      modifies this`state, this`showTipTimeout, this`hideTipTimeout
      ensures Current() == Step(old(Current()), HideTipAndSelectionCall)
    {
      if showTipTimeout.Some? {
        showTipTimeout := None;
      }
      if hideTipTimeout {
        hideTipTimeout := false;
      }
      state := state.(tipPosition := None, tipChildren := None, tipMode := None,
                      isTipHovered := false, isHighlightHovered := false);
      state := state.(ghostHighlight := None, tip := None);
    }

    method OnTipMouseEnter()
      modifies this`state, this`hideTipTimeout
      ensures Current() == Step(old(Current()), TipEnter)
    {
      if hideTipTimeout {
        hideTipTimeout := false;
      }
      state := state.(isTipHovered := true);
    }

    method OnTipMouseLeave()
      modifies this`state, this`hideTipTimeout
      ensures Current() == Step(old(Current()), TipLeave)
    {
      state := state.(isTipHovered := false);
      ScheduleHideTip();
    }

    method OnHighlightMouseEnter(position: Position, popup: Popup)
      modifies this`state, this`showTipTimeout, this`hideTipTimeout
      ensures Current() == Step(old(Current()), HighlightEnter(position, popup))
    {
      if hideTipTimeout {
        hideTipTimeout := false;
      }
      state := state.(isHighlightHovered := true);
      showTipTimeout := Some(PendingShow(position, popup));
    }

    method OnHighlightMouseLeave()
      modifies this`state, this`showTipTimeout, this`hideTipTimeout
      ensures Current() == Step(old(Current()), HighlightLeave)
    {
      if showTipTimeout.Some? {
        showTipTimeout := None;
      }
      state := state.(isHighlightHovered := false);
      ScheduleHideTip();
    }

    method ScheduleHideTip()
      modifies this`hideTipTimeout
      ensures Current() == ScheduleHide(old(Current()))
    {
      if state.tipMode != Some(Hover) {
        return;
      }
      hideTipTimeout := true;
    }

    method FireShowTipTimeout()
      modifies this`state, this`showTipTimeout
      ensures Current() == Step(old(Current()), ShowTimerFired)
    {
      if showTipTimeout.None? {
        return;
      }
      var pending := showTipTimeout.value;
      showTipTimeout := None;
      if state.isHighlightHovered || state.isTipHovered {
        SetTip(pending.position, Some(pending.popup), Hover);
      }
    }

    method FireHideTipTimeout()
      modifies this`state, this`hideTipTimeout
      ensures Current() == Step(old(Current()), HideTimerFired)
    {
      if !hideTipTimeout {
        return;
      }
      hideTipTimeout := false;
      if !state.isHighlightHovered && !state.isTipHovered {
        state := state.(tipPosition := None, tipChildren := None, tipMode := None);
      }
    }

    method FireFlashTimeout()
      modifies this`state, this`flashTimeout
      ensures Current() == Step(old(Current()), FlashTimerFired)
    {
      if !flashTimeout {
        return;
      }
      flashTimeout := false;
      state := state.(scrolledToHighlightId := EMPTY_ID);
    }

    method ComponentWillUnmount()
      modifies this`showTipTimeout, this`hideTipTimeout, this`flashTimeout
      ensures Current() == Step(old(Current()), UnmountCall)
    {
      if showTipTimeout.Some? {
        showTipTimeout := None;
      }
      if hideTipTimeout {
        hideTipTimeout := false;
      }
      if flashTimeout {
        flashTimeout := false;
      }
    }

    /** `scrollTo`: with the page's element at `pageTop`, centre the highlight's viewport
        rect in the container (clamped); without it, the viewer scrolls the page into view
        and leaves the offset at `viewerScrollTop`. Then mark the highlight and replace
        the flash timer. */
    method ScrollTo(id: string, viewportRect: Rect, pageTop: Option<real>,
                    clientHeight: real, scrollHeight: real, viewerScrollTop: real)
      modifies this`state, this`flashTimeout, this`scrollTop
      ensures pageTop.Some? ==>
                scrollTop == ScrollTarget(pageTop.value, viewportRect.top, viewportRect.height, clientHeight, scrollHeight)
      ensures pageTop.None? ==> scrollTop == viewerScrollTop
      ensures Current() == Step(old(Current()), ScrolledTo(id))
    {
      if pageTop.Some? {
        var targetTop := pageTop.value + viewportRect.top - (clientHeight - viewportRect.height) / 2.0;
        var maxScroll := scrollHeight - clientHeight;
        scrollTop := RealMax(0.0, RealMin(maxScroll, targetTop));
      } else {
        scrollTop := viewerScrollTop;
      }
      state := state.(scrolledToHighlightId := id);
      if flashTimeout {
        flashTimeout := false;
      }
      flashTimeout := true;
    }

    method OnSelectionChange(snapshot: SelectionSnapshot)
      modifies this`state
      ensures Current() == Step(old(Current()), SelectionChanged(snapshot))
    {
      match snapshot {
        case NoContainerOrSelection =>
          return;
        case CollapsedSelection =>
          state := state.(isCollapsed := true);
        case OpenSelection(range, inContainer) =>
          if range.None? || !inContainer {
            return;
          }
          state := state.(isCollapsed := false, range := range);
      }
    }

    method OnAreaSelectionChange(isVisible: bool)
      modifies this`state
      ensures Current() == Step(old(Current()), AreaSelectionChanged(isVisible))
    {
      state := state.(isAreaSelectionInProgress := isVisible);
    }

    method OnLayerSetTip(tip: Option<LayerTip>)
      modifies this`state
      ensures Current() == Step(old(Current()), LayerTipSet(tip))
    {
      state := state.(tip := tip);
    }

    method TransformSelection(selected: GhostHighlight)
      modifies this`state
      ensures Current() == Step(old(Current()), GhostCommitted(selected))
    {
      state := state.(ghostHighlight := Some(selected));
    }

    method OnMouseDown(target: PointerTarget)
      modifies this`state, this`showTipTimeout, this`hideTipTimeout
      ensures Current() == Step(old(Current()), PointerDownOn(target))
    {
      if target == NotAnElement || target == InsideTip || target == OnHighlight {
        return;
      }
      HideTipAndSelection();
    }

    method HandleKeyDown(code: string)
      modifies this`state, this`showTipTimeout, this`hideTipTimeout
      ensures Current() == Step(old(Current()), KeyPressed(code))
    {
      if code == "Escape" {
        HideTipAndSelection();
      }
    }

    method AfterSelection(handler: SelectionHandler) returns (created: Option<CreatePayload>, onTransform: Option<GhostHighlight>)
      modifies this`state, this`showTipTimeout, this`hideTipTimeout
      ensures SelectionOutcome(Current(), created, onTransform) == SelectionFinished(old(Current()), handler)
    {
      created := None;
      onTransform := None;
      if state.range.None? || state.isCollapsed {
        return;
      }
      var range := state.range.value;
      if range.pages.None? || |range.pages.value| == 0 {
        return;
      }
      if |range.rects| == 0 {
        return;
      }
      var viewportPosition := Position(range.boundingRect.viewport, Viewports(range.rects), range.pages.value[0]);
      var content := Content(Some(range.text), None);
      var scaledPosition := ViewportPositionToScaled(range.boundingRect, range.rects, range.pages.value[0]);
      match handler {
        case CreateDirectly(hasOnCreate) =>
          if hasOnCreate {
            created := Some(CreatePayload(content, scaledPosition));
          }
          HideTipAndSelection();
        case AskWithTip(popup) =>
          SetTip(viewportPosition, popup, Selection);
          onTransform := Some(GhostHighlight(scaledPosition, None));
      }
    }

    method OnTextLayerRendered(pageNumber: Option<int>, numPages: int, forceRenderOnLoad: bool)
      returns (ready: Option<int>, renders: nat)
      modifies this`textLayerRenderedPages, this`hasRenderedOnLoad
      ensures TextLayerOutcome(TextLayer(), ready, renders)
              == TextLayerRendered(old(TextLayer()), pageNumber, numPages, forceRenderOnLoad)
    {
      ready := None;
      if IsTruthyPage(pageNumber) {
        textLayerRenderedPages := textLayerRenderedPages + {pageNumber.value};
        ready := pageNumber;
      }
      renders := 1;
      if forceRenderOnLoad && !hasRenderedOnLoad && |textLayerRenderedPages| == numPages {
        hasRenderedOnLoad := true;
        renders := renders + 1;
      }
    }

    /** `componentDidUpdate` with a new document. */
    method OnDocumentChanged()
      modifies this`textLayerRenderedPages, this`hasRenderedOnLoad
      ensures TextLayer() == DocumentChanged(old(TextLayer()))
    {
      textLayerRenderedPages := {};
      hasRenderedOnLoad := false;
    }
  }
}
