# react-pdf-annotator, modelled in Dafny

This project models the annotation bookkeeping of react-pdf-annotator. The PDF viewer, the DOM and React rendering are not modelled. The model covers:

- **`PdfHighlighter`**:
  - the per-page grouping of highlights, with the in-progress ("ghost") highlight included;
  - the hover/selection tip state machine, with its show, hide and flash timers;
  - the guards `afterSelection` applies before it creates a highlight or opens a selection tip;
  - the scroll target of `scrollTo`;
  - the render-once bookkeeping for text layers.
- **`TipContainer`**: where the tip is placed (above or below the highlight, centred and clamped to the page) and whether it is visible.
- **`useHighlights`**: the caller's highlight list with add, update, delete, save-comment and reset, plus the record being edited.
- **`useZoom`**: the scale value, the clamp to [0.5, 3], the buttons, the Ctrl/Meta wheel and the label.
- **The example list (`HighlightList`)**: the sort by page, then by top; the rounded coordinates shown; the count in the header.
- **The example application (`App`)**: its own list updaters, its own wheel handler and "−"/"+"/"fit" buttons, and its label.
- **The quote demo (`AppQuoteDemo`)**: temporary records, the pending-record lookup, saving under a permanent id, delete, and the hover guard.

**Imperative code becomes classes.** A field that the source updates in place is a field of a Dafny class. Each method of such a class is proved against a function of the old state:

- `Highlighter.PdfHighlighter`, `HighlightsHook.HighlightStore`, `Zoom.ZoomController`, `DemoApp.App` and `QuoteDemo.QuoteApp` hold that state.
- The tip machine is also given as a pure step function, `Highlighter.Step`, over events. The theorems about event sequences are stated with it.
- The nested loops of `groupHighlightsByPage` are `while` loops. They are proved against the functions in `Partition`.

**Modules.** Each module follows one source file:

- `Types`: the record types.
- `Numbers`: `Math.round`, `toFixed`, `Math.min`/`Math.max`.
- `Text`: `String.prototype.trim` and decimal formatting.
- `Partition`: the grouping specification.
- `Highlighter`: `PdfHighlighter.tsx`.
- `TipContainer`: `TipContainer.tsx`.
- `Zoom`: `useZoom.ts`.
- `Records`: the filter, map and spread operations the list updaters share.
- `HighlightsHook`: `useHighlights.ts`.
- `HighlightList`: `HighlightList.tsx`.
- `DemoApp`: `App.tsx`.
- `QuoteDemo`: `AppQuoteDemo.tsx`.

**JavaScript values.**

- `null` and `undefined` are `Option.None`.
- A key that a patch may leave out, or set to `undefined`, is an `Option<Option<_>>`.
- Truthiness is written out: `IsTruthyString`, `IsTruthyPage`.
- Numbers are exact reals. A scale string is `PageWidth` ("page-width") or `Fixed(h)`, where `h` is the hundredths that `toFixed(2)` writes.
- Fresh ids, measured sizes, the wheel's `Math.exp` factor and DOM lookups are parameters.

**The model follows the code as written, including these behaviours:**

- The ghost highlight is appended to the list that `groupHighlightsByPage` walks (`src/components/PdfHighlighter.tsx:266-268`), not put in front of it. `Partition.GhostLast` states this.
- The 200 ms show timer's callback checks only the hover flags (`src/components/PdfHighlighter.tsx:427-433`). It does not repeat `showTip`'s ghost/selection guard, so a hovered highlight's tip is shown even while a ghost exists. `Highlighter.HoverTimerIgnoresGhost` states this.
- The example application's wheel writes the scale with `toFixed(1)` and steps by a fixed tenth (`example/src/App.tsx:257-260`). It does not use `useZoom`'s exponential factor.
- The demo's "−" button has no upper clamp and its "+" button no lower one (`example/src/App.tsx:413-426`).
- `setTip(..., "selection")` does not cancel a hide timer armed for an earlier hover tip. If that timer fires while nothing is hovered, it clears the selection tip. `Highlighter.StaleHideTimerClearsSelectionTip` states this.

## Model

| member | source | states |
|---|---|---|
| Numbers.MathRound | example/src/components/HighlightList.tsx:37-38 | `Math.round` gives the integer within half a unit of its argument, ties rounding up |
| Numbers.ToFixedUnits | src/hooks/useZoom.ts:53 | `toFixed(d)`, read back as a count of 10^-d units, is within half a unit of the value; halves round away from zero |
| Numbers.MathRoundOfInteger | src/hooks/useZoom.ts:85 | rounding a whole number gives that number |
| Numbers.MathRoundMonotone | example/src/components/HighlightList.tsx:37 | rounding never reverses the order of two values |
| Text.TrimStart | src/hooks/useHighlights.ts:78 | the result is a suffix of the input; everything dropped is whitespace; the result is empty or starts with a non-whitespace character |
| Text.TrimEnd | src/hooks/useHighlights.ts:78 | the result is a prefix of the input; everything dropped is whitespace; the result is empty or ends with a non-whitespace character |
| Text.Trim | src/hooks/useHighlights.ts:78 | `trim()` returns a contiguous slice of its input; everything before and after it is whitespace; a non-empty result starts and ends with a non-whitespace character |
| Text.TrimEmptyIff | src/hooks/useHighlights.ts:78 | `trim()` is empty exactly when the input is all whitespace |
| Text.NatToString | src/hooks/useZoom.ts:85 | the decimal form of a number is non-empty, all digits, and has no leading zero unless it is 0 |
| Text.NatToStringRoundTrip | src/hooks/useZoom.ts:85 | reading the decimal digits back gives the number |
| Partition.WithPosition | src/components/PdfHighlighter.tsx:285-293 | replacing the position keeps the kind of entry and sets the new position |
| Partition.WithPositionRestores | src/components/PdfHighlighter.tsx:285-293 | the spread changes nothing but the position: putting the old one back restores the entry |
| Partition.AllHighlights | src/components/PdfHighlighter.tsx:266-268 | the committed highlights in order, then the ghost when there is one |
| Partition.RectsOnPage | src/components/PdfHighlighter.tsx:295-301 | the rects filed under a page are no more than the input, and every one of them belongs to that page |
| Partition.RectsOnPageFilters | src/components/PdfHighlighter.tsx:295-301 | a page's rects are exactly those whose page (`rect.pageNumber \|\| highlight.pageNumber`) is that page, each as often as in the input |
| Partition.RectsOnPageAppend | src/components/PdfHighlighter.tsx:295-301 | filing rects works piecewise over concatenation, so the filter keeps the input order |
| Partition.RectLandsOnItsPage | src/components/PdfHighlighter.tsx:297 | every rect is filed under exactly one page |
| Partition.TruthyRectPagesSpec | src/components/PdfHighlighter.tsx:273-277 | a page is among the rect pages exactly when some rect has that truthy page number |
| Partition.PageNumbers | src/components/PdfHighlighter.tsx:270-278 | the key set contains every entry's own page and every truthy rect page |
| Partition.PageNumbersSpec | src/components/PdfHighlighter.tsx:270-278 | the key set holds exactly the pages that some entry, the ghost included, touches through its own page or a truthy rect page |
| Partition.OnPageIffTouches | src/components/PdfHighlighter.tsx:303 | an entry gets a copy in a page's group exactly when it touches that page |
| Partition.PageLocal | src/components/PdfHighlighter.tsx:285-302 | the page-local copy carries the group's page number and only that page's rects, and keeps the bounding rect and the coordinate flag |
| Partition.GroupFor | src/components/PdfHighlighter.tsx:284-306 | a page's group has at most one copy per entry, and every copy carries the group's page number |
| Partition.GroupForAppend | src/components/PdfHighlighter.tsx:284-306 | grouping works piecewise over concatenation, so each group keeps the input order |
| Partition.GhostLast | src/components/PdfHighlighter.tsx:266-268 | the ghost's copy comes after every committed highlight in each group it belongs to |
| Partition.GroupNonEmptyIff | src/components/PdfHighlighter.tsx:303-305 | a group is non-empty exactly when some entry has a copy on that page |
| Partition.GroupKeys | src/components/PdfHighlighter.tsx:270-307 | a page has a non-empty group exactly when it is a key; nothing is filed under any other page |
| Highlighter.HideTipAndSelection | src/components/PdfHighlighter.tsx:362-384 | both tip timers are cancelled; the tip, the layer tip, the ghost and both hover flags are cleared; the flash timer and the stored selection are kept |
| Highlighter.TipMouseEnter | src/components/PdfHighlighter.tsx:398-404 | the tip is marked hovered and a pending hide is cancelled, so the next hide tick does nothing; the tip and a pending show are kept |
| Highlighter.ScheduleHide | src/components/PdfHighlighter.tsx:446-466 | without a hover tip nothing changes; with one the hide timer is armed and nothing else changes |
| Highlighter.TipMouseLeave | src/components/PdfHighlighter.tsx:406-409 | the tip is unmarked; a hide is pending afterwards exactly when one was already pending or a hover tip is shown; the tip and a pending show are kept |
| Highlighter.HighlightMouseEnter | src/components/PdfHighlighter.tsx:411-434 | the highlight is marked hovered, the pending show is replaced by this highlight's, and a pending hide is cancelled so the next hide tick does nothing; the tip is kept |
| Highlighter.HighlightMouseLeave | src/components/PdfHighlighter.tsx:436-444 | the highlight is unmarked and the pending show is cancelled, so the next show tick does nothing; a hide is pending afterwards exactly when one was already or a hover tip is shown |
| Highlighter.ShowTimeoutFires | src/components/PdfHighlighter.tsx:427-433 | no show is pending afterwards; with a pending show and the highlight or tip hovered, that show's hover tip is set; otherwise the state is unchanged; the other timers are kept |
| Highlighter.HideTimeoutFires | src/components/PdfHighlighter.tsx:455-465 | no hide is pending afterwards; with a pending hide and nothing hovered only the tip is cleared; otherwise the state is unchanged; the other timers are kept |
| Highlighter.FlashTimeoutFires | src/components/PdfHighlighter.tsx:577-582 | no flash is pending afterwards; a pending flash resets the marking to the empty id, and without one nothing changes |
| Highlighter.Unmount | src/components/PdfHighlighter.tsx:226-237 | the state is kept and all three timers are cleared, so none of their ticks changes anything |
| Highlighter.SelectionChange | src/components/PdfHighlighter.tsx:599-631 | only the collapsed flag and the stored range can change, no timer is touched, and a new range is the one an open selection inside the container brings |
| Highlighter.PointerDown | src/components/PdfHighlighter.tsx:660-676 | a press outside the tip and the highlights clears the tip, the ghost and both tip timers; any other press changes nothing |
| Highlighter.KeyDown | src/components/PdfHighlighter.tsx:678-682 | Escape clears the tip, the ghost and both tip timers; any other key changes nothing |
| Highlighter.Step | src/components/PdfHighlighter.tsx:312-682 | only a scroll or a flash tick changes the scrolled-to id, only entering a highlight arms a new show, only a selection change changes the stored range, and only the transform callback installs a ghost |
| Highlighter.ShowTipGuard | src/components/PdfHighlighter.tsx:312-323 | `showTip` changes nothing while a selection is open, a ghost exists or an area selection is in progress; otherwise it shows a hover tip |
| Highlighter.HighlightEnterArmsShow | src/components/PdfHighlighter.tsx:411-434 | entering a highlight cancels a pending hide, replaces any pending show, marks the highlight hovered and leaves the tip alone |
| Highlighter.ShowFiresOnlyWhenHovered | src/components/PdfHighlighter.tsx:427-433 | the show timer changes the tip only when a show is pending and the highlight or the tip is hovered, and then shows that hover tip; afterwards no show is pending |
| Highlighter.HoverTimerIgnoresGhost | src/components/PdfHighlighter.tsx:427-433 | entering a highlight and letting the show timer fire shows its hover tip even when a ghost exists or a selection is open |
| Highlighter.HideFiresOnlyWhenUnhovered | src/components/PdfHighlighter.tsx:455-465 | the hide timer changes the tip only when a hide is pending and nothing is hovered, and then clears it; afterwards no hide is pending |
| Highlighter.SelectionTipIgnoresHoverLeave | src/components/PdfHighlighter.tsx:446-449 | leaving the highlight or the tip while no hover tip is shown arms no hide timer and leaves the tip alone |
| Highlighter.TipEnterCancelsHide | src/components/PdfHighlighter.tsx:398-404 | entering the tip cancels a pending hide, so a following hide tick does nothing |
| Highlighter.StaleHideTimerClearsSelectionTip | src/components/PdfHighlighter.tsx:386-396 | a selection tip does not cancel a pending hide, which then clears it when nothing is hovered |
| Highlighter.TimersAloneKeepUi | src/components/PdfHighlighter.tsx:427-465 | with no tip timer pending, any run of timer ticks changes nothing but the flash marking |
| Highlighter.TimersNeverOpenTip | src/components/PdfHighlighter.tsx:427-465 | with no show pending, timer ticks alone never open a tip: the tip stays or is cleared |
| Highlighter.LeaveBeforeShowNeverShows | src/components/PdfHighlighter.tsx:436-444 | leaving a highlight before its show timer fires means its tip is never shown by any later ticks |
| Highlighter.RunAppend | src/components/PdfHighlighter.tsx:398-466 | running two event sequences one after the other is running their concatenation |
| Highlighter.NoRevivalAfterHideTipAndSelection | src/components/PdfHighlighter.tsx:362-384 | after `hideTipAndSelection` no timer brings back the tip, the ghost, the layer tip or a hover flag |
| Highlighter.UnmountSilencesTimers | src/components/PdfHighlighter.tsx:226-237 | after unmounting, timer ticks change nothing |
| Highlighter.FlashReplaced | src/components/PdfHighlighter.tsx:567-582 | a second scroll replaces the flash timer: the marking is the second id, one tick resets it to the empty id, and later ticks do nothing |
| Highlighter.ViewportPositionToScaled | src/components/PdfHighlighter.tsx:342-354 | the scaled position keeps the page number, converts the bounding rect, has one converted rect per viewport rect in order, and writes no `usePdfCoordinates` key |
| Highlighter.SelectionFinished | src/components/PdfHighlighter.tsx:684-748 | a highlight is created only by a host without `onSelectionFinished` that has `onCreate`, and a transform callback exists only with `onSelectionFinished`; with no range, or a collapsed selection, nothing changes |
| Highlighter.AfterSelectionGuards | src/components/PdfHighlighter.tsx:684-748 | an unusable selection changes nothing; otherwise either a selection tip opens at the viewport position on the first page of the selection, whose transform callback makes a content-less ghost at the scaled position, or the tip and selection are hidden and, when `onCreate` is given, the text is created at the scaled position; that position lies on the selection's first page, has one converted rect per client rect, and has no `usePdfCoordinates` key |
| Highlighter.SelectionChangeFacts | src/components/PdfHighlighter.tsx:599-631 | a collapsed selection only sets the flag; an open one outside the container is ignored; an open one inside it is recorded with its range |
| Highlighter.ScrollTarget | src/components/PdfHighlighter.tsx:548-554 | the offset lies in [0, max(0, scrollHeight − clientHeight)]; when the centring offset is in range it is used and centres the rect; otherwise it is clamped to the nearer end |
| Highlighter.TextLayerRendered | src/components/PdfHighlighter.tsx:513-531 | a truthy page number is added to the rendered pages and reported ready, and nothing else is; the layers render once, and a second time exactly when render-on-load is forced, has not happened yet and the count of rendered pages equals the document's page count; the flag is then set and stays set |
| Highlighter.RenderOnLoadAtMostOnce | src/components/PdfHighlighter.tsx:523-530 | over any run of text-layer events the extra render happens at most once per document, and never once it has happened |
| Highlighter.DocumentChanged | src/components/PdfHighlighter.tsx:179-181 | a new document clears the rendered pages and the render-on-load flag |
| Highlighter.AddPage | src/components/PdfHighlighter.tsx:272 | `Set.add` keeps the pages distinct and adds exactly the new page |
| Highlighter.CollectPageNumbers | src/components/PdfHighlighter.tsx:270-278 | the loop yields distinct pages, exactly the specified key set |
| Highlighter.CollectPageRects | src/components/PdfHighlighter.tsx:294-302 | the inner loop collects exactly the rects filed under the page, and the flag says whether there are any |
| Highlighter.CollectGroup | src/components/PdfHighlighter.tsx:284-306 | the middle loop builds exactly the specified group of the page |
| Highlighter.PdfHighlighter.constructor | src/components/PdfHighlighter.tsx:107-133 | the initial state: no tip, collapsed selection, empty id, no timers, no rendered pages |
| Highlighter.PdfHighlighter.GroupHighlightsByPage | src/components/PdfHighlighter.tsx:261-310 | the map's keys are exactly the key set, and each key's group is the specified page-local group |
| Highlighter.PdfHighlighter.ShowTip | src/components/PdfHighlighter.tsx:312-323 | the new state is `ShowTip` of the old one |
| Highlighter.PdfHighlighter.SetTip | src/components/PdfHighlighter.tsx:386-396 | the tip's position, children and mode are set |
| Highlighter.PdfHighlighter.HideTipAndSelection | src/components/PdfHighlighter.tsx:362-384 | both tip timers are cancelled; the tip, the hover flags, the ghost and the layer tip are cleared |
| Highlighter.PdfHighlighter.OnTipMouseEnter | src/components/PdfHighlighter.tsx:398-404 | a pending hide is cancelled and the tip is marked hovered |
| Highlighter.PdfHighlighter.OnTipMouseLeave | src/components/PdfHighlighter.tsx:406-409 | the tip is unmarked and a hide is scheduled |
| Highlighter.PdfHighlighter.OnHighlightMouseEnter | src/components/PdfHighlighter.tsx:411-434 | a pending hide is cancelled, the highlight is marked hovered, and the show timer is replaced |
| Highlighter.PdfHighlighter.OnHighlightMouseLeave | src/components/PdfHighlighter.tsx:436-444 | the pending show is cancelled, the highlight is unmarked and a hide is scheduled |
| Highlighter.PdfHighlighter.ScheduleHideTip | src/components/PdfHighlighter.tsx:446-466 | a hide timer is armed only for a hover tip |
| Highlighter.PdfHighlighter.FireShowTipTimeout | src/components/PdfHighlighter.tsx:427-433 | the show timer's callback, as `Step` on its tick |
| Highlighter.PdfHighlighter.FireHideTipTimeout | src/components/PdfHighlighter.tsx:455-465 | the hide timer's callback, as `Step` on its tick |
| Highlighter.PdfHighlighter.FireFlashTimeout | src/components/PdfHighlighter.tsx:577-582 | the flash timer's callback resets the marking to the empty id |
| Highlighter.PdfHighlighter.ComponentWillUnmount | src/components/PdfHighlighter.tsx:226-237 | all three timers are cancelled |
| Highlighter.PdfHighlighter.ScrollTo | src/components/PdfHighlighter.tsx:533-583 | with the page mounted the offset is `ScrollTarget`; otherwise it is what the viewer leaves; the id is marked and the flash timer replaced |
| Highlighter.PdfHighlighter.OnSelectionChange | src/components/PdfHighlighter.tsx:599-631 | the selection flags and range change as `SelectionChange` says |
| Highlighter.PdfHighlighter.OnAreaSelectionChange | src/components/PdfHighlighter.tsx:869-871 | the area-selection flag follows the area selection's visibility |
| Highlighter.PdfHighlighter.OnLayerSetTip | src/components/PdfHighlighter.tsx:990-992 | the highlight layer's tip is stored |
| Highlighter.PdfHighlighter.TransformSelection | src/components/PdfHighlighter.tsx:736-744 | the selection becomes the ghost highlight |
| Highlighter.PdfHighlighter.OnMouseDown | src/components/PdfHighlighter.tsx:660-676 | a press outside the tip and the highlights hides the tip and the selection; any other press changes nothing |
| Highlighter.PdfHighlighter.HandleKeyDown | src/components/PdfHighlighter.tsx:678-682 | Escape hides the tip and the selection; any other key changes nothing |
| Highlighter.PdfHighlighter.AfterSelection | src/components/PdfHighlighter.tsx:684-748 | the new state, the created payload and the ghost the transform callback would install are those of `SelectionFinished` |
| Highlighter.PdfHighlighter.OnTextLayerRendered | src/components/PdfHighlighter.tsx:513-531 | the bookkeeping, the ready page and the render count are those of `TextLayerRendered` |
| Highlighter.PdfHighlighter.OnDocumentChanged | src/components/PdfHighlighter.tsx:178-184 | the bookkeeping is cleared for the new document |
| TipContainer.Clamp | src/components/TipContainer.tsx:19-21 | the result is at most `max`, and at least `min` when min ≤ max; a value in range is kept; one below goes to `min`, one above to `max` |
| TipContainer.ClampIdempotent | src/components/TipContainer.tsx:19-21 | clamping twice to one interval clamps once |
| TipContainer.TipTop | src/components/TipContainer.tsx:50-52 | when the tip would start above the scroll position it goes 5 px below the highlight; otherwise it ends 5 px above it |
| TipContainer.TipTopVisible | src/components/TipContainer.tsx:50-52 | a tip kept above never starts above the scroll position; one moved below starts under the highlight |
| TipContainer.IdealLeft | src/components/TipContainer.tsx:55-56 | the centred left edge puts the tip's centre on the highlight's centre |
| TipContainer.TipLeft | src/components/TipContainer.tsx:55-62 | the left edge is at or after the page's left; it is at most max(page left, page right − width), so a tip no wider than the page stays inside it; a centred tip that fits keeps its centred position |
| TipContainer.WideTipStartsAtPageLeft | src/components/TipContainer.tsx:58-62 | a tip wider than the page starts at the page's left edge |
| TipContainer.MissingWidthIsZero | src/components/TipContainer.tsx:55 | a highlight without a width is placed as one of width 0 |
| TipContainer.Layout | src/components/TipContainer.tsx:48-62 | the popup is placed below exactly when the tip moves; the container is hidden exactly when width and height are both 0; top and left are `TipTop` and `TipLeft` |
| Zoom.ClampScale | src/hooks/useZoom.ts:3-4 | the result is in [0.5, 3], an in-range value is kept, and out-of-range values go to the nearer bound |
| Zoom.ClampScaleMonotone | src/hooks/useZoom.ts:11-13 | clamping never reverses the order of two scales |
| Zoom.ParseScaleValue | src/hooks/useZoom.ts:15-17 | "page-width" reads as 1 and a written value as its hundredths over 100; a valid value reads within [0.5, 3] |
| Zoom.ToScaleValue | src/hooks/useZoom.ts:52-53 | a clamped scale written with two decimals is a fixed value in [50, 300] hundredths, within half a hundredth of the clamped scale |
| Zoom.ToScaleValueOfHundredths | src/hooks/useZoom.ts:52-53 | writing a scale that is already a whole number of hundredths in range gives that value back |
| Zoom.ToScaleValueMonotone | src/hooks/useZoom.ts:52-53 | writing never reverses the order of two scales |
| Zoom.NormalizeDelta | src/hooks/useZoom.ts:25-33 | line mode multiplies by 16, page mode by 800, pixel mode keeps the delta; the sign is kept |
| Zoom.WheelStep | src/hooks/useZoom.ts:35-55 | an event without Ctrl/Meta, outside the container, or while not listening leaves the scale; a handled one writes clamp(scale × factor) with two decimals |
| Zoom.WheelDirection | src/hooks/useZoom.ts:47-53 | with a factor that has the sign of `exp(-delta·k)`, a negative delta never zooms out, a positive one never zooms in, and zero keeps the scale |
| Zoom.ZoomedIn | src/hooks/useZoom.ts:64-69 | the zoomed-in value is valid |
| Zoom.ZoomedOut | src/hooks/useZoom.ts:71-76 | the zoomed-out value is valid |
| Zoom.ZoomSteps | src/hooks/useZoom.ts:64-76 | the buttons step by 10 hundredths, clamped to [50, 300]; from "page-width" they give 110 and 90 |
| Zoom.ZoomInOutRoundTrip | src/hooks/useZoom.ts:64-76 | zooming in then out returns to the same value when the step does not hit the upper bound |
| Zoom.ZoomLabel | src/hooks/useZoom.ts:82-85 | the label is "Fit" exactly for "page-width"; a fixed value shows its hundredths followed by "%" |
| Zoom.ZoomLabelSpec | src/hooks/useZoom.ts:82-85 | a valid fixed value's label ends in "%" and its digits read back to the value |
| Zoom.ZoomStaysInRange | src/hooks/useZoom.ts:50-80 | from a valid value, any sequence of buttons, fits and wheel events keeps the value valid |
| Zoom.ZoomController.constructor | src/hooks/useZoom.ts:9 | the value starts as "page-width" |
| Zoom.ZoomController.ZoomIn | src/hooks/useZoom.ts:64-69 | the value becomes `ZoomedIn` of the old one and stays valid |
| Zoom.ZoomController.ZoomOut | src/hooks/useZoom.ts:71-76 | the value becomes `ZoomedOut` of the old one and stays valid |
| Zoom.ZoomController.FitWidth | src/hooks/useZoom.ts:78-80 | the value becomes "page-width" |
| Zoom.ZoomController.HandleWheel | src/hooks/useZoom.ts:35-55 | the value becomes `WheelStep` of the old one; a valid value stays valid |
| Records.Spread | src/hooks/useHighlights.ts:53-59 | a key the patch gives takes its value; otherwise the original's is kept |
| Records.MergePosition | src/hooks/useHighlights.ts:46-48 | each position key the patch gives is replaced, and every other key is kept |
| Records.MergeContent | src/hooks/useHighlights.ts:49-51 | each content key the patch gives is replaced, and the other is kept |
| Records.MergeIdentityAndIdempotence | src/hooks/useHighlights.ts:46-51 | an empty patch changes nothing, and spreading a patch twice is spreading it once |
| Records.RemoveId | src/hooks/useHighlights.ts:66-73 | filtering never lengthens the list |
| Records.RemoveIdSpec | src/hooks/useHighlights.ts:66-73 | no kept record has the id; every record without it is kept as often as it occurs; membership is "in the input and a different id" |
| Records.RemoveIdAppend | src/hooks/useHighlights.ts:69 | the filter works piecewise, so the kept records stay in order |
| Records.RemoveIdAbsent | src/hooks/useHighlights.ts:69 | a list without the id is left as it is |
| Records.RemoveIdIdempotent | src/hooks/useHighlights.ts:69 | deleting twice deletes once |
| Records.MapMatching | src/hooks/useHighlights.ts:40-45 | the length is kept; records with another id are untouched and records with the id are rewritten in place |
| Records.MapMatchingAppend | src/hooks/useHighlights.ts:41 | the rewrite works piecewise over concatenation |
| Records.RewriteInvisibleOutsideId | src/hooks/useHighlights.ts:40-59 | a rewrite that keeps ids keeps every position's id, and is invisible once the id is filtered out |
| Records.NormalizedComment | src/hooks/useHighlights.ts:78 | the comment is absent exactly when the text is all whitespace; otherwise it is the trimmed, non-empty text with no whitespace at either end |
| Records.NormalizedCommentIdempotent | src/hooks/useHighlights.ts:78 | normalising a normalised comment keeps it |
| Records.TrimOfTrimmed | src/hooks/useHighlights.ts:78 | a string with no whitespace at either end is its own trim |
| HighlightsHook.NewRecord | src/hooks/useHighlights.ts:31 | the caller's id is kept when given, and otherwise the fresh id is used; every other field is the input's |
| HighlightsHook.EmptyIdKept | src/hooks/useHighlights.ts:31 | an empty caller id is kept, since `??` replaces only a missing one |
| HighlightsHook.ApplyPatch | src/hooks/useHighlights.ts:46-59 | the id is always the original; position and content are merged when the patch has them and kept otherwise; comment and meta are spread |
| HighlightsHook.PatchIdIgnored | src/hooks/useHighlights.ts:53-59 | an id in the patch has no effect, and an empty patch changes nothing |
| HighlightsHook.Updated | src/hooks/useHighlights.ts:38-64 | length, order and every id are kept; records with another id are untouched; records with the id are patched |
| HighlightsHook.UpdatedInvisibleOutsideId | src/hooks/useHighlights.ts:38-73 | filtering out the id hides the update |
| HighlightsHook.CommentPatch | src/hooks/useHighlights.ts:77-79 | the patch carries only the normalised comment |
| HighlightsHook.SaveCommentSpec | src/hooks/useHighlights.ts:75-83 | only the records with the id change, and only their comment, to the normalised text |
| HighlightsHook.HighlightStore.constructor | src/hooks/useHighlights.ts:20-25 | the store holds the caller's list, and no record is being edited |
| HighlightsHook.HighlightStore.AddHighlight | src/hooks/useHighlights.ts:29-36 | returns `NewRecord` and puts it in front of the unchanged old list |
| HighlightsHook.HighlightStore.UpdateHighlight | src/hooks/useHighlights.ts:38-64 | the list becomes `Updated` of the old list |
| HighlightsHook.HighlightStore.DeleteHighlight | src/hooks/useHighlights.ts:66-73 | the list becomes the old list without the id |
| HighlightsHook.HighlightStore.SaveComment | src/hooks/useHighlights.ts:75-83 | the list is updated with the comment patch, and no record is being edited |
| HighlightsHook.HighlightStore.ResetHighlights | src/hooks/useHighlights.ts:85-87 | the list becomes empty |
| HighlightsHook.HighlightStore.SetEditingHighlight | src/hooks/useHighlights.ts:25 | the record being edited is set |
| HighlightList.Insert | example/src/components/HighlightList.tsx:11 | one insertion lengthens the list by one and adds exactly that record to its multiset |
| HighlightList.SortForList | example/src/components/HighlightList.tsx:11-22 | the sorted copy has the input's length and the input's records, each as often |
| HighlightList.InsertSorted | example/src/components/HighlightList.tsx:11-22 | inserting into a sorted list keeps it sorted |
| HighlightList.SortForListSpec | example/src/components/HighlightList.tsx:11-22 | the copy is ordered by page, then by top (`y1`), and is a permutation of the input |
| HighlightList.WithKeyAppend | example/src/components/HighlightList.tsx:11 | selecting the records with one key works piecewise over concatenation |
| HighlightList.NoKeyAfterLarger | example/src/components/HighlightList.tsx:14-21 | in a sorted list, nothing after a larger record has the smaller key |
| HighlightList.InsertWithKey | example/src/components/HighlightList.tsx:11 | insertion puts the new record after every record with the same key |
| HighlightList.SortKeepsTies | example/src/components/HighlightList.tsx:11-22 | the sort is stable: records that compare equal keep their input order |
| HighlightList.SortStepWithKey | example/src/components/HighlightList.tsx:11 | one insertion step keeps the records with a key in input order |
| HighlightList.DisplayCoordinate | example/src/components/HighlightList.tsx:37-38 | a dash exactly for a missing or non-finite value; otherwise the integer within half a unit of it |
| HighlightList.RowOf | example/src/components/HighlightList.tsx:32-38 | a row shows the page and the rounded `y1` and `x1` |
| HighlightList.ListingOf | example/src/components/HighlightList.tsx:26-45 | the header count is the input's length; row k is `RowOf` of the k-th record of the sorted list, so every saved highlight is shown once, in sorted order |
| HighlightList.ListingOrdered | example/src/components/HighlightList.tsx:31-38 | rows' pages never decrease, and on one page the shown y never decreases |
| DemoApp.WithFreshId | example/src/App.tsx:275 | the new record always takes the fresh id and keeps the input's position, content and comment |
| DemoApp.Merged | example/src/App.tsx:288-301 | a matching record keeps its id, comment and meta, and has its position and content merged |
| DemoApp.AppUpdated | example/src/App.tsx:280-304 | the length is kept; matching records are merged in place and the others kept |
| DemoApp.AppUpdateAgreesWithHook | example/src/App.tsx:280-304 | the demo's update equals the hook's update with both a position and a content patch |
| DemoApp.AppCommented | example/src/App.tsx:310-317 | the length is kept; matching records take the normalised comment and the others are kept |
| DemoApp.AppCommentAgreesWithHook | example/src/App.tsx:310-317 | the demo's save-comment equals the hook's |
| DemoApp.WheelDelta | example/src/App.tsx:257 | a positive delta steps one tenth down, any other one tenth up |
| DemoApp.AppWheel | example/src/App.tsx:251-271 | unhandled events leave the value; a handled one gives a valid value on a whole tenth, the clamped sum of the old scale and the step rounded to one decimal |
| DemoApp.AppWheelInRange | example/src/App.tsx:255-261 | a handled wheel event lands in [0.5, 3] on a whole tenth |
| DemoApp.AppWheelDirection | example/src/App.tsx:257 | a positive delta never zooms in, and any other delta never zooms out |
| DemoApp.AppWheelSteps | example/src/App.tsx:255-261 | from a whole tenth the wheel moves exactly one tenth, stopping at the bounds |
| DemoApp.MinusButton | example/src/App.tsx:413-416 | "−" gives a fixed value of at least 50 hundredths: max(0.5, scale − 0.25) rounded to two decimals |
| DemoApp.PlusButton | example/src/App.tsx:423-426 | "+" gives a fixed value of at most 300 hundredths: min(3, scale + 0.25) rounded to two decimals |
| DemoApp.ButtonSteps | example/src/App.tsx:413-426 | "−" gives max(50, h − 25) hundredths and "+" gives min(300, h + 25); from "page-width" they give 75 and 125 |
| DemoApp.ButtonsStayInRange | example/src/App.tsx:413-426 | from a valid value both buttons give a valid value |
| DemoApp.ButtonsUnclampedOutsideRange | example/src/App.tsx:413-426 | "−" does not clamp from above and "+" does not clamp from below |
| DemoApp.App.constructor | example/src/App.tsx:242-245 | no records, "page-width", nothing being edited, panel closed |
| DemoApp.App.AddHighlight | example/src/App.tsx:273-278 | returns the record with the fresh id and puts it in front of the old list |
| DemoApp.App.UpdateHighlight | example/src/App.tsx:280-304 | the list becomes `AppUpdated` of the old list |
| DemoApp.App.DeleteHighlight | example/src/App.tsx:306-308 | the list becomes the old list without the id |
| DemoApp.App.SaveComment | example/src/App.tsx:310-317 | matching records take the normalised comment, and nothing is being edited |
| DemoApp.App.ResetHighlights | example/src/App.tsx:319-321 | the list becomes empty |
| DemoApp.App.SetPanelOpen | example/src/App.tsx:242 | the panel flag is set |
| DemoApp.App.HandleWheel | example/src/App.tsx:251-271 | the value becomes `AppWheel` of the old one, listening only while the container is mounted and the panel is open |
| DemoApp.App.ZoomOutButton | example/src/App.tsx:413-416 | the value becomes `MinusButton` of the old one |
| DemoApp.App.ZoomInButton | example/src/App.tsx:423-426 | the value becomes `PlusButton` of the old one |
| DemoApp.App.FitWidthButton | example/src/App.tsx:402 | the value becomes "page-width" |
| DemoApp.App.Label | example/src/App.tsx:408 | the label is "Fit" exactly for "page-width"; a fixed value shows its hundredths followed by "%" |
| QuoteDemo.TemporaryRecord | example/src/AppQuoteDemo.tsx:103-114 | the record's id is "temp-" followed by the fresh suffix; it has the payload's position and content and no comment |
| QuoteDemo.FirstIndex | example/src/AppQuoteDemo.tsx:117 | `find` returns the first position with the id, and no earlier one has it; none means no record has it |
| QuoteDemo.PendingRecord | example/src/AppQuoteDemo.tsx:116-118 | a pending record needs a non-empty pending id, and carries it |
| QuoteDemo.PendingRecordSpec | example/src/AppQuoteDemo.tsx:116-118 | there is a pending record exactly when the id is non-empty and some record carries it, and then it is the first such record |
| QuoteDemo.Saved | example/src/AppQuoteDemo.tsx:319-334 | the length is kept; the pending records take the new id and the normalised comment and keep position, content and meta; every other record is untouched |
| QuoteDemo.SavedLeavesNoPending | example/src/AppQuoteDemo.tsx:319-334 | after saving under a different id, no record keeps the pending id |
| QuoteDemo.MouseOver | example/src/AppQuoteDemo.tsx:284-289 | the comment tip is requested exactly when the record has a non-empty comment and no action popup is open |
| QuoteDemo.MouseOut | example/src/AppQuoteDemo.tsx:290-295 | the tip is hidden exactly when no action popup is open |
| QuoteDemo.QuoteApp.constructor | example/src/AppQuoteDemo.tsx:93-100 | no records, no pending or action id, empty comment |
| QuoteDemo.QuoteApp.OnCreate | example/src/AppQuoteDemo.tsx:103-114 | the temporary record goes in front of the old list |
| QuoteDemo.QuoteApp.OnEditQuote | example/src/AppQuoteDemo.tsx:191-196 | the record becomes pending, the draft is its comment or "", the action popup closes and the tip is hidden |
| QuoteDemo.QuoteApp.OnChangeComment | example/src/AppQuoteDemo.tsx:317 | the draft comment is replaced |
| QuoteDemo.QuoteApp.OnSave | example/src/AppQuoteDemo.tsx:319-334 | the list becomes `Saved` under "saved-" and the suffix, with the draft comment, and nothing is pending |
| QuoteDemo.QuoteApp.OnCancel | example/src/AppQuoteDemo.tsx:318 | nothing is pending |
| QuoteDemo.QuoteApp.OnDelete | example/src/AppQuoteDemo.tsx:249-255 | the list loses every record with the id, the action popup closes and the tip is hidden |
| QuoteDemo.QuoteApp.OnMouseOver | example/src/AppQuoteDemo.tsx:284-289 | the request is `MouseOver` for the current action id |
| QuoteDemo.QuoteApp.OnMouseOut | example/src/AppQuoteDemo.tsx:290-295 | the request is `MouseOut` for the current action id |
| QuoteDemo.QuoteApp.OnContextMenu | example/src/AppQuoteDemo.tsx:296-300 | the record's action popup opens |
| QuoteDemo.QuoteApp.OnRootPointerDown | example/src/AppQuoteDemo.tsx:123 | the action popup closes |

## Left out

- pdf.js: viewer construction, the event bus, the link service, `init`, listener wiring and `scrollPageIntoView`. These are calls into a foreign library. `scrollTo` takes the page's offset and the container's sizes as parameters.
- `src/lib` (`scaledToViewport`, `viewportToScaled`, `getClientRects`, `getBoundingRect`, `getPagesFromRange`, `getAreaAsPNG`) is not part of this model. The selection range carries their results as fields: each client rect is paired with its `viewportToScaled` conversion in the first page's viewport, and `ViewportPositionToScaled` assembles the scaled position from those pairs.
- React rendering and the DOM: the highlight layers and their root cache, `renderTip`'s offset reads, the mouse-selection wiring, text-selection toggling and the UI-only components.
- `onMouseUp` only schedules `afterSelection`, through the viewer's listener wiring above.
- `onScroll` and the scroll listener that `scrollTo` re-attaches after 100 ms are not modelled. In the program, the first user scroll after that re-attach also resets `scrolledToHighlightId` to the empty id and detaches the listener. `Highlighter.Step` and `Highlighter.FlashReplaced` speak only of the modelled events, so they do not cover that reset.
- Real time: each timer is a pending flag with an explicit tick. The 500 ms resize debounce and the 100 ms scroll-listener re-attach are not modelled.
- DemoApp.AppWheel: the step is an exact tenth. In the program, `0.75 + 0.1` is `0.8499999…` in binary floating point, so a wheel-up from "0.75" gives "0.8"; the model gives 0.9 (`Fixed(90)`).
- Zoom.WheelStep: `Math.exp(-delta · 0.0008)` is not computed. The factor is a parameter constrained only by its relation to 1 (`IsWheelFactor`), because the exponential has no exact real model here.
- Numbers and strings:
  - Binary floating point is not modelled: all arithmetic is exact.
  - The `toFixed`/`parseFloat` string round trip is not modelled: scale values are integer hundredths.
  - NaN and ±Infinity in a displayed coordinate are the missing value.
- ScaleValue: a scale string that none of the updaters writes (another keyword, or text that is not a number) cannot be represented.
- HighlightList.RowOf: the quoted text excerpt (`content.text.slice(0, 100)`) and the empty-state message are rendering only; a row carries the page and the two coordinates.
- HighlightList.Key: the comparator's fallbacks to 0 for a missing page or top are not modelled, because the record type requires both. For the same reason, the `"top" in rect` branch never applies to a stored `Scaled` rect.
- TipContainer.Layout: the measured width and height are parameters. The measuring effect and its re-measure on update are not modelled.
- Fresh ids (`crypto.randomUUID`, `Math.random`, `getNextId`) are parameters.
- QuoteDemo: `setTip` and `hideTip` are returned as a `TipRequest` rather than performed.
- Records.PositionPatch: a patch that sets a required position or content key to `undefined` is not representable.
- Overlap prevention is not implemented in `PdfHighlighter`, so there is nothing to model.
