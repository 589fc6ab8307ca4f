/** The records the annotator keeps: rectangles in page reference space (`Scaled`),
    rectangles in viewport pixels (`LTWHP`), positions built from them, and the
    persisted highlight record (`IHighlight`). */
module Types {

  datatype Option<+T> = None | Some(value: T) {
    function GetOr(default: T): T {
      if Some? then value else default
    }
  }

  /** A rectangle in a page's reference space: the two corners plus the reference
      viewport size at capture time, and the page it lies on when it says so. */
  datatype Scaled = Scaled(
    x1: real, y1: real,
    x2: real, y2: real,
    width: real, height: real,
    pageNumber: Option<int>)

  /** The persisted position of a highlight. `usePdfCoordinates` is an optional key. */
  datatype ScaledPosition = ScaledPosition(
    boundingRect: Scaled,
    rects: seq<Scaled>,
    pageNumber: int,
    usePdfCoordinates: Option<bool>)

  /** A rectangle in viewport pixels (`LTWHP`). */
  datatype Rect = Rect(left: real, top: real, width: real, height: real, pageNumber: Option<int>)

  /** A position in viewport pixels. */
  datatype Position = Position(boundingRect: Rect, rects: seq<Rect>, pageNumber: int)

  datatype Content = Content(text: Option<string>, image: Option<string>)

  type Meta = map<string, string>

  /** A committed highlight record (`IHighlight`). */
  datatype Highlight = Highlight(
    id: string,
    position: ScaledPosition,
    content: Content,
    comment: Option<string>,
    meta: Option<Meta>)

  /** JavaScript truthiness of an optional page number: present and not 0. */
  predicate IsTruthyPage(pageNumber: Option<int>) {
    pageNumber.Some? && pageNumber.value != 0
  }

  /** JavaScript truthiness of an optional string: present and not empty. */
  predicate IsTruthyString(s: Option<string>) {
    s.Some? && s.value != ""
  }
}
