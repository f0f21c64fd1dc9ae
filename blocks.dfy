/** The records the heuristics work on: an extracted text line ("block"), a
    heading level and an outline entry. */
module Blocks {

  datatype Option<T> = None | Some(value: T)

  /** A line's bounding box `(x0, y0, x1, y1)` in page coordinates; `y0` is its top. */
  datatype BBox = BBox(x0: real, y0: real, x1: real, y1: real)

  /** One extracted line of text, as produced by the PDF reader: its text, its
      font size rounded to an integer, whether its font name says bold, its box,
      its 1-based page, and its top and left edges relative to the page size. */
  datatype Block = Block(
    text: string,
    fontSize: int,
    isBold: bool,
    bbox: BBox,
    page: nat,
    yRel: real,
    xRel: real)

  datatype Level = H1 | H2 | H3 | H4

  /** The digit of the level's name: H1 is the most significant. */
  function LevelNumber(l: Level): (n: nat)
    ensures 1 <= n <= 4
  {
    match l
    case H1 => 1
    case H2 => 2
    case H3 => 3
    case H4 => 4
  }

  /** One outline item `{"level", "text", "page"}`. */
  datatype Entry = Entry(level: Level, text: string, page: nat)

  function Abs(x: real): (r: real)
    ensures r >= 0.0 && (r == x || r == -x)
  {
    if x < 0.0 then -x else x
  }

  /** Vertical distance between the tops of two blocks. */
  function TopDistance(a: Block, b: Block): real {
    Abs(a.bbox.y0 - b.bbox.y0)
  }

  /** With a positive factor, a product has the sign of the other factor. */
  lemma SignOfProduct(a: real, t: real)
    requires t > 0.0
    ensures a > 0.0 <==> a * t > 0.0
  {
    if a > 0.0 {
      assert a * t > 0.0 * t;
    } else {
      assert a * t <= 0.0 * t;
    }
  }
}
