/** The constants of the heuristics (class `Config` and the literals of the
    functions that use them). Fractions are kept as numerator and denominator so
    that every threshold is compared exactly. */
module Config {
  /** `HEADING_SIZE_FACTOR = 1.15`, as 115/100. */
  const HeadingSizeFactorNum: int := 115
  const HeadingSizeFactorDen: int := 100

  /** `VERTICAL_MARGIN = 0.08`: header and footer bands, as a fraction of the page height. */
  const VerticalMargin: real := 0.08

  const MinHeadingChars: nat := 2
  const MaxHeadingWords: nat := 20

  /** Body size reported when no block has text. */
  const DefaultBodySize: int := 12

  /** Font sizes strictly between these bounds are candidates for body text. */
  const BodySizeLow: int := 8
  const BodySizeHigh: int := 20

  /** Number of font sizes that receive a size-based level. */
  const MaxSizeLevels: nat := 4

  /** Vertical tolerances of the row filter and of the assembler, in page units. */
  const SameRowTolerance: real := 10.0
  const NearbyTolerance: real := 50.0
  const SurroundingTolerance: real := 100.0

  const UntitledTitle: string := "Untitled Document"
  const NoTextTitle: string := "Document with no extractable text"
}
