/** The two per-block filters: the table-row / list filter (`is_table_subpoint`,
    main.py:94-117) and the heading rejection rules (`is_plausible_heading`,
    main.py:141-172). `surrounding` is the context the assembler passes in; it
    holds the block itself. */
module Filters {
  import opened Text
  import opened Patterns
  import opened Blocks
  import Config

  /** Another block whose top is within 10 units (`y_tolerance`). */
  predicate InSameRow(b: Block, other: Block) {
    TopDistance(other, b) < Config.SameRowTolerance
  }

  /** A block within 50 units whose raw text starts with `\d+\.`. */
  predicate IsNearbyNumbered(b: Block, other: Block) {
    TopDistance(other, b) < Config.NearbyTolerance && NumberDot(other.text)
  }

  /** `same_row_blocks` after the first loop over `surrounding`. */
  function SameRowBlocks(b: Block, surrounding: seq<Block>): (r: seq<Block>)
    ensures |r| <= |surrounding|
  {
    if surrounding == [] then []
    else
      var last := surrounding[|surrounding| - 1];
      var rest := SameRowBlocks(b, surrounding[..|surrounding| - 1]);
      rest + (if InSameRow(b, last) then [last] else [])
  }

  /** The row holds exactly the surrounding blocks within the row tolerance. */
  lemma {:induction false} SameRowMembers(b: Block, surrounding: seq<Block>)
    ensures forall x :: x in SameRowBlocks(b, surrounding) <==> x in surrounding && InSameRow(b, x)
  {
    if surrounding != [] {
      var p := surrounding[..|surrounding| - 1];
      SameRowMembers(b, p);
      assert surrounding == p + [surrounding[|surrounding| - 1]];
    }
  }

  /** `nearby_numbered` after the second loop over `surrounding`. */
  function NearbyNumberedCount(b: Block, surrounding: seq<Block>): (n: nat)
    ensures n <= |surrounding|
  {
    if surrounding == [] then 0
    else
      NearbyNumberedCount(b, surrounding[..|surrounding| - 1])
      + (if IsNearbyNumbered(b, surrounding[|surrounding| - 1]) then 1 else 0)
  }

  /** The stripped text is only an enumerator: `^\d+\.?\s*$` or `^[a-zA-Z]\)\s*$`. */
  predicate IsBareEnumerator(text: string) {
    var t := Strip(text);
    BareNumberEnumerator(t) || BareLetterEnumerator(t)
  }

  /** `is_table_subpoint`: a table row, a bare enumerator, or a numbered list. */
  predicate IsTableSubpoint(b: Block, surrounding: seq<Block>) {
    || |SameRowBlocks(b, surrounding)| >= 3
    || IsBareEnumerator(b.text)
    || NearbyNumberedCount(b, surrounding) >= 3
  }

  /** The first loop of `is_table_subpoint`: the blocks in `b`'s row. */
  method CollectSameRow(b: Block, surrounding: seq<Block>) returns (sameRow: seq<Block>)
    ensures sameRow == SameRowBlocks(b, surrounding)
  {
    sameRow := [];
    var i := 0;
    while i < |surrounding|
      invariant 0 <= i <= |surrounding|
      invariant sameRow == SameRowBlocks(b, surrounding[..i])
    {
      var other := surrounding[i];
      assert surrounding[..i + 1][..i] == surrounding[..i];
      if Abs(other.bbox.y0 - b.bbox.y0) < Config.SameRowTolerance {
        sameRow := sameRow + [other];
      }
      i := i + 1;
    }
    assert surrounding[..|surrounding|] == surrounding;
  }

  /** The second loop of `is_table_subpoint`: numbered lines nearby. */
  method CountNearbyNumbered(b: Block, surrounding: seq<Block>) returns (nearbyNumbered: nat)
    ensures nearbyNumbered == NearbyNumberedCount(b, surrounding)
  {
    nearbyNumbered := 0;
    var i := 0;
    while i < |surrounding|
      invariant 0 <= i <= |surrounding|
      invariant nearbyNumbered == NearbyNumberedCount(b, surrounding[..i])
    {
      var other := surrounding[i];
      assert surrounding[..i + 1][..i] == surrounding[..i];
      if Abs(other.bbox.y0 - b.bbox.y0) < Config.NearbyTolerance {
        if NumberDot(other.text) {
          nearbyNumbered := nearbyNumbered + 1;
        }
      }
      i := i + 1;
    }
    assert surrounding[..|surrounding|] == surrounding;
  }

  /** `is_table_subpoint`, with its early returns. */
  method TableSubpoint(b: Block, surrounding: seq<Block>) returns (r: bool)
    ensures r == IsTableSubpoint(b, surrounding)
  {
    var text := Strip(b.text);
    var sameRow := CollectSameRow(b, surrounding);
    if |sameRow| >= 3 {
      return true;
    }
    if BareNumberEnumerator(text) || BareLetterEnumerator(text) {
      return true;
    }
    var nearbyNumbered := CountNearbyNumbered(b, surrounding);
    return nearbyNumbered >= 3;
  }

  lemma {:induction false} SameRowBlocksAppend(b: Block, xs: seq<Block>, ys: seq<Block>)
    ensures SameRowBlocks(b, xs + ys) == SameRowBlocks(b, xs) + SameRowBlocks(b, ys)
    decreases |ys|
  {
    if ys == [] {
      assert xs + ys == xs;
    } else {
      assert (xs + ys)[..|xs + ys| - 1] == xs + ys[..|ys| - 1];
      SameRowBlocksAppend(b, xs, ys[..|ys| - 1]);
    }
  }

  lemma {:induction false} NearbyNumberedCountAppend(b: Block, xs: seq<Block>, ys: seq<Block>)
    ensures NearbyNumberedCount(b, xs + ys) == NearbyNumberedCount(b, xs) + NearbyNumberedCount(b, ys)
    decreases |ys|
  {
    if ys == [] {
      assert xs + ys == xs;
    } else {
      assert (xs + ys)[..|xs + ys| - 1] == xs + ys[..|ys| - 1];
      NearbyNumberedCountAppend(b, xs, ys[..|ys| - 1]);
    }
  }

  /** Inserting blocks anywhere into the surrounding set never turns a table
      sub-point into a non-table one: both counts can only grow. */
  lemma TableSubpointMonotone(b: Block, before: seq<Block>, added: seq<Block>, after: seq<Block>)
    requires IsTableSubpoint(b, before + after)
    ensures IsTableSubpoint(b, before + added + after)
  {
    SameRowBlocksAppend(b, before, after);
    SameRowBlocksAppend(b, before + added, after);
    SameRowBlocksAppend(b, before, added);
    NearbyNumberedCountAppend(b, before, after);
    NearbyNumberedCountAppend(b, before + added, after);
    NearbyNumberedCountAppend(b, before, added);
  }

  /** The block itself lies in its own row, so it counts towards the three
      blocks that make a table row: two others suffice. */
  lemma {:induction false} OwnRowIncludesSelf(b: Block, surrounding: seq<Block>)
    requires b in surrounding
    ensures b in SameRowBlocks(b, surrounding)
  {
    var k :| 0 <= k < |surrounding| && surrounding[k] == b;
    var xs, ys := surrounding[..k], surrounding[k..];
    assert surrounding == xs + ys;
    SameRowBlocksAppend(b, xs, ys);
    assert ys == [b] + ys[1..];
    SameRowBlocksAppend(b, [b], ys[1..]);
    assert SameRowBlocks(b, [b]) == SameRowBlocks(b, []) + [b];
  }

  /** `text.endswith(c)` */
  predicate EndsWith(text: string, c: char) {
    |text| > 0 && text[|text| - 1] == c
  }

  /** `is_plausible_heading`: the rejection rules, in the source's order. */
  predicate IsPlausibleHeading(b: Block, bodySize: int, surrounding: seq<Block>) {
    var text := Strip(b.text);
    var wordCount := WordCount(text);
    if IsTableSubpoint(b, surrounding) then false
    else if IsJunk(text) then false
    else if !(1 <= wordCount <= Config.MaxHeadingWords) then false
    else if |text| < Config.MinHeadingChars then false
    else if EndsWith(text, ',') || EndsWith(text, ';') || (EndsWith(text, '.') && wordCount > 8) then false
    else if b.fontSize <= bodySize && !b.isBold then false
    else if IsUpper(text) && wordCount > 5 then false
    else true
  }

  /** A plausible heading passes every rule. */
  lemma PlausibleHeadingSound(b: Block, bodySize: int, surrounding: seq<Block>)
    requires IsPlausibleHeading(b, bodySize, surrounding)
    ensures !IsTableSubpoint(b, surrounding)
    ensures var text := Strip(b.text);
      && !IsJunk(text)
      && 1 <= WordCount(text) <= Config.MaxHeadingWords
      && |text| >= Config.MinHeadingChars
      && !EndsWith(text, ',') && !EndsWith(text, ';')
      && !(EndsWith(text, '.') && WordCount(text) > 8)
      && (b.fontSize > bodySize || b.isBold)
      && !(IsUpper(text) && WordCount(text) > 5)
  {
  }

  /** The rules are all the source checks: a block passing every one of them is
      a plausible heading. */
  lemma PlausibleHeadingComplete(b: Block, bodySize: int, surrounding: seq<Block>)
    requires !IsTableSubpoint(b, surrounding)
    requires var text := Strip(b.text);
      && !IsJunk(text)
      && 1 <= WordCount(text) <= Config.MaxHeadingWords
      && |text| >= Config.MinHeadingChars
      && !EndsWith(text, ',') && !EndsWith(text, ';')
      && !(EndsWith(text, '.') && WordCount(text) > 8)
      && (b.fontSize > bodySize || b.isBold)
      && !(IsUpper(text) && WordCount(text) > 5)
    ensures IsPlausibleHeading(b, bodySize, surrounding)
  {
  }

  /** A shouted line (upper case, more than five words) is never a heading, however
      large or bold its font. */
  lemma ShoutedLineRejected(b: Block, bodySize: int, surrounding: seq<Block>)
    requires IsUpper(Strip(b.text)) && WordCount(Strip(b.text)) > 5
    ensures !IsPlausibleHeading(b, bodySize, surrounding)
  {
  }

  /** More context can only reject more blocks. */
  lemma PlausibleHeadingAntitone(b: Block, bodySize: int, before: seq<Block>, added: seq<Block>, after: seq<Block>)
    requires IsPlausibleHeading(b, bodySize, before + added + after)
    ensures IsPlausibleHeading(b, bodySize, before + after)
  {
    if IsTableSubpoint(b, before + after) {
      TableSubpointMonotone(b, before, added, after);
    }
  }

  /** A larger body size can only reject more blocks. */
  lemma PlausibleHeadingBodySize(b: Block, smaller: int, larger: int, surrounding: seq<Block>)
    requires smaller <= larger
    requires IsPlausibleHeading(b, larger, surrounding)
    ensures IsPlausibleHeading(b, smaller, surrounding)
  {
  }

  /** A plausible heading has at least one word, so text that is blank after
      stripping never passes. */
  lemma PlausibleHeadingHasText(b: Block, bodySize: int, surrounding: seq<Block>)
    requires IsPlausibleHeading(b, bodySize, surrounding)
    ensures Strip(b.text) != [] && b.text != []
  {
  }
}
