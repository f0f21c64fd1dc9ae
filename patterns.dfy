/** The regular expressions of the heading heuristics, each written as a predicate
    on the string it is matched against with `re.match` (so anchored at the start).
    Each predicate is named after what the pattern recognises and its doc comment
    gives the pattern. Backtracking is resolved by hand: because a dot, a space or a
    classifier character is never a digit, a greedy `\d+` or `\s*` can only succeed
    with its maximal run, which is what `LeadingDigits` and `LeadingSpaces` measure.
    The lemmas at the end check this against the existential reading of the
    patterns (some split of the string fits the pieces). */
module Patterns {
  import opened Text

  predicate StartsWithDigit(s: string) {
    |s| > 0 && IsDigit(s[0])
  }

  /** `^\d+\.` */
  predicate NumberDot(s: string) {
    var k := LeadingDigits(s);
    0 < k < |s| && s[k] == '.'
  }

  /** What follows the match of `^\d+\.`. */
  function AfterNumberDot(s: string): (r: string)
    requires NumberDot(s)
    ensures |r| < |s|
  {
    s[LeadingDigits(s) + 1..]
  }

  /** A single digit and a dot: the common case of a numbered line. */
  lemma OneDigitThenDot(s: string)
    requires |s| >= 2 && IsDigit(s[0]) && s[1] == '.'
    ensures LeadingDigits(s) == 1 && NumberDot(s) && AfterNumberDot(s) == s[2..]
  {
    assert s[1..][0] == '.';
  }

  /** `^\d+\.\d+` */
  predicate TwoLevelNumber(s: string) {
    NumberDot(s) && StartsWithDigit(AfterNumberDot(s))
  }

  /** `^\d+\.\d+\.\d+` */
  predicate ThreeLevelNumber(s: string) {
    NumberDot(s) && TwoLevelNumber(AfterNumberDot(s))
  }

  /** `^\d+\.(?!\d)`: a number and a dot not followed by a digit. */
  predicate NumberDotNoDigit(s: string) {
    NumberDot(s) && !StartsWithDigit(AfterNumberDot(s))
  }

  /** The chapter, section, article, clause and item characters 章節条項目. */
  const JapaneseClassifiers: string := ['\U{7AE0}', '\U{7BC0}', '\U{6761}', '\U{9805}', '\U{76EE}']

  /** The ordinal prefix 第. */
  const JapaneseOrdinal: char := '\U{7B2C}'

  /** `^第?\d+[章節条項目]` */
  predicate JapaneseSectionMarker(s: string) {
    var t := if |s| > 0 && s[0] == JapaneseOrdinal then s[1..] else s;
    var k := LeadingDigits(t);
    0 < k < |t| && t[k] in JapaneseClassifiers
  }

  /** `^[A-Z]\.\s` */
  predicate LetterDotSpace(s: string) {
    |s| >= 3 && 'A' <= s[0] <= 'Z' && s[1] == '.' && IsSpace(s[2])
  }

  /** `^\d+\.?\s*$`: nothing but a number, possibly with a dot. */
  predicate BareNumberEnumerator(s: string) {
    var k := LeadingDigits(s);
    k > 0 && (AllSpace(s[k..]) || (k < |s| && s[k] == '.' && AllSpace(s[k + 1..])))
  }

  /** `^[a-zA-Z]\)\s*$`: nothing but a letter and a closing parenthesis. */
  predicate BareLetterEnumerator(s: string) {
    |s| >= 2 && IsAsciiLetter(s[0]) && s[1] == ')' && AllSpace(s[2..])
  }

  /** `.{1,30}$` matches all of `t`: 1 to 30 characters other than a newline,
      optionally followed by one final newline (where `$` also matches). */
  predicate ShortTail(t: string) {
    || (1 <= |t| <= 30 && '\n' !in t)
    || (2 <= |t| <= 31 && t[|t| - 1] == '\n' && '\n' !in t[..|t| - 1])
  }

  /** `\s*` matches `s[p..j]` and `.{1,30}$` matches the rest. */
  predicate ShortTailAt(s: string, p: nat, j: int) {
    p <= j <= |s| && AllSpace(s[p..j]) && ShortTail(s[j..])
  }

  /** `^\d+\.\s*.{1,30}$`: a numbered line with a short text. */
  predicate NumberedShortLine(s: string) {
    NumberDot(s) &&
    var p := LeadingDigits(s) + 1;
    exists j :: p <= j <= |s| && ShortTailAt(s, p, j)
  }

  /** `\s*\d` at the start of `t`. */
  predicate SpacesThenDigit(t: string) {
    StartsWithDigit(t[LeadingSpaces(t)..])
  }

  /** `^S\.?No\.?`, ignoring case. */
  predicate SerialNumberMarker(s: string) {
    FoldAt(s, 0, "s") && (FoldAt(s, 1, "no") || (FoldAt(s, 1, ".") && FoldAt(s, 2, "no")))
  }

  /** `^Sr\.?No\.?`, ignoring case. */
  predicate SrNumberMarker(s: string) {
    FoldAt(s, 0, "sr") && (FoldAt(s, 2, "no") || (FoldAt(s, 2, ".") && FoldAt(s, 3, "no")))
  }

  /** `^Page\s+\d+`, ignoring case. */
  predicate PageCaption(s: string) {
    FoldAt(s, 0, "page") &&
    var w := LeadingSpaces(s[4..]);
    w > 0 && StartsWithDigit(s[4 + w..])
  }

  /** `^Fig(\.|ure)?\s*\d+`, ignoring case. */
  predicate FigureCaption(s: string) {
    FoldAt(s, 0, "fig") &&
    (|| SpacesThenDigit(s[3..])
     || (FoldAt(s, 3, ".") && SpacesThenDigit(s[4..]))
     || (FoldAt(s, 3, "ure") && SpacesThenDigit(s[6..])))
  }

  /** `^Table\s*\d+`, ignoring case. */
  predicate TableCaption(s: string) {
    FoldAt(s, 0, "table") && SpacesThenDigit(s[5..])
  }

  /** `^\d+\s*$` */
  predicate BareNumber(s: string) {
    var k := LeadingDigits(s);
    k > 0 && AllSpace(s[k..])
  }

  /** `^[A-Za-z]\s*$` */
  predicate SingleLetter(s: string) {
    |s| > 0 && IsAsciiLetter(s[0]) && AllSpace(s[1..])
  }

  /** `www\.` applied with `re.match`, so only at the start; ignoring case. */
  predicate WebAddressStart(s: string) {
    FoldAt(s, 0, "www.")
  }

  /** `@` applied with `re.match`, so only at the start. */
  predicate AtSignStart(s: string) {
    |s| > 0 && s[0] == '@'
  }

  /** Some junk pattern of the heading filter matches at the start of `s`. */
  predicate IsJunk(s: string) {
    || SerialNumberMarker(s) || SrNumberMarker(s) || PageCaption(s)
    || FigureCaption(s) || TableCaption(s) || BareNumber(s)
    || SingleLetter(s) || WebAddressStart(s) || AtSignStart(s)
  }

  // ----- The existential reading of the numeric patterns -----

  /** `s[a..i]` is a non-empty run of digits and `s[i]` a dot: one way for
      `\d+\.` to match starting at `a`. */
  predicate DigitsThenDot(s: string, a: int, i: int) {
    0 <= a < i < |s| && (forall j :: a <= j < i ==> IsDigit(s[j])) && s[i] == '.'
  }

  /** `\d+\.` can match from `a` in exactly one way: the maximal digit run. */
  lemma DigitsThenDotUnique(s: string, a: nat, i: int)
    requires a <= |s|
    ensures DigitsThenDot(s, a, i) <==> NumberDot(s[a..]) && i == a + LeadingDigits(s[a..])
  {
    var k := LeadingDigits(s[a..]);
    LeadingDigitsRun(s[a..]);
    if DigitsThenDot(s, a, i) {
      assert forall j :: 0 <= j < |s| - a ==> s[a..][j] == s[a + j];
    }
  }

  lemma NumberDotMatches(s: string)
    ensures NumberDot(s) <==> exists i :: DigitsThenDot(s, 0, i)
  {
    assert s[0..] == s;
    if NumberDot(s) {
      DigitsThenDotUnique(s, 0, LeadingDigits(s));
    }
    if exists i :: DigitsThenDot(s, 0, i) {
      var i :| DigitsThenDot(s, 0, i);
      DigitsThenDotUnique(s, 0, i);
    }
  }

  /** `^\d+\.\d+` read as: a digit run, a dot, a digit. */
  lemma TwoLevelNumberMatches(s: string)
    ensures TwoLevelNumber(s) <==>
      exists i :: DigitsThenDot(s, 0, i) && i + 1 < |s| && IsDigit(s[i + 1])
  {
    assert s[0..] == s;
    if TwoLevelNumber(s) {
      DigitsThenDotUnique(s, 0, LeadingDigits(s));
      assert AfterNumberDot(s)[0] == s[LeadingDigits(s) + 1];
    }
    if exists i :: DigitsThenDot(s, 0, i) && i + 1 < |s| && IsDigit(s[i + 1]) {
      var i :| DigitsThenDot(s, 0, i) && i + 1 < |s| && IsDigit(s[i + 1]);
      DigitsThenDotUnique(s, 0, i);
      assert AfterNumberDot(s)[0] == s[i + 1];
    }
  }

  /** `s` splits as a digit run, a dot at `i`, a digit run, a dot at `j`, a digit. */
  predicate ThreeLevelSplit(s: string, i: int, j: int) {
    DigitsThenDot(s, 0, i) && DigitsThenDot(s, i + 1, j) && j + 1 < |s| && IsDigit(s[j + 1])
  }

  /** `^\d+\.\d+\.\d+` read as: a digit run, a dot, a digit run, a dot, a digit. */
  lemma ThreeLevelNumberMatches(s: string)
    ensures ThreeLevelNumber(s) <==> exists i, j :: ThreeLevelSplit(s, i, j)
  {
    if ThreeLevelNumber(s) {
      ThreeLevelNumberHasSplit(s);
    }
    if exists i, j :: ThreeLevelSplit(s, i, j) {
      var i, j :| ThreeLevelSplit(s, i, j);
      SplitIsThreeLevelNumber(s, i, j);
    }
  }

  lemma ThreeLevelNumberHasSplit(s: string)
    requires ThreeLevelNumber(s)
    ensures exists i, j :: ThreeLevelSplit(s, i, j)
  {
    assert s[0..] == s;
    var i := LeadingDigits(s);
    DigitsThenDotUnique(s, 0, i);
    var t := AfterNumberDot(s);
    assert t == s[i + 1..];
    var j := i + 1 + LeadingDigits(t);
    DigitsThenDotUnique(s, i + 1, j);
    assert AfterNumberDot(t) == s[j + 1..];
    assert ThreeLevelSplit(s, i, j);
  }

  lemma SplitIsThreeLevelNumber(s: string, i: int, j: int)
    requires ThreeLevelSplit(s, i, j)
    ensures ThreeLevelNumber(s)
  {
    assert s[0..] == s;
    DigitsThenDotUnique(s, 0, i);
    DigitsThenDotUnique(s, i + 1, j);
    var t := AfterNumberDot(s);
    assert t == s[i + 1..];
    assert AfterNumberDot(t) == s[j + 1..];
  }

  /** `\s*\d` read as: some run of spaces, then a digit. */
  lemma SpacesThenDigitMatches(t: string)
    ensures SpacesThenDigit(t) <==> exists j :: 0 <= j < |t| && AllSpace(t[..j]) && IsDigit(t[j])
  {
    var w := LeadingSpaces(t);
    LeadingSpacesRun(t);
    if SpacesThenDigit(t) {
      assert t[w..][0] == t[w];
    }
    if exists j :: 0 <= j < |t| && AllSpace(t[..j]) && IsDigit(t[j]) {
      var j :| 0 <= j < |t| && AllSpace(t[..j]) && IsDigit(t[j]);
      assert forall m :: 0 <= m < w ==> t[..w][m] == t[m];
      assert forall m :: 0 <= m < j ==> t[..j][m] == t[m];
      assert t[w..][0] == t[w];
    }
  }

  /** The numbering patterns are nested: a three-level number is a two-level one,
      a two-level number is a numbered dot, and `\d+\.(?!\d)` excludes two levels. */
  lemma NumberPatternsNested(s: string)
    ensures ThreeLevelNumber(s) ==> TwoLevelNumber(s)
    ensures TwoLevelNumber(s) ==> NumberDot(s)
    ensures NumberDotNoDigit(s) ==> !TwoLevelNumber(s)
  {
    if ThreeLevelNumber(s) {
      var t := AfterNumberDot(s);
      assert t[0] == t[..LeadingDigits(t)][0];
    }
  }
}
