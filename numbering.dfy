/** Heading levels from numbering conventions (`classify_heading_by_numbering`,
    main.py:119-139). */
module Numbering {
  import opened Text
  import opened Patterns
  import opened Blocks
  import opened Languages

  /** The Japanese branch: markers like 第3章, then `N.N`, then `N.N.N`. */
  function JapaneseNumbering(text: string): Option<Level> {
    if JapaneseSectionMarker(text) then Some(H1)
    else if TwoLevelNumber(text) then Some(H2)
    else if ThreeLevelNumber(text) then Some(H3)
    else None
  }

  /** The branch for every other language: `N.N.N`, `N.N`, then `N.` with a short line. */
  function WesternNumbering(text: string): Option<Level> {
    if ThreeLevelNumber(text) then Some(H3)
    else if TwoLevelNumber(text) then Some(H2)
    else if NumberDotNoDigit(text) && WordCount(text) < 10 then Some(H1)
    else None
  }

  function ClassifyHeadingByNumbering(text: string, lang: Language): (level: Option<Level>)
    ensures level != Some(H4)
    ensures lang == Ja ==> level != Some(H3)
  {
    NumberPatternsNested(text);
    var byNumber := if lang == Ja then JapaneseNumbering(text) else WesternNumbering(text);
    if byNumber.Some? then byNumber
    else if LetterDotSpace(text) then Some(H2)
    else None
  }

  /** Outside Japanese, the level is decided by the most specific numbering
      pattern: `N.N.N` gives H3, `N.N` gives H2, a short `N.` line gives H1, and
      otherwise `A. ` gives H2. Each level is characterised in both directions. */
  lemma WesternLevels(text: string, lang: Language)
    requires lang != Ja
    ensures ClassifyHeadingByNumbering(text, lang) == Some(H3) <==> ThreeLevelNumber(text)
    ensures ClassifyHeadingByNumbering(text, lang) == Some(H2) <==>
      (TwoLevelNumber(text) && !ThreeLevelNumber(text)) || LetterDotSpace(text)
    ensures ClassifyHeadingByNumbering(text, lang) == Some(H1) <==>
      NumberDotNoDigit(text) && WordCount(text) < 10
    ensures ClassifyHeadingByNumbering(text, lang) == None <==>
      !TwoLevelNumber(text) && !(NumberDotNoDigit(text) && WordCount(text) < 10) && !LetterDotSpace(text)
  {
    NumberPatternsNested(text);
    LetterIsNotNumber(text);
  }

  /** In Japanese `N.N` is tested before `N.N.N`, so H3 never comes out and a
      three-level number is an H2. */
  lemma JapaneseLevels(text: string)
    ensures ClassifyHeadingByNumbering(text, Ja) == Some(H1) <==> JapaneseSectionMarker(text)
    ensures ClassifyHeadingByNumbering(text, Ja) == Some(H2) <==>
      TwoLevelNumber(text) || LetterDotSpace(text)
    ensures ClassifyHeadingByNumbering(text, Ja) != Some(H3)
    ensures ThreeLevelNumber(text) ==> ClassifyHeadingByNumbering(text, Ja) == Some(H2)
  {
    NumberPatternsNested(text);
    LetterIsNotNumber(text);
    if JapaneseSectionMarker(text) {
      SectionMarkerIsNotNumber(text);
    }
  }

  /** A line starting with a capital letter matches no numeric pattern. */
  lemma LetterIsNotNumber(text: string)
    ensures LetterDotSpace(text) ==> !NumberDot(text) && !JapaneseSectionMarker(text)
  {
    if LetterDotSpace(text) {
      assert !IsDigit(text[0]);
    }
  }

  /** A Japanese section marker is never a two-level number. */
  lemma SectionMarkerIsNotNumber(text: string)
    requires JapaneseSectionMarker(text)
    ensures !TwoLevelNumber(text)
  {
    if |text| > 0 && text[0] == JapaneseOrdinal {
      assert !IsDigit(text[0]);
    } else {
      assert text[LeadingDigits(text)] != '.';
    }
  }

  /** The first line of a numbered outline is a chapter. */
  lemma ChapterLine()
    ensures ClassifyHeadingByNumbering("1. Introduction", En) == Some(H1)
  {
    var h := "1. Introduction";
    OneDigitThenDot(h);
    assert AfterNumberDot(h)[0] == ' ';
    assert !TwoLevelNumber(h) && !ThreeLevelNumber(h) && NumberDotNoDigit(h);
    WordCountBound(h);
    assert |h| == 15;
    assert WesternNumbering(h) == Some(H1);
  }

  /** Its second line is a section. */
  lemma SectionLine()
    ensures ClassifyHeadingByNumbering("1.1 Background", En) == Some(H2)
  {
    var h := "1.1 Background";
    OneDigitThenDot(h);
    var t := AfterNumberDot(h);
    assert t[0] == '1' && t[1] == ' ';
    assert t[1..][0] == ' ';
    assert LeadingDigits(t[1..]) == 0;
    assert LeadingDigits(t) == 1;
    assert !NumberDot(t);
    assert !ThreeLevelNumber(h) && TwoLevelNumber(h);
    assert WesternNumbering(h) == Some(H2);
  }

  /** Its third line is a subsection, except in Japanese, where it is a section. */
  lemma SubsectionLine()
    ensures ClassifyHeadingByNumbering("1.1.1 Details", En) == Some(H3)
    ensures ClassifyHeadingByNumbering("1.1.1 Details", Ja) == Some(H2)
  {
    var h := "1.1.1 Details";
    OneDigitThenDot(h);
    var t := AfterNumberDot(h);
    assert t[0] == '1' && t[1] == '.';
    OneDigitThenDot(t);
    assert AfterNumberDot(t)[0] == '1';
    JapaneseLevels(h);
  }
}
