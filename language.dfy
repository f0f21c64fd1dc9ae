/** Language sniffing (`detect_language`, main.py:23-40): a coarse guess from the
    text of the first page, used only to pick the numbering conventions. */
module Languages {
  import opened Text

  datatype Language = En | Ja | Es | Fr

  /** Hiragana, katakana and the CJK unified ideographs U+4E00..U+9FAF. */
  predicate IsJapaneseChar(c: char) {
    || ('\U{3040}' <= c <= '\U{309F}')
    || ('\U{30A0}' <= c <= '\U{30FF}')
    || ('\U{4E00}' <= c <= '\U{9FAF}')
  }

  /** ñ á é í ó ú ü */
  const SpanishMarks: string := ['\U{F1}', '\U{E1}', '\U{E9}', '\U{ED}', '\U{F3}', '\U{FA}', '\U{FC}']

  /** à â ä é è ê ë ï î ô ö ù û ü ÿ ç */
  const FrenchMarks: string :=
    ['\U{E0}', '\U{E2}', '\U{E4}', '\U{E9}', '\U{E8}', '\U{EA}', '\U{EB}', '\U{EF}',
     '\U{EE}', '\U{F4}', '\U{F6}', '\U{F9}', '\U{FB}', '\U{FC}', '\U{FF}', '\U{E7}']

  const EAcute: char := '\U{E9}'
  const UDiaeresis: char := '\U{FC}'

  /** Number of Japanese characters in `s` (`len(re.findall(...))`). */
  function JapaneseCount(s: string): (n: nat)
    ensures n <= |s|
  {
    if s == [] then 0
    else (if IsJapaneseChar(s[0]) then 1 else 0) + JapaneseCount(s[1..])
  }

  /** Number of characters of `s` that belong to `marks`. */
  function MarkCount(s: string, marks: string): (n: nat)
    ensures n > 0 <==> exists i :: 0 <= i < |s| && s[i] in marks
  {
    if s == [] then 0
    else
      var rest := MarkCount(s[1..], marks);
      assert forall i :: 0 < i < |s| ==> s[i] == s[1..][i - 1];
      (if s[0] in marks then 1 else 0) + rest
  }

  /** More than a tenth of the characters are Japanese (the float test
      `japanese_chars > len(text_sample) * 0.1`, cross-multiplied). */
  predicate JapaneseDominated(s: string) {
    10 * JapaneseCount(s) > |s|
  }

  /** The cross-multiplied test is the source's `japanese_chars >
      len(text_sample) * 0.1`, in exact arithmetic. */
  lemma JapaneseShareTest(s: string)
    ensures JapaneseDominated(s) <==> (JapaneseCount(s) as real) > (|s| as real) * 0.1
  {
    assert (10 * JapaneseCount(s)) as real == 10.0 * (JapaneseCount(s) as real);
    assert |s| as real == 10.0 * ((|s| as real) * 0.1);
  }

  /** Some character of `s`, lower-cased, is one of `marks`. */
  predicate HasMark(s: string, marks: string) {
    exists i :: 0 <= i < |s| && LowerChar(s[i]) in marks
  }

  function DetectLanguage(sample: string): (lang: Language)
    ensures sample == [] ==> lang == En
    ensures lang == Ja <==> JapaneseDominated(sample)
    ensures lang == Es <==> !JapaneseDominated(sample) && HasMark(sample, SpanishMarks)
    ensures lang == Fr <==>
      !JapaneseDominated(sample) && !HasMark(sample, SpanishMarks) && HasMark(sample, FrenchMarks)
    ensures lang == En <==>
      !JapaneseDominated(sample) && !HasMark(sample, SpanishMarks) && !HasMark(sample, FrenchMarks)
  {
    var lower := Lower(sample);
    assert forall i :: 0 <= i < |sample| ==> lower[i] == LowerChar(sample[i]);
    assert MarkCount(lower, SpanishMarks) > 0 <==> HasMark(sample, SpanishMarks);
    assert MarkCount(lower, FrenchMarks) > 0 <==> HasMark(sample, FrenchMarks);
    if sample == [] then En
    else if JapaneseDominated(sample) then Ja
    else if MarkCount(lower, SpanishMarks) > 0 then Es
    else if MarkCount(lower, FrenchMarks) > 0 then Fr
    else En
  }

  /** é and ü are in both diacritic sets, so a text carrying either of them is
      never taken for French: Spanish is tested first. */
  lemma SharedMarksMeanSpanish(sample: string, i: nat)
    requires i < |sample| && (LowerChar(sample[i]) == EAcute || LowerChar(sample[i]) == UDiaeresis)
    ensures DetectLanguage(sample) != Fr
    ensures !JapaneseDominated(sample) ==> DetectLanguage(sample) == Es
  {
    assert LowerChar(sample[i]) in SpanishMarks;
  }
}
