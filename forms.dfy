/** Form detection (`is_form_like_document`, main.py:174-196): a document whose
    first page is mostly labels, bare numbers and short numbered lines is taken
    for a form and gets no outline. */
module Forms {
  import opened Text
  import opened Patterns
  import opened Blocks

  /** The blocks of page 1, in document order. */
  function FirstPageBlocks(blocks: seq<Block>): (r: seq<Block>)
    ensures |r| <= |blocks|
    ensures forall b :: b in r <==> b in blocks && b.page == 1
  {
    if blocks == [] then []
    else (if blocks[0].page == 1 then [blocks[0]] else []) + FirstPageBlocks(blocks[1..])
  }

  /** The filter keeps the order of the blocks: it distributes over `+`. */
  lemma {:induction false} FirstPageBlocksAppend(a: seq<Block>, c: seq<Block>)
    ensures FirstPageBlocks(a + c) == FirstPageBlocks(a) + FirstPageBlocks(c)
    decreases |a|
  {
    if a == [] {
      assert a + c == c;
    } else {
      assert (a + c)[0] == a[0] && (a + c)[1..] == a[1..] + c;
      FirstPageBlocksAppend(a[1..], c);
    }
  }

  /** Each first-page block is kept as often as it occurs, any other dropped. */
  lemma {:induction false} FirstPageBlocksCount(blocks: seq<Block>)
    ensures forall b ::
      multiset(FirstPageBlocks(blocks))[b] == if b.page == 1 then multiset(blocks)[b] else 0
  {
    if blocks != [] {
      FirstPageBlocksCount(blocks[1..]);
      assert blocks == [blocks[0]] + blocks[1..];
    }
  }

  /** A title line of the kind "Application form for ...". */
  predicate MentionsApplicationForm(t: string) {
    Contains(Lower(t), "application") && Contains(Lower(t), "form")
  }

  /** A label such as "Name:" — at most three words and a colon. */
  predicate IsLabel(t: string) {
    WordCount(t) <= 3 && ':' in t
  }

  /** The weight one line adds to `form_indicators`: the first matching rule wins. */
  function FormIndicator(text: string): (n: nat)
    ensures n == 0 || n == 1 || n == 3
  {
    var t := Strip(text);
    if BareNumberEnumerator(t) then 1
    else if MentionsApplicationForm(t) then 3
    else if NumberedShortLine(t) then 1
    else if IsLabel(t) then 1
    else 0
  }

  /** `form_indicators` over a prefix of the first-page lines. */
  function FormIndicatorTotal(lines: seq<Block>): (n: nat)
    ensures n <= 3 * |lines|
  {
    if lines == [] then 0
    else FormIndicatorTotal(lines[..|lines| - 1]) + FormIndicator(lines[|lines| - 1].text)
  }

  /** The indicator ratio exceeds 0.4 (`form_indicators / total_lines > 0.4`,
      cross-multiplied); no first-page line means no form. */
  predicate IsFormLike(blocks: seq<Block>) {
    var lines := FirstPageBlocks(blocks);
    |lines| > 0 && 5 * FormIndicatorTotal(lines) > 2 * |lines|
  }

  /** The counting loop of `is_form_like_document`. */
  method CountFormIndicators(lines: seq<Block>) returns (formIndicators: nat)
    ensures formIndicators == FormIndicatorTotal(lines)
  {
    formIndicators := 0;
    var i := 0;
    while i < |lines|
      invariant 0 <= i <= |lines|
      invariant formIndicators == FormIndicatorTotal(lines[..i])
    {
      assert lines[..i + 1][..i] == lines[..i];
      formIndicators := formIndicators + FormIndicator(lines[i].text);
      i := i + 1;
    }
    assert lines[..|lines|] == lines;
  }

  method IsFormLikeDocument(blocks: seq<Block>) returns (r: bool)
    ensures r == IsFormLike(blocks)
  {
    var lines := FirstPageBlocks(blocks);
    var totalLines := |lines|;
    if totalLines == 0 {
      return false;
    }
    var formIndicators := CountFormIndicators(lines);
    r := 5 * formIndicators > 2 * totalLines;
  }

  /** The float ratio test and its cross-multiplied form agree. */
  lemma RatioTest(ind: nat, total: nat)
    requires total > 0
    ensures (ind as real) / (total as real) > 0.4 <==> 5 * ind > 2 * total
  {
    var t := total as real;
    var q := (ind as real) / t;
    assert q * t == ind as real;
    assert (q - 0.4) * t == (ind as real) - 0.4 * t;
    SignOfProduct(q - 0.4, t);
    assert (5 * ind) as real == 5.0 * (ind as real);
    assert (2 * total) as real == 2.0 * t;
  }

  /** The form test is the source's float ratio test, `form_indicators /
      total_lines > 0.4`, computed exactly. */
  lemma FormLikeIsRatioTest(blocks: seq<Block>)
    ensures IsFormLike(blocks) <==> var lines := FirstPageBlocks(blocks);
      |lines| > 0 && (FormIndicatorTotal(lines) as real) / (|lines| as real) > 0.4
  {
    var lines := FirstPageBlocks(blocks);
    if |lines| > 0 {
      RatioTest(FormIndicatorTotal(lines), |lines|);
    }
  }

  /** The lines that trigger some indicator rule. */
  function IndicatorLineCount(lines: seq<Block>): (n: nat)
    ensures n <= |lines|
  {
    if lines == [] then 0
    else IndicatorLineCount(lines[..|lines| - 1]) + (if FormIndicator(lines[|lines| - 1].text) > 0 then 1 else 0)
  }

  /** Every triggering line adds at least one to the total. */
  lemma {:induction false} TotalCountsIndicatorLines(lines: seq<Block>)
    ensures FormIndicatorTotal(lines) >= IndicatorLineCount(lines)
  {
    if lines != [] {
      TotalCountsIndicatorLines(lines[..|lines| - 1]);
    }
  }

  /** When more than 40% of the first-page lines are labels, bare numbers or short
      numbered lines, the document is a form. */
  lemma MostlyIndicatorsIsForm(blocks: seq<Block>)
    requires var lines := FirstPageBlocks(blocks);
      5 * IndicatorLineCount(lines) > 2 * |lines|
    ensures IsFormLike(blocks)
  {
    TotalCountsIndicatorLines(FirstPageBlocks(blocks));
  }

  /** Without a first-page line that triggers a rule the document is never a form. */
  lemma {:induction false} NoIndicatorsNoForm(lines: seq<Block>)
    requires forall k :: 0 <= k < |lines| ==> FormIndicator(lines[k].text) == 0
    ensures FormIndicatorTotal(lines) == 0
  {
    if lines != [] {
      var p := lines[..|lines| - 1];
      assert forall k :: 0 <= k < |p| ==> p[k] == lines[k];
      NoIndicatorsNoForm(p);
    }
  }

  /** An "application form" line weighs three, so on a first page of at most
      seven lines it makes the document a form on its own. */
  lemma {:induction false} ApplicationFormLineWeight(lines: seq<Block>, k: nat)
    requires k < |lines|
    ensures FormIndicatorTotal(lines) >= FormIndicator(lines[k].text)
  {
    var p := lines[..|lines| - 1];
    if k < |lines| - 1 {
      assert p[k] == lines[k];
      ApplicationFormLineWeight(p, k);
    }
  }

  /** A bare number holds only digits, a dot and spaces, so it never mentions
      an application form: the first two rules of `FormIndicator` never compete. */
  lemma BareNumberIsNoApplication(t: string)
    requires BareNumberEnumerator(t)
    ensures !MentionsApplicationForm(t)
  {
    var l, k := Lower(t), LeadingDigits(t);
    LeadingDigitsRun(t);
    forall i | 0 <= i < |l|
      ensures l[i] != 'a'
    {
      if i >= k {
        assert IsSpace(t[i]) || t[i] == '.' by {
          if t[k] == '.' && i > k {
            assert t[i] == t[k + 1..][i - k - 1];
          } else if t[k] != '.' {
            assert t[i] == t[k..][i - k];
          }
        }
      }
    }
    forall i
      ensures !OccursAt(l, "application", i)
    {
      if 0 <= i && i + 11 <= |l| {
        assert l[i..i + 11][0] == l[i];
      }
    }
    ContainsAt(l, "application");
  }

  lemma ApplicationFormMakesForm(blocks: seq<Block>, k: nat)
    requires var lines := FirstPageBlocks(blocks);
      k < |lines| <= 7 && MentionsApplicationForm(Strip(lines[k].text))
    ensures IsFormLike(blocks)
  {
    var lines := FirstPageBlocks(blocks);
    if BareNumberEnumerator(Strip(lines[k].text)) {
      BareNumberIsNoApplication(Strip(lines[k].text));
    }
    ApplicationFormLineWeight(lines, k);
  }

  /** A one-word label such as "Name:" (no digit in front, too short to hold
      "application") adds exactly one indicator. */
  lemma LabelIndicator(field: string)
    requires IsWord(field) && |field| < 11 && !IsDigit(field[0]) && ':' in field
    ensures FormIndicator(field) == 1
  {
    assert LStrip(field) == field;
    assert RStrip(field) == field;
    assert Strip(field) == field;
    assert LeadingDigits(field) == 0;
    ContainsAt(Lower(field), "application");
    SplitSingleWord(field);
  }

  /** "Name:", "Date:" and "Signature:" are labels. */
  lemma CommonLabels()
    ensures FormIndicator("Name:") == 1
    ensures FormIndicator("Date:") == 1
    ensures FormIndicator("Signature:") == 1
  {
    NameLabel();
    DateLabel();
    SignatureLabel();
  }

  lemma NameLabel()
    ensures FormIndicator("Name:") == 1
  {
    var n := "Name:";
    assert IsWord(n) && n[4] == ':';
    LabelIndicator(n);
  }

  lemma DateLabel()
    ensures FormIndicator("Date:") == 1
  {
    var d := "Date:";
    assert IsWord(d) && d[4] == ':';
    LabelIndicator(d);
  }

  lemma SignatureLabel()
    ensures FormIndicator("Signature:") == 1
  {
    var g := "Signature:";
    assert IsWord(g) && g[9] == ':';
    LabelIndicator(g);
  }

  /** Lines that each add at least one indicator add at least their number. */
  lemma {:induction false} TotalAtLeastIndicatorLines(lines: seq<Block>, n: nat)
    requires n <= |lines|
    requires forall k :: 0 <= k < n ==> FormIndicator(lines[k].text) >= 1
    ensures FormIndicatorTotal(lines) >= n
  {
    if lines != [] {
      var p := lines[..|lines| - 1];
      var m := if n == |lines| then n - 1 else n;
      assert forall k :: 0 <= k < m ==> p[k] == lines[k];
      TotalAtLeastIndicatorLines(p, m);
    }
  }

  /** When every block is on page 1, the first page is the whole document. */
  lemma {:induction false} AllOnFirstPage(blocks: seq<Block>)
    requires forall k :: 0 <= k < |blocks| ==> blocks[k].page == 1
    ensures FirstPageBlocks(blocks) == blocks
  {
    if blocks != [] {
      AllOnFirstPage(blocks[1..]);
    }
  }

  /** A first page of six lines, any three of which add an indicator each (such
      as the labels of `CommonLabels`), is a form: 3/6 exceeds 0.4. */
  lemma ThreeIndicatorsOfSixIsForm(blocks: seq<Block>)
    requires |blocks| == 6 && forall k :: 0 <= k < 6 ==> blocks[k].page == 1
    requires IndicatorLineCount(blocks) >= 3
    ensures IsFormLike(blocks)
  {
    AllOnFirstPage(blocks);
    MostlyIndicatorsIsForm(blocks);
  }
}
