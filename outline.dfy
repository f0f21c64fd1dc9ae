/** The assembly of the result in `process_pdf` (main.py:276-331): language,
    body size and level map, title, the form check, then one pass over the
    blocks that keeps plausible headings and gives each a level, and a final
    pass that drops repeated `(text, page)` pairs. */
module Outline {
  import opened Text
  import opened Blocks
  import opened Languages
  import opened Numbering
  import opened Styles
  import opened Filters
  import opened Forms
  import opened Titles
  import Config

  /** `" ".join(texts)` */
  function JoinTexts(lines: seq<Block>): (s: string)
  {
    if lines == [] then []
    else if |lines| == 1 then lines[0].text
    else lines[0].text + " " + JoinTexts(lines[1..])
  }

  lemma OccursAtFront(a: string, b: string)
    ensures OccursAt(a + b, a, 0)
  {
    assert (a + b)[..|a|] == a;
  }

  lemma OccursAtShift(a: string, b: string, t: string, i: int)
    requires OccursAt(b, t, i)
    ensures OccursAt(a + b, t, |a| + i)
  {
    assert (a + b)[|a| + i..|a| + i + |t|] == b[i..i + |t|];
  }

  /** Every line's text appears, whole, in the joined text. */
  lemma {:induction false} JoinTextsContainsEach(lines: seq<Block>, k: nat)
    requires k < |lines|
    ensures exists i :: OccursAt(JoinTexts(lines), lines[k].text, i)
  {
    if |lines| == 1 {
      OccursAtFront(lines[0].text, []);
      assert lines[0].text + [] == JoinTexts(lines);
    } else {
      var rest := JoinTexts(lines[1..]);
      assert JoinTexts(lines) == lines[0].text + (" " + rest);
      if k == 0 {
        OccursAtFront(lines[0].text, " " + rest);
      } else {
        JoinTextsContainsEach(lines[1..], k - 1);
        var i :| OccursAt(rest, lines[1..][k - 1].text, i);
        OccursAtShift(lines[0].text + " ", rest, lines[k].text, i);
        assert lines[0].text + " " + rest == lines[0].text + (" " + rest);
      }
    }
  }

  /** The sample handed to language detection: the texts of page 1, joined. */
  function FirstPageText(all: seq<Block>): string {
    JoinTexts(FirstPageBlocks(all))
  }

  /** `is_form_like_document` and `detect_language` see the same lines: every
      character of a first-page line is in the sample. */
  lemma FirstPageTextCoversPageOne(all: seq<Block>, b: Block)
    requires b in all && b.page == 1
    ensures exists i :: OccursAt(FirstPageText(all), b.text, i)
  {
    var lines := FirstPageBlocks(all);
    var k :| 0 <= k < |lines| && lines[k] == b;
    JoinTextsContainsEach(lines, k);
    assert lines[k].text == b.text;
    assert FirstPageText(all) == JoinTexts(lines);
  }

  /** The blocks on the same page as `b`. */
  function SamePageBlocks(all: seq<Block>, b: Block): (r: seq<Block>)
    ensures |r| <= |all|
  {
    if all == [] then []
    else
      var last := all[|all| - 1];
      SamePageBlocks(all[..|all| - 1], b) + (if last.page == b.page then [last] else [])
  }

  lemma {:induction false} SamePageMembers(all: seq<Block>, b: Block)
    ensures forall x :: x in SamePageBlocks(all, b) <==> x in all && x.page == b.page
  {
    if all != [] {
      var p := all[..|all| - 1];
      SamePageMembers(p, b);
      assert all == p + [all[|all| - 1]];
    }
  }

  /** `surrounding_blocks`: same page, tops less than 100 apart. Since the test
      is symmetric, the block itself is among them. */
  function Surrounding(all: seq<Block>, b: Block): (r: seq<Block>)
    ensures |r| <= |all|
  {
    if all == [] then []
    else
      var last := all[|all| - 1];
      var near := last.page == b.page && TopDistance(last, b) < Config.SurroundingTolerance;
      Surrounding(all[..|all| - 1], b) + (if near then [last] else [])
  }

  lemma {:induction false} SurroundingMembers(all: seq<Block>, b: Block)
    ensures forall x :: x in Surrounding(all, b) <==>
      x in all && x.page == b.page && TopDistance(x, b) < Config.SurroundingTolerance
  {
    if all != [] {
      var p := all[..|all| - 1];
      SurroundingMembers(p, b);
      assert all == p + [all[|all| - 1]];
    }
  }

  lemma SurroundingHoldsSelf(all: seq<Block>, b: Block)
    requires b in all
    ensures b in Surrounding(all, b)
  {
    SurroundingMembers(all, b);
    assert TopDistance(b, b) == 0.0;
  }

  /** The blocks in `b`'s row on its page all lie within 100 of it, so the row
      filter sees the same row through the surrounding set as through the page. */
  lemma {:induction false} SameRowThroughSurrounding(all: seq<Block>, b: Block)
    ensures SameRowBlocks(b, Surrounding(all, b)) == SameRowBlocks(b, SamePageBlocks(all, b))
  {
    if all != [] {
      var p := all[..|all| - 1];
      var last := all[|all| - 1];
      SameRowThroughSurrounding(p, b);
      var near := last.page == b.page && TopDistance(last, b) < Config.SurroundingTolerance;
      var tail := if near then [last] else [];
      var ptail := if last.page == b.page then [last] else [];
      SameRowBlocksAppend(b, Surrounding(p, b), tail);
      SameRowBlocksAppend(b, SamePageBlocks(p, b), ptail);
      assert SameRowBlocks(b, tail) == SameRowBlocks(b, ptail) by {
        if !near && last.page == b.page {
          assert SameRowBlocks(b, ptail) == SameRowBlocks(b, []) + [];
        }
      }
    }
  }

  /** Outside the header and footer bands (`VERTICAL_MARGIN` at top and bottom). */
  predicate InBodyArea(b: Block) {
    Config.VerticalMargin <= b.yRel <= 1.0 - Config.VerticalMargin
  }

  /** The level of a plausible heading: numbering first, then the size map, then
      bold text larger than the body gets H3. */
  function LevelFor(b: Block, lang: Language, profile: StyleProfile): Option<Level> {
    var byNumber := ClassifyHeadingByNumbering(b.text, lang);
    if byNumber.Some? then byNumber
    else if b.fontSize in profile.sizeToLevel then Some(profile.sizeToLevel[b.fontSize])
    else if b.isBold && b.fontSize > profile.bodySize then Some(H3)
    else None
  }

  /** A numbering pattern decides the level whatever the font size and weight. */
  lemma NumberingTakesPrecedence(b: Block, lang: Language, profile: StyleProfile, fontSize: int, isBold: bool)
    requires ClassifyHeadingByNumbering(b.text, lang).Some?
    ensures LevelFor(b.(fontSize := fontSize, isBold := isBold), lang, profile) == LevelFor(b, lang, profile)
    ensures LevelFor(b, lang, profile) == ClassifyHeadingByNumbering(b.text, lang)
  {
  }

  /** Without numbering, a size in the level map decides, whatever the weight. */
  lemma SizeMapBeforeBold(b: Block, lang: Language, profile: StyleProfile, isBold: bool)
    requires ClassifyHeadingByNumbering(b.text, lang).None? && b.fontSize in profile.sizeToLevel
    ensures LevelFor(b.(isBold := isBold), lang, profile) == LevelFor(b, lang, profile)
    ensures LevelFor(b, lang, profile) == Some(profile.sizeToLevel[b.fontSize])
  {
  }

  /** A level comes from numbering, from the size map, or is H3 for bold text
      larger than the body; nothing else gets one. */
  lemma LevelSources(b: Block, lang: Language, profile: StyleProfile)
    ensures LevelFor(b, lang, profile).Some? <==>
      || ClassifyHeadingByNumbering(b.text, lang).Some?
      || b.fontSize in profile.sizeToLevel
      || (b.isBold && b.fontSize > profile.bodySize)
    ensures LevelFor(b, lang, profile) != Some(H4) ==>
      ClassifyHeadingByNumbering(b.text, lang).Some? || b.fontSize !in profile.sizeToLevel
      || profile.sizeToLevel[b.fontSize] != H4
  {
  }

  /** The entry the first pass makes for one block, if any. */
  function EntryFor(b: Block, all: seq<Block>, lang: Language, profile: StyleProfile, titleBox: Option<BBox>): Option<Entry> {
    if Some(b.bbox) == titleBox || b.text == [] then None
    else if !InBodyArea(b) then None
    else if !IsPlausibleHeading(b, profile.bodySize, Surrounding(all, b)) then None
    else
      var level := LevelFor(b, lang, profile);
      if level.Some? then Some(Entry(level.value, b.text, b.page)) else None
  }

  /** `b` passes every test of the first pass. */
  predicate IsHeadingBlock(b: Block, all: seq<Block>, lang: Language, profile: StyleProfile, titleBox: Option<BBox>) {
    && Some(b.bbox) != titleBox
    && b.text != []
    && InBodyArea(b)
    && IsPlausibleHeading(b, profile.bodySize, Surrounding(all, b))
    && LevelFor(b, lang, profile).Some?
  }

  /** An entry is made exactly for the blocks that pass every test, and carries
      the block's text, page and level. */
  lemma EntryForHeading(b: Block, all: seq<Block>, lang: Language, profile: StyleProfile, titleBox: Option<BBox>)
    ensures EntryFor(b, all, lang, profile, titleBox).Some? <==> IsHeadingBlock(b, all, lang, profile, titleBox)
    ensures IsHeadingBlock(b, all, lang, profile, titleBox) ==>
      EntryFor(b, all, lang, profile, titleBox) == Some(Entry(LevelFor(b, lang, profile).value, b.text, b.page))
  {
  }

  /** The entries present in a list of optional entries, in order. */
  function Somes(opts: seq<Option<Entry>>): (r: seq<Entry>)
    ensures |r| <= |opts|
  {
    if opts == [] then []
    else
      var last := opts[|opts| - 1];
      Somes(opts[..|opts| - 1]) + (if last.Some? then [last.value] else [])
  }

  lemma {:induction false} SomesMembers(opts: seq<Option<Entry>>)
    ensures forall e :: e in Somes(opts) <==> Some(e) in opts
  {
    if opts != [] {
      var p := opts[..|opts| - 1];
      SomesMembers(p);
      assert opts == p + [opts[|opts| - 1]];
    }
  }

  lemma SomesSnoc(opts: seq<Option<Entry>>, i: nat)
    requires i < |opts|
    ensures Somes(opts[..i + 1]) == Somes(opts[..i]) + (if opts[i].Some? then [opts[i].value] else [])
  {
    assert opts[..i + 1][..i] == opts[..i];
  }

  /** What the first pass makes of each block, position by position. */
  function EntryOptions(all: seq<Block>, lang: Language, profile: StyleProfile, titleBox: Option<BBox>): (r: seq<Option<Entry>>)
    ensures |r| == |all|
  {
    seq(|all|, i requires 0 <= i < |all| => EntryFor(all[i], all, lang, profile, titleBox))
  }

  /** `outline` after the first pass. */
  function RawOutline(all: seq<Block>, lang: Language, profile: StyleProfile, titleBox: Option<BBox>): (r: seq<Entry>)
    ensures |r| <= |all|
  {
    Somes(EntryOptions(all, lang, profile, titleBox))
  }

  /** Every entry of the first pass is the entry of some block. */
  lemma RawOutlineEntryOrigin(all: seq<Block>, lang: Language, profile: StyleProfile, titleBox: Option<BBox>, e: Entry)
    requires e in RawOutline(all, lang, profile, titleBox)
    ensures exists i :: 0 <= i < |all| && EntryFor(all[i], all, lang, profile, titleBox) == Some(e)
  {
    var opts := EntryOptions(all, lang, profile, titleBox);
    SomesMembers(opts);
    var i :| 0 <= i < |opts| && opts[i] == Some(e);
    assert EntryFor(all[i], all, lang, profile, titleBox) == Some(e);
  }

  /** Every entry made for a block is in the first pass's outline. */
  lemma RawOutlineHasEntry(all: seq<Block>, lang: Language, profile: StyleProfile, titleBox: Option<BBox>, i: nat)
    requires i < |all| && EntryFor(all[i], all, lang, profile, titleBox).Some?
    ensures EntryFor(all[i], all, lang, profile, titleBox).value in RawOutline(all, lang, profile, titleBox)
  {
    var opts := EntryOptions(all, lang, profile, titleBox);
    SomesMembers(opts);
    assert opts[i] == EntryFor(all[i], all, lang, profile, titleBox);
  }

  /** The key of the duplicate check, `(item['text'], item['page'])`. */
  type Key = (string, nat)

  function KeyOf(e: Entry): Key {
    (e.text, e.page)
  }

  /** The keys of a list of entries (`seen` after a pass over it). */
  function KeySet(s: seq<Entry>): set<Key> {
    if s == [] then {}
    else KeySet(s[..|s| - 1]) + {KeyOf(s[|s| - 1])}
  }

  /** A key is in the set exactly when some entry carries it. */
  lemma {:induction false} KeySetMembers(s: seq<Entry>)
    ensures forall k :: k in KeySet(s) <==> exists i :: 0 <= i < |s| && KeyOf(s[i]) == k
  {
    if s != [] {
      var p := s[..|s| - 1];
      KeySetMembers(p);
      assert forall i :: 0 <= i < |p| ==> p[i] == s[i];
    }
  }

  /** Where the key `k` first occurs. */
  function FirstIndex(s: seq<Entry>, k: Key): (i: nat)
    requires k in KeySet(s)
    ensures i < |s| && KeyOf(s[i]) == k
    ensures forall j :: 0 <= j < i ==> KeyOf(s[j]) != k
  {
    var p := s[..|s| - 1];
    if k in KeySet(p) then
      var i := FirstIndex(p, k);
      assert forall j :: 0 <= j <= i ==> p[j] == s[j];
      i
    else
      KeySetMembers(p);
      assert forall j :: 0 <= j < |p| ==> p[j] == s[j];
      |s| - 1
  }

  /** `unique_outline` after the duplicate pass over `s`. */
  function Dedup(s: seq<Entry>): (d: seq<Entry>)
    ensures |d| <= |s|
  {
    if s == [] then []
    else
      var p := s[..|s| - 1];
      var last := s[|s| - 1];
      if KeyOf(last) in KeySet(p) then Dedup(p) else Dedup(p) + [last]
  }

  lemma KeySetAppend(s: seq<Entry>, e: Entry)
    ensures KeySet(s + [e]) == KeySet(s) + {KeyOf(e)}
  {
    assert (s + [e])[..|s|] == s;
  }

  /** A key already present in a prefix has its first occurrence there. */
  lemma FirstIndexInPrefix(s: seq<Entry>, k: Key)
    requires s != [] && k in KeySet(s[..|s| - 1])
    ensures k in KeySet(s) && FirstIndex(s, k) == FirstIndex(s[..|s| - 1], k)
  {
  }

  /** The duplicate pass keeps every key. */
  lemma {:induction false} DedupKeySet(s: seq<Entry>)
    ensures KeySet(Dedup(s)) == KeySet(s)
  {
    if s != [] {
      var p := s[..|s| - 1];
      var last := s[|s| - 1];
      DedupKeySet(p);
      assert KeySet(s) == KeySet(p) + {KeyOf(last)};
      if KeyOf(last) in KeySet(p) {
        assert Dedup(s) == Dedup(p);
        assert KeySet(s) == KeySet(p);
      } else {
        assert Dedup(s) == Dedup(p) + [last];
        KeySetAppend(Dedup(p), last);
      }
    }
  }

  /** The entry kept for a key is its first occurrence. */
  lemma {:induction false} DedupKeepsFirst(s: seq<Entry>, m: nat)
    requires m < |Dedup(s)|
    ensures KeyOf(Dedup(s)[m]) in KeySet(s)
    ensures Dedup(s)[m] == s[FirstIndex(s, KeyOf(Dedup(s)[m]))]
  {
    var p := s[..|s| - 1];
    var last := s[|s| - 1];
    var dp := Dedup(p);
    if m < |dp| {
      DedupKeepsFirst(p, m);
      assert Dedup(s)[m] == dp[m];
      FirstIndexInPrefix(s, KeyOf(dp[m]));
      assert p[FirstIndex(p, KeyOf(dp[m]))] == s[FirstIndex(p, KeyOf(dp[m]))];
    } else {
      assert KeyOf(last) !in KeySet(p);
      assert Dedup(s)[m] == last;
      assert KeyOf(s[|s| - 1]) in KeySet(s);
    }
  }

  /** Kept entries appear in the order of their keys' first occurrences. */
  lemma {:induction false} DedupOrder(s: seq<Entry>, m1: nat, m2: nat)
    requires m1 < m2 < |Dedup(s)|
    ensures KeyOf(Dedup(s)[m1]) in KeySet(s) && KeyOf(Dedup(s)[m2]) in KeySet(s)
    ensures FirstIndex(s, KeyOf(Dedup(s)[m1])) < FirstIndex(s, KeyOf(Dedup(s)[m2]))
  {
    var p := s[..|s| - 1];
    var dp := Dedup(p);
    var k1, k2 := KeyOf(Dedup(s)[m1]), KeyOf(Dedup(s)[m2]);
    DedupKeepsFirst(s, m1);
    DedupKeepsFirst(s, m2);
    assert Dedup(s)[m1] == dp[m1];
    DedupKeySet(p);
    KeySetMembers(dp);
    assert k1 == KeyOf(dp[m1]) && k1 in KeySet(dp);
    FirstIndexInPrefix(s, k1);
    if m2 < |dp| {
      assert Dedup(s)[m2] == dp[m2];
      DedupOrder(p, m1, m2);
      FirstIndexInPrefix(s, k2);
    } else {
      assert k2 !in KeySet(p);
    }
  }

  /** The duplicate pass keeps one entry per key, the first one, in the order
      of first occurrence. */
  lemma DedupKeepsFirstOccurrences(s: seq<Entry>)
    ensures var d := Dedup(s);
      && KeySet(d) == KeySet(s)
      && (forall m :: 0 <= m < |d| ==> KeyOf(d[m]) in KeySet(s) && d[m] == s[FirstIndex(s, KeyOf(d[m]))])
      && (forall m1, m2 :: 0 <= m1 < m2 < |d| ==> FirstIndex(s, KeyOf(d[m1])) < FirstIndex(s, KeyOf(d[m2])))
  {
    DedupKeySet(s);
    forall m | 0 <= m < |Dedup(s)|
      ensures KeyOf(Dedup(s)[m]) in KeySet(s) && Dedup(s)[m] == s[FirstIndex(s, KeyOf(Dedup(s)[m]))]
    {
      DedupKeepsFirst(s, m);
    }
    forall m1, m2 | 0 <= m1 < m2 < |Dedup(s)|
      ensures FirstIndex(s, KeyOf(Dedup(s)[m1])) < FirstIndex(s, KeyOf(Dedup(s)[m2]))
    {
      DedupOrder(s, m1, m2);
    }
  }

  /** No key occurs twice after the duplicate pass. */
  lemma DedupUnique(s: seq<Entry>)
    ensures var d := Dedup(s);
      forall m1, m2 :: 0 <= m1 < m2 < |d| ==> KeyOf(d[m1]) != KeyOf(d[m2])
  {
    forall m1, m2 | 0 <= m1 < m2 < |Dedup(s)|
      ensures KeyOf(Dedup(s)[m1]) != KeyOf(Dedup(s)[m2])
    {
      DedupOrder(s, m1, m2);
    }
  }

  /** The duplicate pass: `unique_outline` and `seen`. */
  method RemoveDuplicates(outline: seq<Entry>) returns (unique: seq<Entry>)
    ensures unique == Dedup(outline)
  {
    unique := [];
    var seen: set<Key> := {};
    var i := 0;
    while i < |outline|
      invariant 0 <= i <= |outline|
      invariant unique == Dedup(outline[..i])
      invariant seen == KeySet(outline[..i])
    {
      var item := outline[i];
      var identifier := (item.text, item.page);
      assert outline[..i + 1][..i] == outline[..i];
      if identifier !in seen {
        unique := unique + [item];
        seen := seen + {identifier};
      }
      i := i + 1;
    }
    assert outline[..|outline|] == outline;
  }

  /** The level assignment of the first pass. */
  method ChooseLevel(block: Block, lang: Language, profile: StyleProfile) returns (level: Option<Level>)
    ensures level == LevelFor(block, lang, profile)
  {
    level := None;
    var levelFromNum := ClassifyHeadingByNumbering(block.text, lang);
    if levelFromNum.Some? {
      level := levelFromNum;
    } else if block.fontSize in profile.sizeToLevel {
      level := Some(profile.sizeToLevel[block.fontSize]);
    } else if block.isBold && block.fontSize > profile.bodySize {
      level := Some(H3);
    }
  }

  /** The body of the first pass for one block, with its `continue`s. */
  method HeadingEntry(block: Block, all: seq<Block>, lang: Language, profile: StyleProfile, titleBox: Option<BBox>)
    returns (entry: Option<Entry>)
    ensures entry == EntryFor(block, all, lang, profile, titleBox)
  {
    if Some(block.bbox) == titleBox || block.text == [] {
      return None;
    }
    if block.yRel < Config.VerticalMargin || block.yRel > 1.0 - Config.VerticalMargin {
      return None;
    }
    var surrounding := Surrounding(all, block);
    if !IsPlausibleHeading(block, profile.bodySize, surrounding) {
      return None;
    }
    var level := ChooseLevel(block, lang, profile);
    if level.Some? {
      return Some(Entry(level.value, block.text, block.page));
    }
    return None;
  }

  /** The first pass over all blocks. */
  method CollectHeadings(all: seq<Block>, lang: Language, profile: StyleProfile, titleBox: Option<BBox>)
    returns (outline: seq<Entry>)
    ensures outline == RawOutline(all, lang, profile, titleBox)
  {
    ghost var opts := EntryOptions(all, lang, profile, titleBox);
    outline := [];
    var i := 0;
    while i < |all|
      invariant 0 <= i <= |all|
      invariant outline == Somes(opts[..i])
    {
      SomesSnoc(opts, i);
      var entry := HeadingEntry(all[i], all, lang, profile, titleBox);
      assert entry == opts[i];
      if entry.Some? {
        outline := outline + [entry.value];
      }
      i := i + 1;
    }
    assert opts[..|all|] == opts;
  }

  /** `{"title": ..., "outline": [...]}` */
  datatype Report = Report(title: string, outline: seq<Entry>)

  /** The result once language, styles, title and the form check are known. */
  function Assemble(all: seq<Block>, lang: Language, profile: StyleProfile, title: (string, Option<BBox>), formLike: bool): Report {
    if formLike then Report(title.0, [])
    else Report(title.0, Dedup(RawOutline(all, lang, profile, title.1)))
  }

  /** The result for the extracted blocks of a document. */
  function Process(all: seq<Block>): Report {
    if all == [] then Report(Config.NoTextTitle, [])
    else Assemble(all, DetectLanguage(FirstPageText(all)), AnalyzeDocumentStyles(all), DocumentTitle(all), IsFormLike(all))
  }

  method ProcessBlocks(all: seq<Block>) returns (report: Report)
    ensures report == Process(all)
  {
    if |all| == 0 {
      return Report(Config.NoTextTitle, []);
    }
    var firstPageText := FirstPageText(all);
    var documentLanguage := DetectLanguage(firstPageText);
    var profile := AnalyzeDocumentStyles(all);
    var title, titleBox := FindDocumentTitle(all);
    var formLike := IsFormLikeDocument(all);
    if formLike {
      return Report(title, []);
    }
    var outline := CollectHeadings(all, documentLanguage, profile, titleBox);
    var uniqueOutline := RemoveDuplicates(outline);
    return Report(title, uniqueOutline);
  }

  /** A document without text gets the fixed title and no outline; a form keeps
      its title and gets no outline. */
  lemma NoOutlineCases(all: seq<Block>)
    ensures all == [] ==> Process(all) == Report(Config.NoTextTitle, [])
    ensures all != [] && IsFormLike(all) ==> Process(all) == Report(DocumentTitle(all).0, [])
    ensures all != [] ==> Process(all).title == DocumentTitle(all).0
  {
  }

  /** `e` is the entry made for the heading block `b` of `all`. */
  predicate IsEntryOf(e: Entry, b: Block, all: seq<Block>, lang: Language, profile: StyleProfile, titleBox: Option<BBox>) {
    && b in all
    && IsHeadingBlock(b, all, lang, profile, titleBox)
    && e == Entry(LevelFor(b, lang, profile).value, b.text, b.page)
  }

  lemma AssembledEntriesAreHeadings(all: seq<Block>, lang: Language, profile: StyleProfile, title: (string, Option<BBox>), e: Entry)
    requires e in Assemble(all, lang, profile, title, false).outline
    ensures exists b :: IsEntryOf(e, b, all, lang, profile, title.1)
  {
    var raw := RawOutline(all, lang, profile, title.1);
    var d := Dedup(raw);
    var m :| 0 <= m < |d| && d[m] == e;
    DedupKeepsFirst(raw, m);
    assert e in raw;
    RawOutlineEntryOrigin(all, lang, profile, title.1, e);
    var i :| 0 <= i < |all| && EntryFor(all[i], all, lang, profile, title.1) == Some(e);
    EntryForHeading(all[i], all, lang, profile, title.1);
    assert IsEntryOf(e, all[i], all, lang, profile, title.1);
  }

  /** Every outline entry is the entry of a block of the document that passes
      every test of the first pass: not the title's box, inside the body area,
      a plausible heading among its surrounding blocks, and with a level. */
  lemma OutlineEntriesAreHeadings(all: seq<Block>, e: Entry)
    requires e in Process(all).outline
    ensures all != [] && !IsFormLike(all)
    ensures var lang, profile, titleBox := DetectLanguage(FirstPageText(all)), AnalyzeDocumentStyles(all), DocumentTitle(all).1;
      exists b :: IsEntryOf(e, b, all, lang, profile, titleBox)
  {
    AssembledEntriesAreHeadings(all, DetectLanguage(FirstPageText(all)), AnalyzeDocumentStyles(all), DocumentTitle(all), e);
  }

  /** The title line and the header and footer bands never reach the outline:
      each entry has the text and page of a block whose box is not the title's
      and whose top lies between 8% and 92% of its page. */
  lemma OutlineExcludesTitleAndMargins(all: seq<Block>, e: Entry)
    requires e in Process(all).outline
    ensures exists b ::
      && b in all && b.text == e.text && b.page == e.page
      && Some(b.bbox) != DocumentTitle(all).1
      && 0.08 <= b.yRel <= 0.92
  {
    OutlineEntriesAreHeadings(all, e);
    var lang, profile, titleBox := DetectLanguage(FirstPageText(all)), AnalyzeDocumentStyles(all), DocumentTitle(all).1;
    var b :| IsEntryOf(e, b, all, lang, profile, titleBox);
    assert b.text == e.text && b.page == e.page;
  }

  lemma AssembledHeadingsPresent(all: seq<Block>, lang: Language, profile: StyleProfile, title: (string, Option<BBox>), b: Block)
    requires b in all && IsHeadingBlock(b, all, lang, profile, title.1)
    ensures (b.text, b.page) in KeySet(Assemble(all, lang, profile, title, false).outline)
  {
    var raw := RawOutline(all, lang, profile, title.1);
    var i :| 0 <= i < |all| && all[i] == b;
    EntryForHeading(b, all, lang, profile, title.1);
    RawOutlineHasEntry(all, lang, profile, title.1, i);
    var e := EntryFor(b, all, lang, profile, title.1).value;
    assert e in raw;
    var j :| 0 <= j < |raw| && raw[j] == e;
    KeySetMembers(raw);
    assert KeyOf(raw[j]) in KeySet(raw);
    DedupKeySet(raw);
  }

  /** Every block that passes the tests is represented: the outline has an entry
      with its text and page (the first such entry, if the pair repeats). */
  lemma HeadingsAreInOutline(all: seq<Block>, b: Block)
    requires b in all && !IsFormLike(all)
    requires IsHeadingBlock(b, all, DetectLanguage(FirstPageText(all)), AnalyzeDocumentStyles(all), DocumentTitle(all).1)
    ensures (b.text, b.page) in KeySet(Process(all).outline)
  {
    AssembledHeadingsPresent(all, DetectLanguage(FirstPageText(all)), AnalyzeDocumentStyles(all), DocumentTitle(all), b);
  }

  /** No two outline entries share text and page. */
  lemma OutlineUnique(all: seq<Block>)
    ensures var o := Process(all).outline;
      forall m1, m2 :: 0 <= m1 < m2 < |o| ==> KeyOf(o[m1]) != KeyOf(o[m2])
  {
    if all != [] && !IsFormLike(all) {
      var lang, profile, title := DetectLanguage(FirstPageText(all)), AnalyzeDocumentStyles(all), DocumentTitle(all);
      DedupUnique(RawOutline(all, lang, profile, title.1));
      assert Process(all).outline == Dedup(RawOutline(all, lang, profile, title.1));
    }
  }

  /** A line that shares its row with two or more other lines of its page sits in
      a table and never becomes a heading. */
  lemma TableRowIsNotHeading(all: seq<Block>, b: Block, lang: Language, profile: StyleProfile, titleBox: Option<BBox>)
    requires |SameRowBlocks(b, SamePageBlocks(all, b))| >= 3
    ensures EntryFor(b, all, lang, profile, titleBox) == None
  {
    SameRowThroughSurrounding(all, b);
  }
}
