/** Title detection (`find_document_title`, main.py:198-233): every line of the
    first two pages gets a score for position, boldness, size and length, and
    the first line with the highest score is the title. */
module Titles {
  import opened Text
  import opened Blocks
  import Config

  /** The blocks of pages 1 and 2, in document order. */
  function EarlyBlocks(blocks: seq<Block>): (r: seq<Block>)
    ensures |r| <= |blocks|
    ensures forall b :: b in r <==> b in blocks && b.page <= 2
  {
    if blocks == [] then []
    else (if blocks[0].page <= 2 then [blocks[0]] else []) + EarlyBlocks(blocks[1..])
  }

  /** The filter keeps the order of the blocks: it distributes over `+`. */
  lemma {:induction false} EarlyBlocksAppend(a: seq<Block>, c: seq<Block>)
    ensures EarlyBlocks(a + c) == EarlyBlocks(a) + EarlyBlocks(c)
    decreases |a|
  {
    if a == [] {
      assert a + c == c;
    } else {
      assert (a + c)[0] == a[0] && (a + c)[1..] == a[1..] + c;
      EarlyBlocksAppend(a[1..], c);
    }
  }

  /** Each block of pages one and two is kept as often as it occurs, any other
      dropped. */
  lemma {:induction false} EarlyBlocksCount(blocks: seq<Block>)
    ensures forall b ::
      multiset(EarlyBlocks(blocks))[b] == if b.page <= 2 then multiset(blocks)[b] else 0
  {
    if blocks != [] {
      EarlyBlocksCount(blocks[1..]);
      assert blocks == [blocks[0]] + blocks[1..];
    }
  }

  function SumFontSizes(blocks: seq<Block>): int {
    if blocks == [] then 0 else blocks[0].fontSize + SumFontSizes(blocks[1..])
  }

  /** `font_size > avg_font_size * 1.2` with the average `fontSum / count`,
      cross-multiplied. */
  predicate AboveAverageSize(fontSize: int, fontSum: int, count: nat) {
    5 * fontSize * count > 6 * fontSum
  }

  /** The cross-multiplied test is the source's comparison with the average, in
      exact arithmetic. */
  lemma AboveAverageIsAverageTest(fontSize: int, fontSum: int, count: nat)
    requires count > 0
    ensures AboveAverageSize(fontSize, fontSum, count) <==>
      fontSize as real > ((fontSum as real) / (count as real)) * 1.2
  {
    var n := count as real;
    var avg := (fontSum as real) / n;
    assert avg * n == fontSum as real;
    assert ((fontSize as real) - avg * 1.2) * n == (fontSize as real) * n - 1.2 * (fontSum as real);
    SignOfProduct((fontSize as real) - avg * 1.2, n);
    assert (5 * fontSize * count) as real == 5.0 * ((fontSize as real) * n);
    assert (6 * fontSum) as real == 6.0 * (fontSum as real);
  }

  predicate NearTop(b: Block) {
    b.yRel < 0.3
  }

  predicate Centred(b: Block) {
    0.2 < b.xRel < 0.8
  }

  /** The score of one line, where `fontSum` and `count` describe the lines of the
      first two pages. Position outweighs everything else: a line below the top
      30% of its page can score at most 6, one near the top at least 3. */
  function TitleScore(b: Block, fontSum: int, count: nat): (score: nat)
    ensures score <= 9
    ensures NearTop(b) ==> score >= 3
    ensures !NearTop(b) ==> score <= 6
    ensures NearTop(b) && Centred(b) && b.isBold ==> score >= 7
  {
    var wordCount := WordCount(Strip(b.text));
    (if NearTop(b) then 3 else 0)
    + (if Centred(b) then 2 else 0)
    + (if b.isBold then 2 else 0)
    + (if AboveAverageSize(b.fontSize, fontSum, count) then 1 else 0)
    + (if 3 <= wordCount <= 15 then 1 else 0)
  }

  /** `(score, block)` */
  datatype Candidate = Candidate(score: nat, block: Block)

  function CandidateScore(early: seq<Block>, b: Block): nat {
    TitleScore(b, SumFontSizes(early), |early|)
  }

  /** One candidate per line, in order, scored against the given font sizes. */
  function CandidatesFrom(lines: seq<Block>, fontSum: int, count: nat): (cs: seq<Candidate>)
    ensures |cs| == |lines|
    ensures forall i :: 0 <= i < |lines| ==> cs[i].block == lines[i]
  {
    if lines == [] then []
    else
      var last := lines[|lines| - 1];
      var c := Candidate(TitleScore(last, fontSum, count), last);
      var rest := CandidatesFrom(lines[..|lines| - 1], fontSum, count);
      assert forall i :: 0 <= i < |rest| ==> (rest + [c])[i] == rest[i];
      rest + [c]
  }

  /** `title_candidates` as built by the loop. */
  function Candidates(early: seq<Block>): (cs: seq<Candidate>)
    ensures |cs| == |early|
    ensures forall i :: 0 <= i < |early| ==> cs[i].block == early[i]
  {
    CandidatesFrom(early, SumFontSizes(early), |early|)
  }

  lemma {:induction false} CandidatesFromScore(lines: seq<Block>, fontSum: int, count: nat, i: nat)
    requires i < |lines|
    ensures CandidatesFrom(lines, fontSum, count)[i].score == TitleScore(lines[i], fontSum, count)
  {
    var p := lines[..|lines| - 1];
    if i < |p| {
      CandidatesFromScore(p, fontSum, count, i);
      assert p[i] == lines[i];
    }
  }

  /** Each candidate carries its line's score. */
  lemma CandidateScoreAt(early: seq<Block>, i: nat)
    requires i < |early|
    ensures Candidates(early)[i] == Candidate(CandidateScore(early, early[i]), early[i])
  {
    CandidatesFromScore(early, SumFontSizes(early), |early|, i);
  }

  predicate SortedByScore(cs: seq<Candidate>) {
    forall i, j :: 0 <= i < j < |cs| ==> cs[i].score >= cs[j].score
  }

  /** Puts `c` in front of the first candidate that does not score more. */
  function InsertByScore(c: Candidate, cs: seq<Candidate>): (r: seq<Candidate>)
    requires SortedByScore(cs)
    ensures SortedByScore(r)
    ensures |r| == |cs| + 1
    ensures r[0] == (if cs == [] || cs[0].score <= c.score then c else cs[0])
  {
    if cs == [] || cs[0].score <= c.score then [c] + cs
    else
      var rest := InsertByScore(c, cs[1..]);
      assert cs == [cs[0]] + cs[1..];
      [cs[0]] + rest
  }

  /** `r` is `cs` with `c` inserted at position `i`, after the candidates that
      score more and before the first one that does not. */
  predicate InsertedAt(cs: seq<Candidate>, c: Candidate, i: int, r: seq<Candidate>) {
    && 0 <= i <= |cs| && r == cs[..i] + [c] + cs[i..]
    && (forall j :: 0 <= j < i ==> cs[j].score > c.score)
    && (i < |cs| ==> cs[i].score <= c.score)
  }

  /** The new candidate goes in front of the first candidate that does not score
      more, so it comes before every candidate of equal score already placed.
      `SortByScore` inserts each candidate into the sorted later ones, so equal
      scores keep their input order: the sort is stable. */
  lemma {:induction false} InsertByScorePosition(c: Candidate, cs: seq<Candidate>)
    requires SortedByScore(cs)
    ensures exists i :: InsertedAt(cs, c, i, InsertByScore(c, cs))
  {
    if cs == [] || cs[0].score <= c.score {
      assert InsertedAt(cs, c, 0, InsertByScore(c, cs));
    } else {
      var tail := cs[1..];
      assert SortedByScore(tail);
      InsertByScorePosition(c, tail);
      var rest := InsertByScore(c, tail);
      var i :| InsertedAt(tail, c, i, rest);
      assert InsertByScore(c, cs) == [cs[0]] + rest;
      InsertedAtCons(cs, c, i, rest);
    }
  }

  /** Inserting after a head that scores more shifts the position by one. */
  lemma InsertedAtCons(cs: seq<Candidate>, c: Candidate, i: int, rest: seq<Candidate>)
    requires cs != [] && cs[0].score > c.score && InsertedAt(cs[1..], c, i, rest)
    ensures InsertedAt(cs, c, i + 1, [cs[0]] + rest)
  {
    var tail := cs[1..];
    assert cs[..i + 1] == [cs[0]] + tail[..i];
    assert cs[i + 1..] == tail[i..];
    assert [cs[0]] + rest == cs[..i + 1] + [c] + cs[i + 1..];
    forall j | 0 <= j < i + 1 ensures cs[j].score > c.score {
      if j > 0 {
        assert cs[j] == tail[j - 1];
      }
    }
    assert i + 1 < |cs| ==> cs[i + 1] == tail[i];
  }

  /** `title_candidates.sort(key=score, reverse=True)`: a stable sort, largest
      score first. */
  function SortByScore(cs: seq<Candidate>): (r: seq<Candidate>)
    ensures SortedByScore(r)
    ensures |r| == |cs|
  {
    if cs == [] then []
    else
      assert cs == [cs[0]] + cs[1..];
      InsertByScore(cs[0], SortByScore(cs[1..]))
  }

  lemma {:induction false} InsertByScorePermutes(c: Candidate, cs: seq<Candidate>)
    requires SortedByScore(cs)
    ensures multiset(InsertByScore(c, cs)) == multiset(cs) + multiset{c}
  {
    if cs != [] && cs[0].score > c.score {
      assert cs == [cs[0]] + cs[1..];
      InsertByScorePermutes(c, cs[1..]);
    }
  }

  /** The sort only reorders the candidates. */
  lemma {:induction false} SortByScorePermutes(cs: seq<Candidate>)
    ensures multiset(SortByScore(cs)) == multiset(cs)
  {
    if cs != [] {
      assert cs == [cs[0]] + cs[1..];
      SortByScorePermutes(cs[1..]);
      InsertByScorePermutes(cs[0], SortByScore(cs[1..]));
    }
  }

  /** The index of the first candidate with the highest score. */
  function FirstBest(cs: seq<Candidate>): (k: nat)
    requires cs != []
    ensures k < |cs|
    ensures forall j :: 0 <= j < |cs| ==> cs[j].score <= cs[k].score
    ensures forall j :: 0 <= j < k ==> cs[j].score < cs[k].score
  {
    if |cs| == 1 then 0
    else
      var k := FirstBest(cs[1..]);
      assert forall j :: 1 <= j < |cs| ==> cs[j] == cs[1..][j - 1];
      if cs[0].score >= cs[1 + k].score then 0 else 1 + k
  }

  /** Because the sort is stable, its head is the first best candidate. */
  lemma {:induction false} SortHeadIsFirstBest(cs: seq<Candidate>)
    requires cs != []
    ensures SortByScore(cs)[0] == cs[FirstBest(cs)]
  {
    if |cs| > 1 {
      SortHeadIsFirstBest(cs[1..]);
    }
  }

  /** The `(title, bbox)` pair the source returns. */
  function DocumentTitle(blocks: seq<Block>): (r: (string, Option<BBox>))
    ensures r.1 == None <==> EarlyBlocks(blocks) == []
    ensures r.1 == None ==> r.0 == Config.UntitledTitle
  {
    var early := EarlyBlocks(blocks);
    if early == [] then (Config.UntitledTitle, None)
    else
      var best := SortByScore(Candidates(early))[0].block;
      (best.text, Some(best.bbox))
  }

  /** Line `k` of `early` has the highest score, and every line before it scores
      less. */
  predicate IsFirstBestLine(early: seq<Block>, k: int) {
    && 0 <= k < |early|
    && (forall j :: 0 <= j < |early| ==> CandidateScore(early, early[j]) <= CandidateScore(early, early[k]))
    && (forall j :: 0 <= j < k ==> CandidateScore(early, early[j]) < CandidateScore(early, early[k]))
  }

  lemma FirstBestCandidateIsFirstBestLine(early: seq<Block>)
    requires early != []
    ensures IsFirstBestLine(early, FirstBest(Candidates(early)))
  {
    var cs := Candidates(early);
    var k := FirstBest(cs);
    CandidateScoreAt(early, k);
    forall j | 0 <= j < |early|
      ensures CandidateScore(early, early[j]) == cs[j].score
    {
      CandidateScoreAt(early, j);
    }
  }

  /** The title is the text and box of the first early line with the highest
      score. */
  lemma TitleIsFirstBest(blocks: seq<Block>)
    requires EarlyBlocks(blocks) != []
    ensures var early := EarlyBlocks(blocks);
      exists k :: IsFirstBestLine(early, k) && DocumentTitle(blocks) == (early[k].text, Some(early[k].bbox))
  {
    var early := EarlyBlocks(blocks);
    var cs := Candidates(early);
    SortHeadIsFirstBest(cs);
    var k := FirstBest(cs);
    FirstBestCandidateIsFirstBestLine(early);
    assert DocumentTitle(blocks) == (early[k].text, Some(early[k].bbox));
  }

  /** If some early line is near the top, centred and bold, the title is a line
      near the top of its page. */
  lemma TitleNearTop(blocks: seq<Block>, b: Block)
    requires b in EarlyBlocks(blocks) && NearTop(b) && Centred(b) && b.isBold
    ensures var early := EarlyBlocks(blocks);
      exists k :: 0 <= k < |early| && NearTop(early[k])
        && DocumentTitle(blocks) == (early[k].text, Some(early[k].bbox))
  {
    var early := EarlyBlocks(blocks);
    TitleIsFirstBest(blocks);
    var k :| IsFirstBestLine(early, k) && DocumentTitle(blocks) == (early[k].text, Some(early[k].bbox));
    var i :| 0 <= i < |early| && early[i] == b;
    assert CandidateScore(early, early[i]) >= 7;
  }

  /** The body of the scoring loop: one bonus after the other. */
  method ScoreLine(block: Block, fontSum: int, count: nat) returns (score: nat)
    ensures score == TitleScore(block, fontSum, count)
  {
    score := 0;
    var text := Strip(block.text);
    if block.yRel < 0.3 {
      score := score + 3;
    }
    if 0.2 < block.xRel < 0.8 {
      score := score + 2;
    }
    if block.isBold {
      score := score + 2;
    }
    if 5 * block.fontSize * count > 6 * fontSum {
      score := score + 1;
    }
    var wordCount := WordCount(text);
    if 3 <= wordCount <= 15 {
      score := score + 1;
    }
  }

  /** The scoring loop of `find_document_title`. */
  method ScoreCandidates(early: seq<Block>) returns (candidates: seq<Candidate>)
    ensures candidates == Candidates(early)
  {
    var fontSum, count := SumFontSizes(early), |early|;
    candidates := [];
    var i := 0;
    while i < |early|
      invariant 0 <= i <= |early|
      invariant candidates == CandidatesFrom(early[..i], fontSum, count)
    {
      var block := early[i];
      var score := ScoreLine(block, fontSum, count);
      assert early[..i + 1][..i] == early[..i];
      candidates := candidates + [Candidate(score, block)];
      i := i + 1;
    }
    assert early[..|early|] == early;
  }

  /** `find_document_title`: score the early lines, sort, take the first. */
  method FindDocumentTitle(blocks: seq<Block>) returns (title: string, bbox: Option<BBox>)
    ensures (title, bbox) == DocumentTitle(blocks)
  {
    var early := EarlyBlocks(blocks);
    if early == [] {
      return Config.UntitledTitle, None;
    }
    var candidates := ScoreCandidates(early);
    var sorted := SortByScore(candidates);
    var best := sorted[0].block;
    return best.text, Some(best.bbox);
  }
}
