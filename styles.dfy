/** Font statistics (`analyze_document_styles`, main.py:235-256): the body text
    size and the map from larger sizes to heading levels. Font sizes are integers
    because the reader rounds them (main.py:79). */
module Styles {
  import opened Blocks
  import Config

  datatype StyleProfile = StyleProfile(bodySize: int, sizeToLevel: map<int, Level>)

  /** `[block['font_size'] for block in text_blocks if block['text']]` */
  function FontSizes(blocks: seq<Block>): (sizes: seq<int>)
    ensures |sizes| <= |blocks|
    ensures forall b :: b in blocks && b.text != [] ==> b.fontSize in sizes
    ensures forall x :: x in sizes ==> exists b :: b in blocks && b.text != [] && b.fontSize == x
  {
    if blocks == [] then []
    else
      var rest := FontSizes(blocks[1..]);
      assert forall b :: b in blocks[1..] ==> b in blocks;
      (if blocks[0].text != [] then [blocks[0].fontSize] else []) + rest
  }

  /** The sizes come in block order, one per block with text: a single block
      gives its size, or nothing when it has no text, and a block in front puts
      its part in front. */
  lemma FontSizesCons(b: Block, s: seq<Block>)
    ensures FontSizes([b]) == if b.text != [] then [b.fontSize] else []
    ensures FontSizes([b] + s) == FontSizes([b]) + FontSizes(s)
  {
    assert [b][1..] == [];
    assert ([b] + s)[0] == b && ([b] + s)[1..] == s;
  }

  predicate InBodyRange(size: int) {
    Config.BodySizeLow < size < Config.BodySizeHigh
  }

  /** `[size for size in all_font_sizes if 8 < size < 20]` */
  function BodyRangeSizes(sizes: seq<int>): (r: seq<int>)
    ensures forall x :: x in r <==> x in sizes && InBodyRange(x)
    ensures forall x :: InBodyRange(x) ==> multiset(r)[x] == multiset(sizes)[x]
  {
    if sizes == [] then []
    else
      var rest := BodyRangeSizes(sizes[1..]);
      assert sizes == [sizes[0]] + sizes[1..];
      (if InBodyRange(sizes[0]) then [sizes[0]] else []) + rest
  }

  /** `min(sizes)` */
  function MinOf(sizes: seq<int>): (m: int)
    requires sizes != []
    ensures m in sizes && forall x :: x in sizes ==> m <= x
  {
    if |sizes| == 1 then sizes[0]
    else
      var rest := MinOf(sizes[1..]);
      assert forall x :: x in sizes ==> x == sizes[0] || x in sizes[1..];
      if sizes[0] <= rest then sizes[0] else rest
  }

  /** The index, at or after `i`, of the first element that occurs most often in
      `s`: `max` over the counter's items returns the first maximum, and the items
      come in order of first occurrence. */
  function MostFrequentFrom(s: seq<int>, i: nat): (k: nat)
    requires i < |s|
    ensures i <= k < |s|
    ensures forall j :: i <= j < |s| ==> multiset(s)[s[j]] <= multiset(s)[s[k]]
    ensures forall j :: i <= j < k ==> multiset(s)[s[j]] < multiset(s)[s[k]]
    decreases |s| - i
  {
    if i == |s| - 1 then i
    else
      var k := MostFrequentFrom(s, i + 1);
      if multiset(s)[s[i]] >= multiset(s)[s[k]] then i else k
  }

  /** `Counter(sizes).most_common(1)[0][0]`: a most frequent size, and among the
      equally frequent ones the one that occurs first. */
  function MostCommon(sizes: seq<int>): (m: int)
    requires sizes != []
    ensures m in sizes
    ensures forall x :: x in sizes ==> multiset(sizes)[x] <= multiset(sizes)[m]
    ensures forall j :: 0 <= j < |sizes| && multiset(sizes)[sizes[j]] == multiset(sizes)[m] ==>
      m in sizes[..j + 1]
  {
    var k := MostFrequentFrom(sizes, 0);
    assert sizes[..k + 1][k] == sizes[k];
    forall j | 0 <= j < |sizes| && multiset(sizes)[sizes[j]] == multiset(sizes)[sizes[k]]
      ensures sizes[k] in sizes[..j + 1]
    {
      assert k <= j;
      assert sizes[..j + 1][k] == sizes[k];
    }
    sizes[k]
  }

  predicate StrictlyDecreasing(s: seq<int>) {
    forall i, j :: 0 <= i < j < |s| ==> s[i] > s[j]
  }

  lemma HeadAboveTail(s: seq<int>)
    requires s != [] && StrictlyDecreasing(s)
    ensures forall y :: y in s[1..] ==> y < s[0]
  {
    forall y | y in s[1..] ensures y < s[0] {
      var k :| 0 <= k < |s| - 1 && s[1..][k] == y;
      assert s[k + 1] == y;
    }
  }

  /** Adds `x` to a strictly decreasing sequence, keeping it strictly decreasing. */
  function InsertDescending(x: int, s: seq<int>): (r: seq<int>)
    requires StrictlyDecreasing(s)
    ensures StrictlyDecreasing(r)
    ensures forall y :: y in r <==> y == x || y in s
  {
    if s == [] then [x]
    else if x > s[0] then [x] + s
    else if x == s[0] then s
    else
      var rest := InsertDescending(x, s[1..]);
      assert forall y :: y in s ==> y == s[0] || y in s[1..];
      HeadAboveTail(s);
      assert forall j :: 0 <= j < |rest| ==> rest[j] in rest;
      [s[0]] + rest
  }

  /** `sorted(list(set(sizes)), reverse=True)` */
  function DistinctDescending(sizes: seq<int>): (r: seq<int>)
    ensures StrictlyDecreasing(r)
    ensures forall y :: y in r <==> y in sizes
  {
    if sizes == [] then []
    else
      assert forall y :: y in sizes ==> y == sizes[0] || y in sizes[1..];
      InsertDescending(sizes[0], DistinctDescending(sizes[1..]))
  }

  /** `s >= most_common_size * 1.15 and s > most_common_size`, cross-multiplied. */
  predicate IsHeadingSize(size: int, body: int) {
    Config.HeadingSizeFactorDen * size >= Config.HeadingSizeFactorNum * body && size > body
  }

  /** The cross-multiplied test is the source's `s >= most_common_size * 1.15
      and s > most_common_size`, in exact arithmetic. */
  lemma HeadingSizeIsFactorTest(size: int, body: int)
    ensures IsHeadingSize(size, body) <==> (size as real) >= (body as real) * 1.15 && size > body
  {
    assert (100 * size) as real == 100.0 * (size as real);
    assert (115 * body) as real == 100.0 * ((body as real) * 1.15);
  }

  /** `[s for s in unique_sizes if ...]` */
  function HeadingSizes(sizes: seq<int>, body: int): (r: seq<int>)
    requires StrictlyDecreasing(sizes)
    ensures StrictlyDecreasing(r)
    ensures forall y :: y in r <==> y in sizes && IsHeadingSize(y, body)
  {
    if sizes == [] then []
    else
      assert StrictlyDecreasing(sizes[1..]);
      var rest := HeadingSizes(sizes[1..], body);
      forall j | 0 <= j < |rest| ensures sizes[0] > rest[j] {
        assert rest[j] in rest;
        assert rest[j] in sizes[1..];
      }
      var head := if IsHeadingSize(sizes[0], body) then [sizes[0]] else [];
      assert forall a, b :: 0 <= a < |head| && 0 <= b < |rest| ==> head[a] > rest[b];
      head + rest
  }

  /** H1, H2, H3, H4 by position. */
  function LevelAt(i: nat): (l: Level)
    requires i < Config.MaxSizeLevels
    ensures LevelNumber(l) == i + 1
  {
    [H1, H2, H3, H4][i]
  }

  function Min(a: nat, b: nat): nat {
    if a <= b then a else b
  }

  /** `{size: f"H{i+1}" for i, size in enumerate(heading_sizes[:4])}`, built from
      position `i` on: `sizes[0]` receives the level at position `i`. */
  function SizeLevels(sizes: seq<int>, i: nat): map<int, Level>
    requires i <= Config.MaxSizeLevels
    decreases |sizes|
  {
    if sizes == [] || i == Config.MaxSizeLevels then map[]
    else SizeLevels(sizes[1..], i + 1)[sizes[0] := LevelAt(i)]
  }

  /** Every size in the map is one of the first `4 - i` sizes. */
  lemma {:induction false} SizeLevelsDomain(sizes: seq<int>, i: nat)
    requires i <= Config.MaxSizeLevels
    ensures forall k :: k in SizeLevels(sizes, i) ==>
      exists j :: 0 <= j < |sizes| && i + j < Config.MaxSizeLevels && sizes[j] == k
    decreases |sizes|
  {
    if sizes != [] && i < Config.MaxSizeLevels {
      var tail := sizes[1..];
      SizeLevelsDomain(tail, i + 1);
      forall k | k in SizeLevels(sizes, i)
        ensures exists j :: 0 <= j < |sizes| && i + j < Config.MaxSizeLevels && sizes[j] == k
      {
        if k != sizes[0] {
          assert SizeLevels(sizes, i) == SizeLevels(tail, i + 1)[sizes[0] := LevelAt(i)];
          assert k in SizeLevels(tail, i + 1);
          var j :| 0 <= j < |tail| && i + 1 + j < Config.MaxSizeLevels && tail[j] == k;
          assert sizes[j + 1] == k;
        } else {
          assert sizes[0] == k;
        }
      }
    }
  }

  /** Each of the first `4 - i` sizes of a strictly decreasing list gets the level
      of its position. */
  lemma {:induction false} SizeLevelsAt(sizes: seq<int>, i: nat)
    requires i <= Config.MaxSizeLevels
    requires StrictlyDecreasing(sizes)
    ensures forall j :: 0 <= j < |sizes| && i + j < Config.MaxSizeLevels ==>
      sizes[j] in SizeLevels(sizes, i) && SizeLevels(sizes, i)[sizes[j]] == LevelAt(i + j)
    decreases |sizes|
  {
    if sizes != [] && i < Config.MaxSizeLevels {
      var tail := sizes[1..];
      assert StrictlyDecreasing(tail);
      SizeLevelsAt(tail, i + 1);
      forall j | 0 <= j < |sizes| && i + j < Config.MaxSizeLevels
        ensures sizes[j] in SizeLevels(sizes, i) && SizeLevels(sizes, i)[sizes[j]] == LevelAt(i + j)
      {
        if j > 0 {
          assert sizes[j] == tail[j - 1];
          assert sizes[j] != sizes[0];
        }
      }
    }
  }

  /** The map holds `min(len(sizes), 4 - i)` sizes. */
  lemma {:induction false} SizeLevelsCount(sizes: seq<int>, i: nat)
    requires i <= Config.MaxSizeLevels
    requires StrictlyDecreasing(sizes)
    ensures |SizeLevels(sizes, i)| == Min(|sizes|, Config.MaxSizeLevels - i)
    decreases |sizes|
  {
    if sizes != [] && i < Config.MaxSizeLevels {
      var tail := sizes[1..];
      assert StrictlyDecreasing(tail);
      SizeLevelsCount(tail, i + 1);
      SizeLevelsDomain(tail, i + 1);
      assert sizes[0] !in SizeLevels(tail, i + 1) by {
        assert forall j :: 0 <= j < |tail| ==> tail[j] < sizes[0];
      }
    }
  }

  function AnalyzeDocumentStyles(blocks: seq<Block>): (p: StyleProfile)
    ensures FontSizes(blocks) == [] ==> p == StyleProfile(Config.DefaultBodySize, map[])
  {
    if blocks == [] then StyleProfile(Config.DefaultBodySize, map[])
    else
      var all := FontSizes(blocks);
      if all == [] then StyleProfile(Config.DefaultBodySize, map[])
      else
        var body := BodySize(all);
        StyleProfile(body, SizeLevels(HeadingSizes(DistinctDescending(all), body), 0))
  }

  /** `most_common_size`: the most common size in the body range, or the
      smallest size if none is in range. */
  function BodySize(all: seq<int>): int
    requires all != []
  {
    var bodyRange := BodyRangeSizes(all);
    if bodyRange == [] then MinOf(all) else MostCommon(bodyRange)
  }

  /** The body size is an observed size: the most frequent one in the body range
      (the first to occur among ties), or the smallest if none is in range. */
  lemma BodySizeChoice(all: seq<int>)
    requires all != []
    ensures var body := BodySize(all);
      && body in all
      && ((exists x :: x in all && InBodyRange(x)) ==>
            && InBodyRange(body)
            && (forall x :: x in all && InBodyRange(x) ==> multiset(all)[x] <= multiset(all)[body]))
      && ((forall x :: x in all ==> !InBodyRange(x)) ==> forall x :: x in all ==> body <= x)
  {
    var bodyRange := BodyRangeSizes(all);
    if exists x :: x in all && InBodyRange(x) {
      var x :| x in all && InBodyRange(x);
      assert x in bodyRange;
    }
  }

  /** The profile's body size is that of the document's sizes. */
  lemma ProfileBodySize(blocks: seq<Block>)
    requires FontSizes(blocks) != []
    ensures AnalyzeDocumentStyles(blocks).bodySize == BodySize(FontSizes(blocks))
  {
  }

  /** Of two mapped sizes, the larger has the more significant level. */
  lemma LevelMapPair(hs: seq<int>, k1: int, k2: int)
    requires StrictlyDecreasing(hs)
    requires k1 in SizeLevels(hs, 0) && k2 in SizeLevels(hs, 0) && k1 > k2
    ensures LevelNumber(SizeLevels(hs, 0)[k1]) < LevelNumber(SizeLevels(hs, 0)[k2])
  {
    SizeLevelsDomain(hs, 0);
    SizeLevelsAt(hs, 0);
    var a :| 0 <= a < |hs| && a < Config.MaxSizeLevels && hs[a] == k1;
    var b :| 0 <= b < |hs| && b < Config.MaxSizeLevels && hs[b] == k2;
    assert a < b;
  }

  /** A size missing from the map comes after four mapped, larger sizes. */
  lemma LevelMapMissing(hs: seq<int>, j: nat)
    requires StrictlyDecreasing(hs)
    requires j < |hs| && hs[j] !in SizeLevels(hs, 0)
    ensures |SizeLevels(hs, 0)| == Config.MaxSizeLevels
    ensures forall k :: k in SizeLevels(hs, 0) ==> k > hs[j]
  {
    SizeLevelsDomain(hs, 0);
    SizeLevelsAt(hs, 0);
    SizeLevelsCount(hs, 0);
    assert j >= Config.MaxSizeLevels;
    forall k | k in SizeLevels(hs, 0) ensures k > hs[j] {
      var a :| 0 <= a < |hs| && a < Config.MaxSizeLevels && hs[a] == k;
    }
  }

  /** Levels follow the order of a strictly decreasing list of sizes, and a size
      is left out only when the four levels went to larger ones. */
  lemma LevelMapOrder(hs: seq<int>)
    requires StrictlyDecreasing(hs)
    ensures var m := SizeLevels(hs, 0);
      && (forall k1, k2 :: k1 in m && k2 in m && k1 > k2 ==> LevelNumber(m[k1]) < LevelNumber(m[k2]))
      && (forall j :: 0 <= j < |hs| && hs[j] !in m ==> |m| == Config.MaxSizeLevels && forall k :: k in m ==> k > hs[j])
  {
    var m := SizeLevels(hs, 0);
    forall k1, k2 | k1 in m && k2 in m && k1 > k2
      ensures LevelNumber(m[k1]) < LevelNumber(m[k2])
    {
      LevelMapPair(hs, k1, k2);
    }
    forall j | 0 <= j < |hs| && hs[j] !in m
      ensures |m| == Config.MaxSizeLevels && forall k :: k in m ==> k > hs[j]
    {
      LevelMapMissing(hs, j);
    }
  }

  /** In a strictly decreasing list, exactly `a` elements are larger than the
      one at position `a`. */
  lemma {:induction false} CountAbove(hs: seq<int>, a: nat)
    requires StrictlyDecreasing(hs) && a < |hs|
    ensures |set s | s in hs && s > hs[a]| == a
  {
    var above := set s | s in hs && s > hs[a];
    if a == 0 {
      forall s | s in hs ensures s <= hs[0] {
        var j :| 0 <= j < |hs| && hs[j] == s;
      }
      assert above == {};
    } else {
      var tail := hs[1..];
      assert StrictlyDecreasing(tail);
      CountAbove(tail, a - 1);
      assert tail[a - 1] == hs[a];
      var rest := set s | s in tail && s > hs[a];
      HeadAboveTail(hs);
      assert hs[0] > hs[a];
      assert forall s :: s in hs <==> s == hs[0] || s in tail;
      assert above == rest + {hs[0]};
      assert hs[0] !in rest;
    }
  }

  /** A mapped size's level is one more than the number of larger sizes. */
  lemma MappedLevelRank(hs: seq<int>, k: int)
    requires StrictlyDecreasing(hs) && k in SizeLevels(hs, 0)
    ensures LevelNumber(SizeLevels(hs, 0)[k]) == 1 + |set s | s in hs && s > k|
  {
    SizeLevelsDomain(hs, 0);
    SizeLevelsAt(hs, 0);
    var a :| 0 <= a < |hs| && a < Config.MaxSizeLevels && hs[a] == k;
    CountAbove(hs, a);
  }

  /** Over a document's sizes, a mapped size's level is one more than the
      number of larger heading sizes. */
  lemma HeadingSizeRanks(all: seq<int>, body: int)
    ensures var m := SizeLevels(HeadingSizes(DistinctDescending(all), body), 0);
      forall k :: k in m ==> LevelNumber(m[k]) == 1 + |set s | s in all && IsHeadingSize(s, body) && s > k|
  {
    var hs := HeadingSizes(DistinctDescending(all), body);
    forall k | k in SizeLevels(hs, 0)
      ensures LevelNumber(SizeLevels(hs, 0)[k]) == 1 + |set s | s in all && IsHeadingSize(s, body) && s > k|
    {
      MappedLevelRank(hs, k);
      assert (set s | s in all && IsHeadingSize(s, body) && s > k) == (set s | s in hs && s > k);
    }
  }

  /** The shape of the size-to-level map: at most four keys, each an observed
      heading size, levels in size order, and no heading size left out unless
      four larger ones took the levels. */
  lemma SizeLevelsShape(blocks: seq<Block>)
    ensures var p := AnalyzeDocumentStyles(blocks);
      var m := p.sizeToLevel;
      && |m| <= Config.MaxSizeLevels
      && (forall k :: k in m ==> k in FontSizes(blocks) && IsHeadingSize(k, p.bodySize))
      && (forall k1, k2 :: k1 in m && k2 in m && k1 > k2 ==> LevelNumber(m[k1]) < LevelNumber(m[k2]))
      && (forall k1, k2 :: k1 in m && k2 in m && k1 != k2 ==> m[k1] != m[k2])
      && (forall s :: s in FontSizes(blocks) && IsHeadingSize(s, p.bodySize) && s !in m ==>
            |m| == Config.MaxSizeLevels && forall k :: k in m ==> k > s)
  {
    var p := AnalyzeDocumentStyles(blocks);
    var m := p.sizeToLevel;
    var all := FontSizes(blocks);
    if all != [] {
      var hs := HeadingSizes(DistinctDescending(all), p.bodySize);
      assert m == SizeLevels(hs, 0);
      LevelMapOrder(hs);
      SizeLevelsDomain(hs, 0);
      SizeLevelsCount(hs, 0);
      forall k | k in m ensures k in all && IsHeadingSize(k, p.bodySize) {
        var a :| 0 <= a < |hs| && a < Config.MaxSizeLevels && hs[a] == k;
        assert hs[a] in hs;
      }
      forall s | s in all && IsHeadingSize(s, p.bodySize) && s !in m
        ensures |m| == Config.MaxSizeLevels && forall k :: k in m ==> k > s
      {
        assert s in hs;
        var j :| 0 <= j < |hs| && hs[j] == s;
      }
    }
  }

  /** The level of a mapped size is its rank among the document's heading sizes. */
  lemma ProfileLevelRanks(blocks: seq<Block>)
    ensures var p := AnalyzeDocumentStyles(blocks);
      var m := p.sizeToLevel;
      forall k :: k in m ==>
        LevelNumber(m[k]) == 1 + |set s | s in FontSizes(blocks) && IsHeadingSize(s, p.bodySize) && s > k|
  {
    var all := FontSizes(blocks);
    var p := AnalyzeDocumentStyles(blocks);
    if all != [] {
      var body := BodySize(all);
      assert p == StyleProfile(body, SizeLevels(HeadingSizes(DistinctDescending(all), body), 0));
      HeadingSizeRanks(all, body);
    } else {
      assert p.sizeToLevel == map[];
    }
  }

  /** The size-to-level map holds at most four sizes, each observed, strictly
      larger than the body size and at least 1.15 times it. A mapped size gets
      level H(n+1), where n is the number of larger heading sizes, so the
      largest is H1, the next H2, and so on; a larger size therefore gets a more
      significant level and no two sizes share a level. A heading size is left
      out only when four larger sizes took the four levels. */
  lemma SizeLevelsProperties(blocks: seq<Block>)
    ensures var p := AnalyzeDocumentStyles(blocks);
      var m := p.sizeToLevel;
      && |m| <= Config.MaxSizeLevels
      && (forall k :: k in m ==> k in FontSizes(blocks) && IsHeadingSize(k, p.bodySize))
      && (forall k :: k in m ==>
            LevelNumber(m[k]) == 1 + |set s | s in FontSizes(blocks) && IsHeadingSize(s, p.bodySize) && s > k|)
      && (forall k1, k2 :: k1 in m && k2 in m && k1 > k2 ==> LevelNumber(m[k1]) < LevelNumber(m[k2]))
      && (forall k1, k2 :: k1 in m && k2 in m && k1 != k2 ==> m[k1] != m[k2])
      && (forall s :: s in FontSizes(blocks) && IsHeadingSize(s, p.bodySize) && s !in m ==>
            |m| == Config.MaxSizeLevels && forall k :: k in m ==> k > s)
  {
    SizeLevelsShape(blocks);
    ProfileLevelRanks(blocks);
  }
}
