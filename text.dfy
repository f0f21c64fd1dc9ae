/** Character classes and the few string operations of Python's `str` that the
    heuristics use: `isspace`, `strip`, `split`, `lower`, `isupper`, `in`.

    Whitespace follows CPython's `str.isspace` exactly (the same set is used by
    `strip()`, `split()` and the regular-expression class `\s`). Letter case is
    modelled for ASCII and Latin-1 only; every other character is uncased. */
module Text {

  /** ASCII decimal digit (the regular-expression class `\d` restricted to ASCII). */
  predicate IsDigit(c: char) {
    '0' <= c <= '9'
  }

  predicate IsAsciiLetter(c: char) {
    ('a' <= c <= 'z') || ('A' <= c <= 'Z')
  }

  /** CPython's `str.isspace`: the characters with bidirectional class WS, B or S,
      or general category Zs. */
  predicate IsSpace(c: char) {
    || c == ' '
    || ('\t' <= c <= '\r')
    || ('\U{1C}' <= c <= '\U{1F}')
    || c == '\U{85}'
    || c == '\U{A0}'
    || c == '\U{1680}'
    || ('\U{2000}' <= c <= '\U{200A}')
    || c == '\U{2028}'
    || c == '\U{2029}'
    || c == '\U{202F}'
    || c == '\U{205F}'
    || c == '\U{3000}'
  }

  predicate AllSpace(s: string) {
    forall i :: 0 <= i < |s| ==> IsSpace(s[i])
  }

  /** Upper-case letters of ASCII and Latin-1 (plus the capital of the one Latin-1
      lower-case letter whose capital lies outside Latin-1, U+0178). */
  predicate IsUpperChar(c: char) {
    || ('A' <= c <= 'Z')
    || ('\U{C0}' <= c <= '\U{DE}' && c != '\U{D7}')
    || c == '\U{178}'
  }

  /** Lower-case letters of ASCII and Latin-1, including the letters that have the
      Unicode Lowercase property without a capital (ª, µ, º, ß). */
  predicate IsLowerChar(c: char) {
    || ('a' <= c <= 'z')
    || c == '\U{AA}' || c == '\U{B5}' || c == '\U{BA}'
    || ('\U{DF}' <= c <= '\U{FF}' && c != '\U{F7}')
  }

  /** `str.lower` on one character. */
  function LowerChar(c: char): char {
    if 'A' <= c <= 'Z' then (c as int + 32) as char
    else if '\U{C0}' <= c <= '\U{DE}' && c != '\U{D7}' then (c as int + 32) as char
    else if c == '\U{178}' then '\U{FF}'
    else c
  }

  /** `str.lower`. */
  function Lower(s: string): (r: string)
    ensures |r| == |s|
  {
    seq(|s|, i requires 0 <= i < |s| => LowerChar(s[i]))
  }

  /** `str.isupper`: at least one upper-case letter and no lower-case letter. */
  predicate IsUpper(s: string) {
    && (exists i :: 0 <= i < |s| && IsUpperChar(s[i]))
    && (forall i :: 0 <= i < |s| ==> !IsLowerChar(s[i]))
  }

  /** `str.lstrip()`. */
  function LStrip(s: string): (r: string)
    ensures |r| <= |s|
    ensures r != [] ==> !IsSpace(r[0])
  {
    if |s| > 0 && IsSpace(s[0]) then LStrip(s[1..]) else s
  }

  /** `lstrip` removes a prefix made of whitespace only. */
  lemma {:induction false} LStripRemovesSpace(s: string)
    ensures var r := LStrip(s); r == s[|s| - |r|..] && AllSpace(s[..|s| - |r|])
  {
    if |s| > 0 && IsSpace(s[0]) {
      LStripRemovesSpace(s[1..]);
      var r := LStrip(s);
      assert s[1..][|s| - 1 - |r|..] == s[|s| - |r|..];
      assert forall i :: 1 <= i < |s| - |r| ==> s[i] == s[1..][..|s| - 1 - |r|][i - 1];
    }
  }

  /** `str.rstrip()`. */
  function RStrip(s: string): (r: string)
    ensures |r| <= |s|
    ensures r != [] ==> !IsSpace(r[|r| - 1])
  {
    if |s| > 0 && IsSpace(s[|s| - 1]) then RStrip(s[..|s| - 1]) else s
  }

  /** `rstrip` removes a suffix made of whitespace only. */
  lemma {:induction false} RStripRemovesSpace(s: string)
    ensures var r := RStrip(s); r == s[..|r|] && AllSpace(s[|r|..])
  {
    if |s| > 0 && IsSpace(s[|s| - 1]) {
      var p := s[..|s| - 1];
      RStripRemovesSpace(p);
      var r := RStrip(s);
      assert p[..|r|] == s[..|r|];
      assert forall i :: |r| <= i < |s| - 1 ==> s[i] == p[|r|..][i - |r|];
    }
  }

  /** `rstrip` leaves the first character in place. */
  lemma {:induction false} RStripKeepsHead(s: string)
    ensures RStrip(s) != [] ==> RStrip(s)[0] == s[0]
  {
    if |s| > 0 && IsSpace(s[|s| - 1]) {
      RStripKeepsHead(s[..|s| - 1]);
    }
  }

  /** `str.strip()`. */
  function Strip(s: string): (r: string)
    ensures |r| <= |s|
    ensures r != [] ==> !IsSpace(r[0]) && !IsSpace(r[|r| - 1])
  {
    var l := LStrip(s);
    RStripKeepsHead(l);
    RStrip(l)
  }

  /** `strip` keeps a run of `s` and removes only whitespace around it. */
  lemma StripRemovesSpace(s: string)
    ensures exists i :: OccursAt(s, Strip(s), i) && AllSpace(s[..i]) && AllSpace(s[i + |Strip(s)|..])
  {
    var l := LStrip(s);
    var r := Strip(s);
    LStripRemovesSpace(s);
    RStripRemovesSpace(l);
    var i := |s| - |l|;
    assert l == s[i..];
    assert r == l[..|r|];
    assert s[i..i + |r|] == l[..|r|];
    assert s[i + |r|..] == l[|r|..];
    assert OccursAt(s, r, i);
  }

  /** Length of the run of non-space characters at the start of `s`. */
  function WordLength(s: string): (k: nat)
    ensures k <= |s|
  {
    if |s| > 0 && !IsSpace(s[0]) then 1 + WordLength(s[1..]) else 0
  }

  /** The run is non-space and ends at a space or at the end. */
  lemma {:induction false} WordLengthRun(s: string)
    ensures var k := WordLength(s);
      && (forall i :: 0 <= i < k ==> !IsSpace(s[i]))
      && (k < |s| ==> IsSpace(s[k]))
    decreases |s|
  {
    if |s| > 0 && !IsSpace(s[0]) {
      WordLengthRun(s[1..]);
      assert forall i :: 1 <= i < WordLength(s) ==> s[i] == s[1..][i - 1];
    }
  }

  /** Length of the run of whitespace at the start of `s`. */
  function LeadingSpaces(s: string): (k: nat)
    ensures k <= |s|
  {
    if |s| > 0 && IsSpace(s[0]) then 1 + LeadingSpaces(s[1..]) else 0
  }

  /** The run is whitespace and ends at a non-space or at the end. */
  lemma {:induction false} LeadingSpacesRun(s: string)
    ensures var k := LeadingSpaces(s);
      AllSpace(s[..k]) && (k < |s| ==> !IsSpace(s[k]))
    decreases |s|
  {
    if |s| > 0 && IsSpace(s[0]) {
      LeadingSpacesRun(s[1..]);
      assert forall i :: 1 <= i < LeadingSpaces(s) ==> s[..LeadingSpaces(s)][i] == s[1..][..LeadingSpaces(s[1..])][i - 1];
    }
  }

  /** Length of the run of digits at the start of `s`. */
  function LeadingDigits(s: string): (k: nat)
    ensures k <= |s|
  {
    if |s| > 0 && IsDigit(s[0]) then 1 + LeadingDigits(s[1..]) else 0
  }

  /** The run is digits and ends at a non-digit or at the end. */
  lemma {:induction false} LeadingDigitsRun(s: string)
    ensures var k := LeadingDigits(s);
      && (forall i :: 0 <= i < k ==> IsDigit(s[i]))
      && (k < |s| ==> !IsDigit(s[k]))
    decreases |s|
  {
    if |s| > 0 && IsDigit(s[0]) {
      LeadingDigitsRun(s[1..]);
      assert forall i :: 1 <= i < LeadingDigits(s) ==> s[i] == s[1..][i - 1];
    }
  }

  predicate IsWord(w: string) {
    w != [] && forall i :: 0 <= i < |w| ==> !IsSpace(w[i])
  }

  /** `str.split()` with no separator: the maximal runs of non-space characters. */
  function Split(s: string): (words: seq<string>)
    decreases |s|
  {
    var t := LStrip(s);
    if t == [] then []
    else
      var k := WordLength(t);
      [t[..k]] + Split(t[k..])
  }

  /** Every piece of the split is a word. */
  lemma {:induction false} SplitWords(s: string)
    ensures forall k :: 0 <= k < |Split(s)| ==> IsWord(Split(s)[k])
    decreases |s|
  {
    var t := LStrip(s);
    if t != [] {
      var k := WordLength(t);
      WordLengthRun(t);
      assert IsWord(t[..k]);
      SplitWords(t[k..]);
      assert forall j :: 1 <= j < |Split(s)| ==> Split(s)[j] == Split(t[k..])[j - 1];
    }
  }

  /** `words` decomposes `s` the way `str.split()` does: whitespace, a word
      that ends at whitespace or at the end of `s`, and the remaining words
      decomposing the rest. So the words are the maximal runs of non-space
      characters of `s`, in order. */
  predicate IsSplitOf(s: string, words: seq<string>)
    decreases |words|
  {
    if words == [] then AllSpace(s)
    else
      var w := words[0];
      exists i :: 0 <= i < |s| && WordAt(s, w, i) && IsSplitOf(s[i + |w|..], words[1..])
  }

  /** `w` is a word at index `i`, preceded in `s` only by whitespace and followed
      by whitespace or the end. */
  predicate WordAt(s: string, w: string, i: int) {
    && IsWord(w)
    && OccursAt(s, w, i)
    && AllSpace(s[..i])
    && (i + |w| < |s| ==> IsSpace(s[i + |w|]))
  }

  /** `lstrip` of whitespace up to a non-space character or the end. */
  lemma {:induction false} LStripAfterSpace(s: string, i: nat)
    requires i <= |s| && AllSpace(s[..i]) && (i < |s| ==> !IsSpace(s[i]))
    ensures LStrip(s) == s[i..]
  {
    if i > 0 {
      assert s[..i][0] == s[0];
      assert s[1..][..i - 1] == s[..i][1..];
      LStripAfterSpace(s[1..], i - 1);
      assert s[1..][i - 1..] == s[i..];
    }
  }

  /** `split()` decomposes its argument. */
  lemma {:induction false} SplitIsSplitOf(s: string)
    ensures IsSplitOf(s, Split(s))
    decreases |s|
  {
    var t := LStrip(s);
    LStripRemovesSpace(s);
    var i := |s| - |t|;
    if t == [] {
      assert s[..i] == s;
    } else {
      var w := t[..WordLength(t)];
      FirstWordAt(s);
      SplitAtWord(s, w, i);
      SplitIsSplitOf(s[i + |w|..]);
      assert Split(s)[0] == w && Split(s)[1..] == Split(s[i + |w|..]);
      assert 0 <= i < |s| && WordAt(s, w, i) && IsSplitOf(s[i + |w|..], Split(s)[1..]);
    }
  }

  /** The first piece of the split is a word at the end of the leading
      whitespace. */
  lemma FirstWordAt(s: string)
    requires LStrip(s) != []
    ensures var t := LStrip(s); WordAt(s, t[..WordLength(t)], |s| - |t|)
  {
    var t := LStrip(s);
    LStripRemovesSpace(s);
    var i := |s| - |t|;
    var k := WordLength(t);
    WordLengthRun(t);
    assert s[i..i + k] == t[..k];
    assert s[i + k..] == t[k..];
  }

  /** A decomposition is unique: it is the one `split()` returns. */
  lemma {:induction false} SplitOfUnique(s: string, words: seq<string>)
    requires IsSplitOf(s, words)
    ensures words == Split(s)
    decreases |words|
  {
    if words == [] {
      LStripAfterSpace(s, |s|);
      assert s[..|s|] == s;
    } else {
      var w := words[0];
      var i :| 0 <= i < |s| && WordAt(s, w, i) && IsSplitOf(s[i + |w|..], words[1..]);
      SplitAtWord(s, w, i);
      SplitOfUnique(s[i + |w|..], words[1..]);
      assert words == [w] + words[1..];
    }
  }

  /** A word preceded only by whitespace is the first piece of the split. */
  lemma SplitAtWord(s: string, w: string, i: int)
    requires WordAt(s, w, i)
    ensures Split(s) == [w] + Split(s[i + |w|..])
  {
    var rest := s[i + |w|..];
    assert s[i] == w[0];
    LStripAfterSpace(s, i);
    var t := s[i..];
    assert t == w + rest;
    WordLengthOfWord(w, rest);
    assert t[..|w|] == w && t[|w|..] == rest;
  }

  /** `split()` is characterised by the decomposition: its result is the one
      sequence of words into which `s` decomposes; it is empty exactly when `s`
      is all whitespace. */
  lemma SplitCharacterised(s: string, words: seq<string>)
    ensures IsSplitOf(s, words) <==> words == Split(s)
    ensures Split(s) == [] <==> AllSpace(s)
  {
    SplitIsSplitOf(s);
    if IsSplitOf(s, words) {
      SplitOfUnique(s, words);
    }
    if AllSpace(s) {
      SplitOfUnique(s, []);
    }
  }

  /** `len(text.split())`. */
  function WordCount(s: string): nat {
    |Split(s)|
  }

  /** Words are separated by spaces, so there are at most half as many words as
      characters, rounded up. */
  lemma {:induction false} WordCountBound(s: string)
    ensures 2 * WordCount(s) <= |s| + 1
    ensures |s| > 0 && IsSpace(s[0]) ==> 2 * WordCount(s) <= |s|
    decreases |s|
  {
    var t := LStrip(s);
    if t != [] {
      var k := WordLength(t);
      WordCountBound(t[k..]);
      if |s| > 0 && IsSpace(s[0]) {
        LStripRemovesSpace(s);
        assert |t| < |s|;
      }
    }
  }

  /** A word followed by a space is split off as the first word. */
  lemma SplitWord(w: string, rest: string)
    requires IsWord(w)
    ensures Split(w + " " + rest) == [w] + Split(rest)
  {
    var s := w + (" " + rest);
    assert s == w + " " + rest;
    assert LStrip(s) == s;
    WordLengthOfWord(w, " " + rest);
    assert s[..|w|] == w;
    assert s[|w|..] == " " + rest;
    LStripSpace(rest);
  }

  lemma LStripSpace(rest: string)
    ensures LStrip(" " + rest) == LStrip(rest)
  {
    assert (" " + rest)[1..] == rest;
  }

  lemma {:induction false} WordLengthOfWord(w: string, rest: string)
    requires forall i :: 0 <= i < |w| ==> !IsSpace(w[i])
    requires rest == [] || IsSpace(rest[0])
    ensures WordLength(w + rest) == |w|
  {
    if w != [] {
      assert (w + rest)[1..] == w[1..] + rest;
      WordLengthOfWord(w[1..], rest);
    }
  }

  /** A single word is one word. */
  lemma SplitSingleWord(w: string)
    requires IsWord(w)
    ensures Split(w) == [w]
  {
    assert LStrip(w) == w;
    WordLengthOfWord(w, []);
    assert w + [] == w;
    assert w[|w|..] == [];
  }

  /** `sub` occurs in `s` starting at index `i`. */
  predicate OccursAt(s: string, sub: string, i: int) {
    0 <= i && i + |sub| <= |s| && s[i..i + |sub|] == sub
  }

  /** `sub in s` for strings. */
  predicate Contains(s: string, sub: string)
    decreases |s|
  {
    sub <= s || (|s| > 0 && Contains(s[1..], sub))
  }

  /** Case-insensitive match of the lower-case ASCII literal `p` at position `i`. */
  predicate FoldAt(s: string, i: nat, p: string)
    ensures FoldAt(s, i, p) ==> i + |p| <= |s|
    decreases |p|
  {
    if p == [] then i <= |s|
    else i < |s| && LowerChar(s[i]) == p[0] && FoldAt(s, i + 1, p[1..])
  }

  /** The match compares the lower-cased slice with the literal. */
  lemma {:induction false} FoldAtIsLowerSlice(s: string, i: nat, p: string)
    ensures FoldAt(s, i, p) <==> i + |p| <= |s| && Lower(s[i..i + |p|]) == p
    decreases |p|
  {
    if p != [] && i < |s| {
      FoldAtIsLowerSlice(s, i + 1, p[1..]);
      if i + |p| <= |s| {
        var l, r := Lower(s[i..i + |p|]), Lower(s[i + 1..i + |p|]);
        assert l == [LowerChar(s[i])] + r;
        if l == p {
          assert p[1..] == l[1..];
        }
        if LowerChar(s[i]) == p[0] && r == p[1..] {
          assert l == p;
        }
      }
    }
  }

  lemma PrefixOccurs(s: string, sub: string)
    ensures sub <= s <==> OccursAt(s, sub, 0)
  {
    if OccursAt(s, sub, 0) {
      assert s[..|sub|] == sub;
    }
  }

  lemma OccursInTail(s: string, sub: string, i: nat)
    requires |s| > 0
    ensures OccursAt(s[1..], sub, i) <==> OccursAt(s, sub, i + 1)
  {
    if i + |sub| <= |s| - 1 {
      assert s[1..][i..i + |sub|] == s[i + 1..i + 1 + |sub|];
    }
  }

  lemma {:induction false} ContainsAt(s: string, sub: string)
    ensures Contains(s, sub) <==> exists i :: OccursAt(s, sub, i)
    decreases |s|
  {
    PrefixOccurs(s, sub);
    if |s| > 0 {
      ContainsAt(s[1..], sub);
      if Contains(s[1..], sub) {
        var i :| OccursAt(s[1..], sub, i);
        OccursInTail(s, sub, i);
      }
      if exists i :: OccursAt(s, sub, i) {
        var i :| OccursAt(s, sub, i);
        if i != 0 {
          OccursInTail(s, sub, i - 1);
        }
      }
    } else if exists i :: OccursAt(s, sub, i) {
      var i :| OccursAt(s, sub, i);
      assert |sub| == 0 && i == 0;
    }
  }
}
