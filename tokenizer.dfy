/**
 * Text preparation and n-gram production of the naive full text search:
 * `preprocess_text` and `ngrams` (src/fts.rs).
 */
module Tokenizer {

  /** Unicode `White_Space`, the set `char::is_whitespace` uses. */
  predicate IsWhitespace(c: char) {
    ('\U{0009}' <= c <= '\U{000D}') || c == ' ' || c == '\U{0085}' || c == '\U{00A0}' ||
    c == '\U{1680}' || ('\U{2000}' <= c <= '\U{200A}') || c == '\U{2028}' || c == '\U{2029}' ||
    c == '\U{202F}' || c == '\U{205F}' || c == '\U{3000}'
  }

  predicate NoWhitespace(s: string) {
    forall i :: 0 <= i < |s| ==> !IsWhitespace(s[i])
  }

  predicate IsAscii(s: string) {
    forall i :: 0 <= i < |s| ==> s[i] < '\U{0080}'
  }

  predicate IsUpperAscii(c: char) { 'A' <= c <= 'Z' }

  /** Lower-casing; exact for ASCII, the identity elsewhere. */
  function ToLowerChar(c: char): char {
    if IsUpperAscii(c) then (c as int + 32) as char else c
  }

  function ToLower(s: string): string {
    seq(|s|, i requires 0 <= i < |s| => ToLowerChar(s[i]))
  }

  predicate NoUpperAscii(s: string) {
    forall i :: 0 <= i < |s| ==> !IsUpperAscii(s[i])
  }

  /** Length of the longest prefix of `s` without whitespace. */
  function WordLen(s: string): (n: nat)
    ensures n <= |s|
    ensures forall i :: 0 <= i < n ==> !IsWhitespace(s[i])
    ensures n < |s| ==> IsWhitespace(s[n])
  {
    if s == [] || IsWhitespace(s[0]) then 0 else 1 + WordLen(s[1..])
  }

  /** `str::split_whitespace`: the maximal runs of non-whitespace characters. */
  function SplitWhitespace(s: string): (words: seq<string>)
    ensures forall k :: 0 <= k < |words| ==> words[k] != [] && NoWhitespace(words[k])
    ensures forall k :: 0 <= k < |words| ==> multiset(words[k]) <= multiset(s)
    decreases |s|
  {
    if s == [] then []
    else if IsWhitespace(s[0]) then
      assert s == [s[0]] + s[1..];
      SplitWhitespace(s[1..])
    else
      var n := WordLen(s);
      assert s == s[..n] + s[n..];
      [s[..n]] + SplitWhitespace(s[n..])
  }

  /** `str::trim`: drops leading and trailing whitespace. */
  function Trim(s: string): string
    decreases |s|
  {
    if s != [] && IsWhitespace(s[0]) then Trim(s[1..])
    else if s != [] && IsWhitespace(s[|s| - 1]) then Trim(s[..|s| - 1])
    else s
  }

  lemma TrimNoWhitespace(s: string)
    requires NoWhitespace(s)
    ensures Trim(s) == s
  {
  }

  function TrimAll(words: seq<string>): seq<string> {
    seq(|words|, k requires 0 <= k < |words| => Trim(words[k]))
  }

  /** `preprocess_text`: lower-case the text, split it on whitespace, trim each word. */
  function PreprocessText(text: string): (words: seq<string>)
    ensures forall k :: 0 <= k < |words| ==>
      words[k] != [] && NoWhitespace(words[k]) && NoUpperAscii(words[k])
  {
    var lower := ToLower(text);
    var split := SplitWhitespace(lower);
    forall k | 0 <= k < |split| ensures Trim(split[k]) == split[k] && NoUpperAscii(split[k]) {
      TrimNoWhitespace(split[k]);
      forall i | 0 <= i < |split[k]| ensures !IsUpperAscii(split[k][i]) {
        assert split[k][i] in multiset(lower);
      }
    }
    TrimAll(split)
  }

  /** The words joined with single spaces. */
  function JoinSpaces(words: seq<string>): string {
    if words == [] then []
    else if |words| == 1 then words[0]
    else words[0] + " " + JoinSpaces(words[1..])
  }

  lemma {:induction false} WordLenOfWordFirst(w: string, rest: string)
    requires NoWhitespace(w)
    requires rest == [] || IsWhitespace(rest[0])
    ensures WordLen(w + rest) == |w|
    decreases |w|
  {
    if w == [] {
      assert w + rest == rest;
    } else {
      var s := w + rest;
      assert s[0] == w[0] && !IsWhitespace(w[0]);
      assert s[1..] == w[1..] + rest;
      assert NoWhitespace(w[1..]) by {
        forall i | 0 <= i < |w| - 1 ensures !IsWhitespace(w[1..][i]) {
          assert w[1..][i] == w[i + 1];
        }
      }
      WordLenOfWordFirst(w[1..], rest);
      assert WordLen(s) == 1 + WordLen(s[1..]);
    }
  }

  /** A word followed by whitespace, or by nothing, is the first word of the split. */
  lemma SplitWordFirst(w: string, rest: string)
    requires w != [] && NoWhitespace(w)
    requires rest == [] || IsWhitespace(rest[0])
    ensures SplitWhitespace(w + rest) == [w] + SplitWhitespace(rest)
  {
    var s := w + rest;
    WordLenOfWordFirst(w, rest);
    assert s[0] == w[0];
    assert s[..|w|] == w && s[|w|..] == rest;
  }

  /** The split of joined words starts with the first word. */
  lemma SplitJoinCons(words: seq<string>)
    requires |words| > 1 && words[0] != [] && NoWhitespace(words[0])
    ensures SplitWhitespace(JoinSpaces(words)) == [words[0]] + SplitWhitespace(JoinSpaces(words[1..]))
  {
    var tail := JoinSpaces(words[1..]);
    var rest := " " + tail;
    assert JoinSpaces(words) == words[0] + rest;
    SplitWordFirst(words[0], rest);
    assert rest[1..] == tail;
  }

  /** Splitting undoes joining with spaces, for words that `split_whitespace` could produce. */
  lemma {:induction false} SplitJoinSpaces(words: seq<string>)
    requires forall k :: 0 <= k < |words| ==> words[k] != [] && NoWhitespace(words[k])
    ensures SplitWhitespace(JoinSpaces(words)) == words
  {
    if |words| == 1 {
      SplitWordFirst(words[0], []);
      assert words[0] + [] == words[0];
    } else if |words| > 1 {
      SplitJoinCons(words);
      SplitJoinSpaces(words[1..]);
      assert words == [words[0]] + words[1..];
    }
  }

  // ---------------------------------------------------------------------
  // N-grams

  function Min(a: nat, b: nat): nat { if a < b then a else b }

  /** Every substring of length `len` of `w`, from left to right. */
  function Grams(w: string, len: nat): (r: seq<string>)
    requires 1 <= len <= |w|
    ensures |r| == |w| - len + 1
  {
    seq(|w| - len + 1, pos requires 0 <= pos <= |w| - len => w[pos..pos + len])
  }

  /** The substrings of `w` of lengths 1..k, by increasing length. */
  function WordGrams(w: string, k: nat): seq<string>
    requires k <= |w|
  {
    if k == 0 then [] else WordGrams(w, k - 1) + Grams(w, k)
  }

  /** What the nested loops of `ngrams` visit, in visiting order, duplicates included. */
  function Candidates(words: seq<string>, m: nat): seq<string> {
    if words == [] then []
    else
      var w := words[|words| - 1];
      Candidates(words[..|words| - 1], m) + WordGrams(w, Min(m, |w|))
  }

  function AddNew(acc: seq<string>, x: string): seq<string> {
    if x in acc then acc else acc + [x]
  }

  /** The distinct elements of `s`, in first-occurrence order. */
  function Dedup(s: seq<string>): seq<string> {
    if s == [] then [] else AddNew(Dedup(s[..|s| - 1]), s[|s| - 1])
  }

  /** The reference definition of `ngrams(text, m)`. */
  function NgramsOf(text: string, m: nat): seq<string> {
    Dedup(Candidates(PreprocessText(text), m))
  }

  predicate Distinct(s: seq<string>) {
    forall i, j :: 0 <= i < j < |s| ==> s[i] != s[j]
  }

  lemma DedupSnoc(s: seq<string>, x: string)
    ensures Dedup(s + [x]) == AddNew(Dedup(s), x)
  {
    assert (s + [x])[..|s|] == s;
  }

  /** `x` is a substring of `w` whose length is between 1 and `m`. */
  ghost predicate IsGramOf(x: string, w: string, m: nat) {
    1 <= |x| <= m && exists pos: nat :: OccursAt(x, w, pos)
  }

  /** `x` occurs in `w` starting at position `pos`. */
  predicate OccursAt(x: string, w: string, pos: nat) {
    pos + |x| <= |w| && w[pos..pos + |x|] == x
  }

  lemma {:induction false} DedupMembers(s: seq<string>)
    ensures forall x :: x in Dedup(s) <==> x in s
    ensures Distinct(Dedup(s))
  {
    if s != [] {
      var init := s[..|s| - 1];
      DedupMembers(init);
      assert s == init + [s[|s| - 1]];
    }
  }

  lemma {:induction false} WordGramsMembers(w: string, k: nat, x: string)
    requires k <= |w|
    ensures x in WordGrams(w, k) <==> IsGramOf(x, w, k)
  {
    if k > 0 {
      WordGramsMembers(w, k - 1, x);
      if x in Grams(w, k) {
        var pos :| 0 <= pos < |Grams(w, k)| && Grams(w, k)[pos] == x;
        assert OccursAt(x, w, pos);
      }
      if IsGramOf(x, w, k) && |x| == k {
        var pos: nat :| OccursAt(x, w, pos);
        assert Grams(w, k)[pos] == x;
      }
    }
  }

  lemma {:induction false} CandidatesMembers(words: seq<string>, m: nat, x: string)
    ensures x in Candidates(words, m) <==> exists w :: w in words && IsGramOf(x, w, m)
  {
    if words != [] {
      var init := words[..|words| - 1];
      var w := words[|words| - 1];
      CandidatesMembers(init, m, x);
      WordGramsMembers(w, Min(m, |w|), x);
      assert words == init + [w];
      if IsGramOf(x, w, m) {
        var pos: nat :| OccursAt(x, w, pos);
        assert IsGramOf(x, w, Min(m, |w|));
      }
      if IsGramOf(x, w, Min(m, |w|)) {
        assert IsGramOf(x, w, m);
      }
    }
  }

  /** Every n-gram is a substring of a word of the preprocessed text, of length 1..m. */
  lemma NgramsSound(text: string, m: nat, x: string)
    requires x in NgramsOf(text, m)
    ensures exists w :: w in PreprocessText(text) && IsGramOf(x, w, m) && |x| <= |w|
  {
    DedupMembers(Candidates(PreprocessText(text), m));
    CandidatesMembers(PreprocessText(text), m, x);
  }

  /** Every substring of length 1..min(m, |w|) of every word is an n-gram. */
  lemma NgramsComplete(text: string, m: nat, w: string, pos: nat, len: nat)
    requires w in PreprocessText(text)
    requires 1 <= len <= m && pos + len <= |w|
    ensures w[pos..pos + len] in NgramsOf(text, m)
  {
    var x := w[pos..pos + len];
    assert OccursAt(x, w, pos);
    DedupMembers(Candidates(PreprocessText(text), m));
    CandidatesMembers(PreprocessText(text), m, x);
  }

  /** The n-grams are exactly the substrings of length 1..m of the words. */
  lemma NgramsMembers(text: string, m: nat)
    ensures forall x :: x in NgramsOf(text, m) <==>
      exists w :: w in PreprocessText(text) && IsGramOf(x, w, m)
  {
    DedupMembers(Candidates(PreprocessText(text), m));
    forall x ensures x in NgramsOf(text, m) <==>
      exists w :: w in PreprocessText(text) && IsGramOf(x, w, m)
    {
      CandidatesMembers(PreprocessText(text), m, x);
    }
  }

  /** No n-gram is produced twice. */
  lemma NgramsDistinct(text: string, m: nat)
    ensures Distinct(NgramsOf(text, m))
  {
    DedupMembers(Candidates(PreprocessText(text), m));
  }

  /**
   * The innermost loop of `ngrams`: every position for one substring length,
   * pushing each substring not seen yet. (The source's two `break`s cannot fire
   * on ASCII words: positions stay in range and every index is a char boundary.)
   */
  method PushGramsOfLength(word: string, len: nat, res0: seq<string>, seen0: set<string>,
                           ghost done: seq<string>)
    returns (res: seq<string>, seen: set<string>)
    requires 1 <= len <= |word|
    requires res0 == Dedup(done)
    requires forall x :: x in seen0 <==> x in res0
    ensures res == Dedup(done + Grams(word, len))
    ensures forall x :: x in seen <==> x in res
  {
    res, seen := res0, seen0;
    var max := |word| - len;
    ghost var g := Grams(word, len);
    assert done + g[..0] == done;
    var pos := 0;
    while pos <= max
      invariant 0 <= pos <= max + 1
      invariant res == Dedup(done + g[..pos])
      invariant forall x :: x in seen <==> x in res
    {
      var substr := word[pos..pos + len];
      ghost var prefix := done + g[..pos];
      assert g[..pos + 1] == g[..pos] + [substr];
      assert done + g[..pos + 1] == prefix + [substr];
      DedupSnoc(prefix, substr);
      if substr !in seen {
        seen := seen + {substr};
        res := res + [substr];
      }
      pos := pos + 1;
    }
    assert g[..pos] == g;
  }

  /** The grams up to length `len` are those up to `len - 1`, then the ones of length `len`. */
  lemma WordGramsSnoc(before: seq<string>, word: string, len: nat)
    requires 1 <= len <= |word|
    ensures before + WordGrams(word, len) == before + WordGrams(word, len - 1) + Grams(word, len)
  {
    assert WordGrams(word, len) == WordGrams(word, len - 1) + Grams(word, len);
  }

  /** The loop of `ngrams` over the substring lengths of one word. */
  method PushWordGrams(word: string, maxSubstringLen: nat, res0: seq<string>, seen0: set<string>,
                       ghost before: seq<string>)
    returns (res: seq<string>, seen: set<string>)
    requires res0 == Dedup(before)
    requires forall x :: x in seen0 <==> x in res0
    ensures res == Dedup(before + WordGrams(word, Min(maxSubstringLen, |word|)))
    ensures forall x :: x in seen <==> x in res
  {
    res, seen := res0, seen0;
    var maxLen := |word|;
    var top := Min(maxSubstringLen, maxLen);
    var len := 1;
    ghost var done := before;
    assert before + WordGrams(word, 0) == before;
    while len <= top
      invariant 1 <= len <= top + 1
      invariant done == before + WordGrams(word, len - 1)
      invariant res == Dedup(done)
      invariant forall x :: x in seen <==> x in res
    {
      res, seen := PushGramsOfLength(word, len, res, seen, done);
      WordGramsSnoc(before, word, len);
      done := done + Grams(word, len);
      len := len + 1;
    }
    assert len - 1 == top;
  }

  /** The loop of `ngrams` over the words, with a `seen` set. */
  method NgramsOfWords(words: seq<string>, maxSubstringLen: nat) returns (res: seq<string>)
    ensures res == Dedup(Candidates(words, maxSubstringLen))
  {
    res := [];
    var seen: set<string> := {};
    var wi := 0;
    while wi < |words|
      invariant 0 <= wi <= |words|
      invariant res == Dedup(Candidates(words[..wi], maxSubstringLen))
      invariant forall x :: x in seen <==> x in res
    {
      res, seen := PushWordGrams(words[wi], maxSubstringLen, res, seen,
                                 Candidates(words[..wi], maxSubstringLen));
      assert words[..wi + 1][..wi] == words[..wi];
      wi := wi + 1;
    }
    assert words[..wi] == words;
  }

  /**
   * `ngrams`: the distinct substrings of length 1..max of the words of the
   * preprocessed text, in the order the loops first meet them.
   */
  method Ngrams(text: string, maxSubstringLen: nat) returns (res: seq<string>)
    requires IsAscii(text)
    ensures res == NgramsOf(text, maxSubstringLen)
    ensures Distinct(res)
    ensures forall x :: x in res <==>
      exists w :: w in PreprocessText(text) && IsGramOf(x, w, maxSubstringLen)
  {
    res := NgramsOfWords(PreprocessText(text), maxSubstringLen);
    NgramsMembers(text, maxSubstringLen);
    NgramsDistinct(text, maxSubstringLen);
  }

  /** A single lower-case word is preprocessed to itself. */
  lemma PreprocessSingleWord(w: string)
    requires w != [] && NoWhitespace(w) && NoUpperAscii(w)
    ensures PreprocessText(w) == [w]
  {
    assert ToLower(w) == w;
    SplitJoinSpaces([w]);
    TrimNoWhitespace(w);
  }

  /** The test oracle of `ngrams("0", 5)`: a single n-gram. */
  lemma NgramsOfZero()
    ensures NgramsOf("0", 5) == ["0"]
  {
    PreprocessSingleWord("0");
    assert Candidates(["0"], 5) == WordGrams("0", 1);
    assert Grams("0", 1)[0] == "0"[0..1] == "0";
    assert Grams("0", 1) == ["0"];
  }
}
