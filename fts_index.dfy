/**
 * The naive full text index of src/fts.rs: `add_text` stores the n-grams of a
 * text for an id, and `search` combines one lookup per query word.
 *
 * The `fts` table holds (id, ngram) rows. It is a set here: storing a row
 * that is already present has no effect (see README.md). The join with the
 * objects table is a map from id to frecency: a row whose id has no entry
 * there is not returned by a lookup.
 */
module FtsIndex {
  import opened Common
  import opened Tokenizer

  /** `Fts`: the database handle is left out, only the n-gram bound stays. */
  datatype Fts = Fts(maxSubstringLen: nat)

  /** A row of the `fts` table. */
  datatype FtsEntry = FtsEntry(id: ResourceId, ngram: string)

  type FtsTable = set<FtsEntry>

  /** The frecency of each object, as the objects table holds it. */
  type FrecencyTable = map<ResourceId, nat>

  /** A search result: an id and its frecency. */
  type IdFrec = (ResourceId, nat)

  // ---------------------------------------------------------------------
  // add_text

  /** The rows `add_text(id, text)` stores. */
  function EntriesOf(id: ResourceId, grams: seq<string>): set<FtsEntry> {
    set k | 0 <= k < |grams| :: FtsEntry(id, grams[k])
  }

  /**
   * `add_text`: one insertion per n-gram of the text. The transaction is the
   * table value threaded through, and the SQL error path is left out.
   */
  method AddText(fts: Fts, id: ResourceId, text: string, tx: FtsTable) returns (tx': FtsTable)
    requires IsAscii(text)
    ensures tx' == tx + EntriesOf(id, NgramsOf(text, fts.maxSubstringLen))
    ensures forall e :: e in tx' <==>
      e in tx || (e.id == id && e.ngram in NgramsOf(text, fts.maxSubstringLen))
  {
    var grams := Ngrams(text, fts.maxSubstringLen);
    tx' := tx;
    var i := 0;
    while i < |grams|
      invariant 0 <= i <= |grams|
      invariant tx' == tx + EntriesOf(id, grams[..i])
    {
      assert EntriesOf(id, grams[..i + 1]) == EntriesOf(id, grams[..i]) + {FtsEntry(id, grams[i])} by {
        assert forall k :: 0 <= k < i ==> grams[..i + 1][k] == grams[..i][k];
        assert grams[..i + 1][i] == grams[i];
      }
      tx' := tx' + {FtsEntry(id, grams[i])};
      i := i + 1;
    }
    assert grams[..i] == grams;
    forall e | e in tx' ensures e in tx || (e.id == id && e.ngram in grams) {
      if e !in tx {
        var k :| 0 <= k < |grams| && e == FtsEntry(id, grams[k]);
      }
    }
    forall e: FtsEntry | e.id == id && e.ngram in grams ensures e in tx' {
      var k :| 0 <= k < |grams| && grams[k] == e.ngram;
      assert e == FtsEntry(id, grams[k]);
    }
  }

  // ---------------------------------------------------------------------
  // search

  /** A query word longer than the n-gram bound is cut down to its prefix of that length. */
  function Truncate(word: string, max: nat): (r: string)
    ensures |r| == Min(|word|, max)
    ensures r == word[..|r|]
  {
    if |word| > max then word[..max] else word
  }

  /** The words `search` looks up, in query order, repetitions kept. */
  function QueryWords(fts: Fts, text: string): (q: seq<string>)
    ensures |q| == |PreprocessText(text)|
  {
    var words := PreprocessText(text);
    seq(|words|, k requires 0 <= k < |words| => Truncate(words[k], fts.maxSubstringLen))
  }

  /** `id` has the n-gram `ngram` in the table and is a known object. */
  predicate Hit(table: FtsTable, frecency: FrecencyTable, ngram: string, id: ResourceId) {
    id in frecency && FtsEntry(id, ngram) in table
  }

  /** The lookup query for one word: the ids of the joined rows with that n-gram. */
  function Lookup(table: FtsTable, frecency: FrecencyTable, ngram: string): (ids: set<ResourceId>)
    ensures forall id :: id in ids <==> Hit(table, frecency, ngram, id)
  {
    var ids := set e | e in table && e.ngram == ngram && e.id in frecency :: e.id;
    assert forall id :: Hit(table, frecency, ngram, id) ==> id in ids by {
      forall id | Hit(table, frecency, ngram, id) ensures id in ids {
        var e := FtsEntry(id, ngram);
        assert e in table && e.ngram == ngram && e.id in frecency;
      }
    }
    ids
  }

  /** How many of the words return a row for `id`: the counter the search keeps. */
  function MatchCount(table: FtsTable, frecency: FrecencyTable, words: seq<string>, id: ResourceId): nat {
    if words == [] then 0
    else
      MatchCount(table, frecency, words[..|words| - 1], id) +
      (if Hit(table, frecency, words[|words| - 1], id) then 1 else 0)
  }

  /** The AND semantics: a non-empty query, and every word found for `id`. */
  predicate AllWordsMatch(table: FtsTable, frecency: FrecencyTable, words: seq<string>, id: ResourceId) {
    |words| > 0 && forall k :: 0 <= k < |words| ==> Hit(table, frecency, words[k], id)
  }

  lemma MatchCountSnoc(table: FtsTable, frecency: FrecencyTable, words: seq<string>, w: string, id: ResourceId)
    ensures MatchCount(table, frecency, words + [w], id) ==
      MatchCount(table, frecency, words, id) + (if Hit(table, frecency, w, id) then 1 else 0)
  {
    assert (words + [w])[..|words|] == words;
  }

  /** The counter never exceeds the number of words, and reaches it exactly when every word is found. */
  lemma {:induction false} MatchCountFull(table: FtsTable, frecency: FrecencyTable, words: seq<string>, id: ResourceId)
    ensures MatchCount(table, frecency, words, id) <= |words|
    ensures MatchCount(table, frecency, words, id) == |words| <==>
      forall k :: 0 <= k < |words| ==> Hit(table, frecency, words[k], id)
  {
    if words != [] {
      var init := words[..|words| - 1];
      MatchCountFull(table, frecency, init, id);
      assert forall k :: 0 <= k < |init| ==> init[k] == words[k];
    }
  }

  /** A value of the search's map: the number of rows seen for an id, and its frecency. */
  datatype Counter = Counter(hits: nat, frecency: nat)

  /** `tally` holds, for each id found so far, its counter and its frecency. */
  ghost predicate Tallied(tally: map<ResourceId, Counter>, table: FtsTable, frecency: FrecencyTable,
                          words: seq<string>)
  {
    forall id :: (id in tally <==> id in frecency && MatchCount(table, frecency, words, id) > 0) &&
      (id in tally ==> id in frecency && tally[id] == Counter(MatchCount(table, frecency, words, id), frecency[id]))
  }

  predicate NoDuplicates(rows: seq<ResourceId>) {
    forall i, j :: 0 <= i < j < |rows| ==> rows[i] != rows[j]
  }

  /**
   * The lookup query run for one word (`fetch_all`): one row per id, in an
   * order the database chooses.
   */
  method LookupRows(table: FtsTable, frecency: FrecencyTable, ngram: string) returns (rows: seq<ResourceId>)
    ensures forall id :: id in rows <==> Hit(table, frecency, ngram, id)
    ensures NoDuplicates(rows)
  {
    rows := [];
    var rest := Lookup(table, frecency, ngram);
    while rest != {}
      invariant forall id :: id in rows <==> Hit(table, frecency, ngram, id) && id !in rest
      invariant forall id :: id in rest ==> Hit(table, frecency, ngram, id)
      invariant NoDuplicates(rows)
      decreases |rest|
    {
      var id :| id in rest;
      rows := rows + [id];
      rest := rest - {id};
    }
  }

  /** The new counter of `id` for one more row: one up, or 1 with the row's frecency. */
  function Bumped(tally: map<ResourceId, Counter>, frecency: FrecencyTable, id: ResourceId): Counter
    requires id in frecency
  {
    if id in tally then tally[id].(hits := tally[id].hits + 1) else Counter(1, frecency[id])
  }

  /** The counters after the rows, taken in order. */
  function BumpRows(tally: map<ResourceId, Counter>, frecency: FrecencyTable, rows: seq<ResourceId>)
    : map<ResourceId, Counter>
    requires forall k :: 0 <= k < |rows| ==> rows[k] in frecency
  {
    if rows == [] then tally
    else
      var t := BumpRows(tally, frecency, rows[..|rows| - 1]);
      t[rows[|rows| - 1] := Bumped(t, frecency, rows[|rows| - 1])]
  }

  /** The `for_each` over the rows of one lookup (`entry().and_modify().or_insert()`). */
  method TallyRows(tally0: map<ResourceId, Counter>, rows: seq<ResourceId>, frecency: FrecencyTable)
    returns (tally: map<ResourceId, Counter>)
    requires forall k :: 0 <= k < |rows| ==> rows[k] in frecency
    ensures tally == BumpRows(tally0, frecency, rows)
  {
    tally := tally0;
    for i := 0 to |rows|
      invariant tally == BumpRows(tally0, frecency, rows[..i])
    {
      assert rows[..i + 1][..i] == rows[..i];
      var id := rows[i];
      if id in tally {
        tally := tally[id := tally[id].(hits := tally[id].hits + 1)];
      } else {
        tally := tally[id := Counter(1, frecency[id])];
      }
    }
    assert rows[..|rows|] == rows;
  }

  /** Rows without repeated ids bump each of their ids exactly once. */
  lemma {:induction false} BumpRowsEffect(tally: map<ResourceId, Counter>, frecency: FrecencyTable,
                                          rows: seq<ResourceId>)
    requires forall k :: 0 <= k < |rows| ==> rows[k] in frecency
    requires NoDuplicates(rows)
    ensures forall id :: id in BumpRows(tally, frecency, rows) <==> id in tally || id in rows
    ensures forall id :: id in rows ==> BumpRows(tally, frecency, rows)[id] == Bumped(tally, frecency, id)
    ensures forall id :: id in tally && id !in rows ==> BumpRows(tally, frecency, rows)[id] == tally[id]
  {
    if rows != [] {
      var init := rows[..|rows| - 1];
      var last := rows[|rows| - 1];
      assert rows == init + [last];
      BumpRowsEffect(tally, frecency, init);
      assert last !in init by {
        forall k | 0 <= k < |init| ensures init[k] != last {
          assert init[k] == rows[k];
        }
      }
    }
  }

  /** Round `wi` of the word loop: the rows of the `wi`-th query word extend the tally by that word. */
  lemma TallyRound(tally: map<ResourceId, Counter>, table: FtsTable, frecency: FrecencyTable,
                   q: seq<string>, wi: nat, rows: seq<ResourceId>)
    requires wi < |q|
    requires Tallied(tally, table, frecency, q[..wi])
    requires forall id :: id in rows <==> Hit(table, frecency, q[wi], id)
    requires NoDuplicates(rows)
    ensures forall k :: 0 <= k < |rows| ==> rows[k] in frecency
    ensures Tallied(BumpRows(tally, frecency, rows), table, frecency, q[..wi + 1])
  {
    TallyStep(tally, table, frecency, q[..wi], q[wi], rows);
    assert q[..wi + 1] == q[..wi] + [q[wi]];
  }

  /** One word of the search loop keeps the counters equal to the match counts. */
  lemma TallyStep(tally: map<ResourceId, Counter>, table: FtsTable, frecency: FrecencyTable,
                  words: seq<string>, word: string, rows: seq<ResourceId>)
    requires Tallied(tally, table, frecency, words)
    requires forall id :: id in rows <==> Hit(table, frecency, word, id)
    requires NoDuplicates(rows)
    ensures forall k :: 0 <= k < |rows| ==> rows[k] in frecency
    ensures Tallied(BumpRows(tally, frecency, rows), table, frecency, words + [word])
  {
    assert forall k :: 0 <= k < |rows| ==> rows[k] in frecency by {
      forall k | 0 <= k < |rows| ensures rows[k] in frecency {
        assert rows[k] in rows;
      }
    }
    BumpRowsEffect(tally, frecency, rows);
    forall id ensures MatchCount(table, frecency, words + [word], id) ==
      MatchCount(table, frecency, words, id) + (if Hit(table, frecency, word, id) then 1 else 0)
    {
      MatchCountSnoc(table, frecency, words, word, id);
    }
  }

  /** At the end of the loop, a counter equal to the number of words means every word was found. */
  lemma TallyMatches(tally: map<ResourceId, Counter>, table: FtsTable, frecency: FrecencyTable,
                     words: seq<string>)
    requires Tallied(tally, table, frecency, words)
    ensures forall id :: (id in tally && tally[id].hits == |words|) <==>
      (id in frecency && AllWordsMatch(table, frecency, words, id))
    ensures forall id :: id in tally ==> id in frecency && tally[id].frecency == frecency[id]
  {
    forall id ensures (id in tally && tally[id].hits == |words|) <==>
      (id in frecency && AllWordsMatch(table, frecency, words, id))
    {
      MatchCountFull(table, frecency, words, id);
    }
  }

  predicate DistinctIds(m: seq<IdFrec>) {
    forall i, j :: 0 <= i < j < |m| ==> m[i].0 != m[j].0
  }

  /** Highest frecency first. */
  predicate SortedByFrecency(m: seq<IdFrec>) {
    forall i, j :: 0 <= i < j < |m| ==> m[i].1 >= m[j].1
  }

  /** The `filter_map` over the map: the ids whose counter equals the number of words. */
  method CollectMatches(tally: map<ResourceId, Counter>, len: nat) returns (m: seq<IdFrec>)
    ensures forall id, f :: (id, f) in m <==> id in tally && tally[id].hits == len && f == tally[id].frecency
    ensures DistinctIds(m)
  {
    m := [];
    var rest := tally.Keys;
    while rest != {}
      invariant rest <= tally.Keys
      invariant forall id, f :: (id, f) in m <==>
        id in tally.Keys - rest && tally[id].hits == len && f == tally[id].frecency
      invariant forall i :: 0 <= i < |m| ==> m[i].0 in tally.Keys - rest
      invariant DistinctIds(m)
      decreases |rest|
    {
      var id :| id in rest;
      if tally[id].hits == len {
        m := m + [(id, tally[id].frecency)];
      }
      rest := rest - {id};
    }
  }

  /** Inserts `e` before the first element of lower or equal frecency. */
  function Insert(s: seq<IdFrec>, e: IdFrec): (r: seq<IdFrec>)
    ensures multiset(r) == multiset(s) + multiset{e}
  {
    if s == [] then [e]
    else if e.1 >= s[0].1 then [e] + s
    else
      assert s == [s[0]] + s[1..];
      [s[0]] + Insert(s[1..], e)
  }

  lemma InsertMembers(s: seq<IdFrec>, e: IdFrec)
    ensures forall x :: x in Insert(s, e) <==> x in s || x == e
  {
    forall x ensures x in Insert(s, e) <==> x in s || x == e {
      assert x in Insert(s, e) <==> x in multiset(Insert(s, e));
      assert x in s <==> x in multiset(s);
    }
  }

  lemma {:induction false} InsertSorted(s: seq<IdFrec>, e: IdFrec)
    requires SortedByFrecency(s)
    ensures SortedByFrecency(Insert(s, e))
  {
    if s != [] && e.1 < s[0].1 {
      var t := Insert(s[1..], e);
      InsertSorted(s[1..], e);
      InsertMembers(s[1..], e);
      forall j | 0 <= j < |t| ensures t[j].1 <= s[0].1 {
        assert t[j] in t;
      }
    }
  }

  lemma {:induction false} InsertDistinct(s: seq<IdFrec>, e: IdFrec)
    requires DistinctIds(s)
    requires forall x :: x in s ==> x.0 != e.0
    ensures DistinctIds(Insert(s, e))
  {
    if s != [] && e.1 < s[0].1 {
      var t := Insert(s[1..], e);
      InsertDistinct(s[1..], e);
      InsertMembers(s[1..], e);
      forall j | 0 <= j < |t| ensures t[j].0 != s[0].0 {
        assert t[j] in t;
        if t[j] != e {
          var k :| 0 <= k < |s[1..]| && s[1..][k] == t[j];
          assert s[k + 1] == t[j];
        }
      }
    }
  }

  /** `sort_by` on the frecency, highest first (the order of equal frecencies is unspecified). */
  function SortByFrecency(m: seq<IdFrec>): (r: seq<IdFrec>)
    ensures multiset(r) == multiset(m)
    ensures SortedByFrecency(r)
  {
    if m == [] then []
    else
      assert m == m[..|m| - 1] + [m[|m| - 1]];
      var t := SortByFrecency(m[..|m| - 1]);
      InsertSorted(t, m[|m| - 1]);
      Insert(t, m[|m| - 1])
  }

  /** Sorting keeps the ids distinct. */
  lemma {:induction false} SortKeepsDistinctIds(m: seq<IdFrec>)
    requires DistinctIds(m)
    ensures DistinctIds(SortByFrecency(m))
  {
    if m != [] {
      var init := m[..|m| - 1];
      var e := m[|m| - 1];
      var t := SortByFrecency(init);
      SortKeepsDistinctIds(init);
      forall x | x in t ensures x.0 != e.0 {
        assert x in multiset(t);
        assert x in multiset(init);
        var k :| 0 <= k < |init| && init[k] == x;
        assert m[k] == x;
      }
      InsertDistinct(t, e);
    }
  }

  /** Sorting keeps the elements. */
  lemma SortMembers(m: seq<IdFrec>)
    ensures forall x :: x in SortByFrecency(m) <==> x in m
  {
    forall x ensures x in SortByFrecency(m) <==> x in m {
      assert x in SortByFrecency(m) <==> x in multiset(SortByFrecency(m));
      assert x in m <==> x in multiset(m);
    }
  }

  /**
   * `search`: the objects that have a row for every query word (its prefix
   * when it is too long), with their frecency, highest frecency first.
   */
  method Search(fts: Fts, table: FtsTable, frecency: FrecencyTable, text: string)
    returns (matches: seq<IdFrec>)
    requires IsAscii(text)
    ensures forall id, f :: (id, f) in matches <==>
      id in frecency && AllWordsMatch(table, frecency, QueryWords(fts, text), id) && f == frecency[id]
    ensures DistinctIds(matches)
    ensures SortedByFrecency(matches)
  {
    var tally, len := TallyQuery(fts, table, frecency, text);
    TallyMatches(tally, table, frecency, QueryWords(fts, text));
    var found := CollectMatches(tally, len);
    matches := SortByFrecency(found);
    SortKeepsDistinctIds(found);
    SortMembers(found);
  }

  /** The word loop of `search`: one lookup per query word, each row bumping its id's counter. */
  method TallyQuery(fts: Fts, table: FtsTable, frecency: FrecencyTable, text: string)
    returns (tally: map<ResourceId, Counter>, len: nat)
    requires IsAscii(text)
    ensures Tallied(tally, table, frecency, QueryWords(fts, text))
    ensures len == |QueryWords(fts, text)|
  {
    tally := map[];
    var words := PreprocessText(text);
    ghost var q := QueryWords(fts, text);
    len := |words|;
    var wi := 0;
    while wi < |words|
      invariant 0 <= wi <= |words|
      invariant Tallied(tally, table, frecency, q[..wi])
    {
      var word := Truncate(words[wi], fts.maxSubstringLen);
      var rows := LookupRows(table, frecency, word);
      TallyRound(tally, table, frecency, q, wi, rows);
      tally := TallyRows(tally, rows, frecency);
      wi := wi + 1;
    }
    assert q[..wi] == q;
  }

  // ---------------------------------------------------------------------
  // Properties of search

  /** Repeating a query word does not change which objects match. */
  lemma RepeatedWordSameMatches(table: FtsTable, frecency: FrecencyTable, words: seq<string>, k: nat,
                                id: ResourceId)
    requires k < |words|
    ensures AllWordsMatch(table, frecency, words + [words[k]], id) <==>
      AllWordsMatch(table, frecency, words, id)
  {
    var ext := words + [words[k]];
    if AllWordsMatch(table, frecency, words, id) {
      forall j | 0 <= j < |ext| ensures Hit(table, frecency, ext[j], id) {
        if j == |words| {
          assert ext[j] == words[k];
        } else {
          assert ext[j] == words[j];
        }
      }
    }
    if AllWordsMatch(table, frecency, ext, id) {
      forall j | 0 <= j < |words| ensures Hit(table, frecency, words[j], id) {
        assert ext[j] == words[j];
      }
    }
  }

  /** Adding a word to the query can only narrow the matches. */
  lemma MoreWordsFewerMatches(table: FtsTable, frecency: FrecencyTable, words: seq<string>, w: string,
                              id: ResourceId)
    requires AllWordsMatch(table, frecency, words + [w], id)
    ensures |words| > 0 ==> AllWordsMatch(table, frecency, words, id)
    ensures Hit(table, frecency, w, id)
  {
    assert (words + [w])[|words|] == w;
    forall j | 0 <= j < |words| ensures Hit(table, frecency, words[j], id) {
      assert (words + [w])[j] == words[j];
    }
  }

  /** Every query word, cut to the n-gram bound, is an n-gram of the text it comes from. */
  lemma TruncatedWordIsGram(fts: Fts, text: string, k: nat)
    requires fts.maxSubstringLen >= 1
    requires k < |PreprocessText(text)|
    ensures QueryWords(fts, text)[k] in NgramsOf(text, fts.maxSubstringLen)
  {
    var m := fts.maxSubstringLen;
    var words := PreprocessText(text);
    var w := words[k];
    assert w in words && w != [];
    var x := Truncate(w, m);
    assert QueryWords(fts, text)[k] == x;
    assert 1 <= |x| <= m && x == w[0..|x|];
    NgramsComplete(text, m, w, 0, |x|);
  }

  /**
   * An object whose text was added is found by a search for that same text:
   * every query word is one of the stored n-grams.
   */
  lemma AddedTextIsFound(fts: Fts, table: FtsTable, frecency: FrecencyTable, id: ResourceId, text: string)
    requires fts.maxSubstringLen >= 1
    requires id in frecency
    requires |PreprocessText(text)| > 0
    requires forall g :: g in NgramsOf(text, fts.maxSubstringLen) ==> FtsEntry(id, g) in table
    ensures AllWordsMatch(table, frecency, QueryWords(fts, text), id)
  {
    var q := QueryWords(fts, text);
    forall k | 0 <= k < |q| ensures Hit(table, frecency, q[k], id) {
      TruncatedWordIsGram(fts, text, k);
    }
  }
}
