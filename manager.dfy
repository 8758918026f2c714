/**
 * The resource manager of src/manager.rs: the index of resources (SQLite
 * tables `resources`, `tags` and `fts`), its metadata cache, and the
 * operations that create, update, delete, walk and query resources.
 *
 * The database is the fields of `Manager`. A transaction is the set of new
 * table values computed by an operation; committing it is assigning those
 * values to the fields, and an operation that fails before the commit
 * changes nothing. The content store (file_store.rs) is not part of this
 * model: what it answers is the parameter `store`.
 */
module ResourceManager {
  import opened Wrappers
  import opened Common
  import opened Tokenizer
  import opened FtsIndex
  import opened ResourceTree
  import Indexer
  import Scorer

  /** The text index of `Manager::new`: n-grams of at most 5 characters. */
  const FTS: Fts := Fts(5)

  /** The error of the `INSERT INTO resources` of an id that is already stored. */
  const DUPLICATE_ID: StoreError := Sql("UNIQUE constraint failed: resources.id")

  /** The content of a new default variant, as the indexers read it: JSON, or None when it does not parse. */
  datatype VariantContent = VariantContent(json: Option<Indexer.Json>)

  /**
   * What the content store answers during `create` or `update`: first when
   * the parent's list of children is rewritten, then when the resource
   * itself is written.
   */
  datatype StoreAnswers = StoreAnswers(container: Outcome, write: Outcome)

  // ---------------------------------------------------------------------
  // Guards

  /** `name.trim().is_empty()`, the guard of the queries. */
  predicate IsBlank(s: string) {
    Trim(s) == []
  }

  /** A string trims to nothing exactly when it is all whitespace. */
  lemma {:induction false} BlankMeansWhitespace(s: string)
    ensures IsBlank(s) <==> forall i :: 0 <= i < |s| ==> IsWhitespace(s[i])
    decreases |s|
  {
    if s != [] && IsWhitespace(s[0]) {
      BlankMeansWhitespace(s[1..]);
      assert forall i :: 1 <= i < |s| ==> s[i] == s[1..][i - 1];
    } else if s != [] && IsWhitespace(s[|s| - 1]) {
      BlankMeansWhitespace(s[..|s| - 1]);
      assert forall i :: 0 <= i < |s| - 1 ==> s[i] == s[..|s| - 1][i];
    } else if s != [] {
      assert !IsWhitespace(s[0]);
    }
  }

  // ---------------------------------------------------------------------
  // The text index of a resource

  /** The rows of `tx` that do not belong to one of `ids`: what the delete cascade leaves. */
  function RowsWithout(tx: FtsTable, ids: set<ResourceId>): (r: FtsTable)
    ensures forall e :: e in r <==> e in tx && e.id !in ids
  {
    set e | e in tx && e.id !in ids
  }

  lemma MapMinusTwice<V>(m: map<ResourceId, V>, ids: set<ResourceId>, x: ResourceId)
    ensures m - ids - {x} == m - (ids + {x})
  {
  }

  /** Dropping the rows of a set of ids, then of one more id, drops the rows of both. */
  lemma RowsWithoutTwice(tx: FtsTable, ids: set<ResourceId>, x: ResourceId)
    ensures RowsWithout(RowsWithout(tx, ids), {x}) == RowsWithout(tx, ids + {x})
  {
  }

  /** The rows `create_metadata` adds for the name of a resource. */
  function NameRows(meta: ObjectMetadata): (r: FtsTable)
    ensures forall e :: e in r ==> e.id == meta.id
    ensures forall g :: g in NgramsOf(meta.name, FTS.maxSubstringLen) ==> FtsEntry(meta.id, g) in r
  {
    var grams := NgramsOf(meta.name, FTS.maxSubstringLen);
    assert forall g :: g in grams ==> exists k :: 0 <= k < |grams| && grams[k] == g;
    EntriesOf(meta.id, grams)
  }

  /** The rows every indexer, in order, adds for the JSON value `v`. */
  function IndexerRows(indexers: seq<Indexer.FlatJsonIndexer>, id: ResourceId, v: Indexer.Json): (r: FtsTable)
    ensures forall e :: e in r ==> e.id == id
  {
    if indexers == [] then {}
    else
      IndexerRows(indexers[..|indexers| - 1], id, v)
      + Indexer.EntriesOfTexts(id, Indexer.IndexedTexts(indexers[|indexers| - 1], v), FTS.maxSubstringLen)
  }

  /** One indexer's rows join those of the indexers before it. */
  lemma IndexerStep(indexers: seq<Indexer.FlatJsonIndexer>, k: nat, id: ResourceId, v: Indexer.Json,
                    tx0: FtsTable, tx: FtsTable, tx': FtsTable)
    requires k < |indexers|
    requires tx == tx0 + IndexerRows(indexers[..k], id, v)
    requires tx' == tx + Indexer.EntriesOfTexts(id, Indexer.IndexedTexts(indexers[k], v), FTS.maxSubstringLen)
    ensures tx' == tx0 + IndexerRows(indexers[..k + 1], id, v)
  {
    assert indexers[..k + 1][..k] == indexers[..k];
  }

  /**
   * `update_text_index`: containers are not indexed; otherwise every
   * indexer reads the content, and content that is not JSON is an error
   * as soon as there is one indexer.
   */
  function TextIndexResult(indexers: seq<Indexer.FlatJsonIndexer>, meta: ObjectMetadata,
                           content: VariantContent, tx: FtsTable): Result<FtsTable>
  {
    if meta.kind == Container || indexers == [] then Ok(tx)
    else
      match content.json
      case None => Err(Indexer.NOT_JSON)
      case Some(v) => Ok(tx + IndexerRows(indexers, meta.id, v))
  }

  /** The indexers can read the content: its indexed strings are ASCII. */
  predicate Indexable(indexers: seq<Indexer.FlatJsonIndexer>, content: Option<VariantContent>) {
    content.Some? && content.value.json.Some? ==>
      forall k :: 0 <= k < |indexers| ==> Indexer.ContentAscii(indexers[k], content.value.json.value)
  }

  // ---------------------------------------------------------------------
  // Create and update as transactions

  /**
   * The steps of `create` after the container check, on the tables `t` and
   * `tx`: the insertion (which fails for a stored id), the parent's list of
   * children in the content store (not for the root), the text index, and
   * the write of the resource. The result is the committed tables or the
   * first error.
   */
  function StoreResult(t: Table, tx: FtsTable, indexers: seq<Indexer.FlatJsonIndexer>, meta: ObjectMetadata,
                       content: Option<VariantContent>, store: StoreAnswers): Result<(Table, FtsTable)>
  {
    if meta.id in t then Err(DUPLICATE_ID)
    else if !IsRoot(meta.id) && store.container.Fail? then Err(store.container.error)
    else
      var named := tx + NameRows(meta);
      var indexed := if content.Some? then TextIndexResult(indexers, meta, content.value, named) else Ok(named);
      if indexed.Err? then Err(indexed.error)
      else if store.write.Fail? then Err(store.write.error)
      else Ok((t[meta.id := meta], indexed.value))
  }

  /** The index rows a stored resource brings: those of its name, and those of its JSON content unless it is a container. */
  function NewRows(indexers: seq<Indexer.FlatJsonIndexer>, meta: ObjectMetadata, content: Option<VariantContent>): (r: FtsTable)
    ensures forall e :: e in r ==> e.id == meta.id
  {
    NameRows(meta) +
      if content.Some? && content.value.json.Some? && meta.kind != Container
      then IndexerRows(indexers, meta.id, content.value.json.value)
      else {}
  }

  /** What the steps of `create` pass through and what they commit, when they succeed. */
  lemma StoreResultOk(t: Table, tx: FtsTable, indexers: seq<Indexer.FlatJsonIndexer>, meta: ObjectMetadata,
                      content: Option<VariantContent>, store: StoreAnswers)
    requires StoreResult(t, tx, indexers, meta, content, store).Ok?
    ensures meta.id !in t && (!IsRoot(meta.id) ==> store.container == Pass) && store.write == Pass
    ensures StoreResult(t, tx, indexers, meta, content, store).value
      == (t[meta.id := meta], tx + NewRows(indexers, meta, content))
  {
    var named := tx + NameRows(meta);
    var extra := if content.Some? && content.value.json.Some? && meta.kind != Container
                 then IndexerRows(indexers, meta.id, content.value.json.value) else {};
    assert tx + NewRows(indexers, meta, content) == named + extra;
    if content.Some? && meta.kind != Container {
      if indexers == [] {
        assert named + extra == named;
      } else {
        assert TextIndexResult(indexers, meta, content.value, named) == Ok(named + extra);
      }
    } else {
      assert named + extra == named;
    }
  }

  /** `create`: the container check, then the steps above on the current tables. */
  function CreateResult(t: Table, tx: FtsTable, indexers: seq<Indexer.FlatJsonIndexer>, meta: ObjectMetadata,
                        content: Option<VariantContent>, store: StoreAnswers): Result<(Table, FtsTable)>
  {
    match CheckContainerLeaf(t, meta.id, meta.parent)
    case Fail(e) => Err(e)
    case Pass => StoreResult(t, tx, indexers, meta, content, store)
  }

  /**
   * `update`: the container check, then the old row is deleted (its text
   * index rows go with it) and the steps of `create` follow.
   */
  function UpdateResult(t: Table, tx: FtsTable, indexers: seq<Indexer.FlatJsonIndexer>, meta: ObjectMetadata,
                        content: Option<VariantContent>, store: StoreAnswers): Result<(Table, FtsTable)>
  {
    match CheckContainerLeaf(t, meta.id, meta.parent)
    case Fail(e) => Err(e)
    case Pass => StoreResult(t - {meta.id}, RowsWithout(tx, {meta.id}), indexers, meta, content, store)
  }

  /**
   * A successful create stores the resource under a new id, below a known
   * container unless it is the root; the old rows stay and every new row is
   * the resource's own, among them every n-gram of its name.
   */
  lemma CreateMeaning(t: Table, tx: FtsTable, indexers: seq<Indexer.FlatJsonIndexer>, meta: ObjectMetadata,
                      content: Option<VariantContent>, store: StoreAnswers)
    requires CreateResult(t, tx, indexers, meta, content, store).Ok?
    ensures var (t', tx') := CreateResult(t, tx, indexers, meta, content, store).value;
      && meta.id !in t && t' == t[meta.id := meta]
      && (!IsRoot(meta.id) ==> IsContainerIn(t, meta.parent) && meta.parent != meta.id)
      && tx <= tx'
      && (forall e :: e in tx' && e !in tx ==> e.id == meta.id)
      && (forall g :: g in NgramsOf(meta.name, FTS.maxSubstringLen) ==> FtsEntry(meta.id, g) in tx')
      && store.write == Pass
  {
    StoreResultOk(t, tx, indexers, meta, content, store);
  }

  /** Creating an id that is already stored fails, whatever the store answers. */
  lemma CreateExistingFails(t: Table, tx: FtsTable, indexers: seq<Indexer.FlatJsonIndexer>, meta: ObjectMetadata,
                            content: Option<VariantContent>, store: StoreAnswers)
    requires meta.id in t
    ensures CreateResult(t, tx, indexers, meta, content, store).Err?
  {
  }

  /**
   * A successful update replaces the row of the id (or adds it), and drops
   * every earlier text index row of the id: the rows of the id are then only
   * the ones of the new name and content.
   */
  lemma UpdateReplaces(t: Table, tx: FtsTable, indexers: seq<Indexer.FlatJsonIndexer>, meta: ObjectMetadata,
                       content: Option<VariantContent>, store: StoreAnswers)
    requires UpdateResult(t, tx, indexers, meta, content, store).Ok?
    ensures var (t', tx') := UpdateResult(t, tx, indexers, meta, content, store).value;
      && t' == t[meta.id := meta]
      && (forall e :: e in tx && e.id != meta.id ==> e in tx')
      && (forall e :: e in tx' && e.id != meta.id ==> e in tx)
      && (forall e :: e in tx' && e.id == meta.id ==>
            e in NameRows(meta) || (content.Some? && content.value.json.Some? &&
                                     e in IndexerRows(indexers, meta.id, content.value.json.value)))
  {
    var t0 := t - {meta.id};
    var tx0 := RowsWithout(tx, {meta.id});
    assert t0[meta.id := meta] == t[meta.id := meta];
    StoreResultOk(t0, tx0, indexers, meta, content, store);
  }

  /** The root of `create_root`: a container named "/" that is its own parent. */
  function RootMetadata(now: Timestamp): (m: ObjectMetadata)
    ensures m.id == ROOT_ID && m.parent == ROOT_ID && m.kind == Container
    ensures m.name == "/" && m.mimeType == "inode/directory" && m.size == 0 && m.tags.None?
  {
    NewMetadata(ROOT_ID, ROOT_ID, Container, 0, "/", "inode/directory", None, now)
  }

  /** The root can be created in an empty index, whatever the parent update would answer. */
  lemma RootCreatableWhenEmpty(indexers: seq<Indexer.FlatJsonIndexer>, now: Timestamp, container: Outcome)
    ensures CreateResult(map[], {}, indexers, RootMetadata(now), None, StoreAnswers(container, Pass))
      == Ok((map[ROOT_ID := RootMetadata(now)], NameRows(RootMetadata(now))))
  {
    assert CheckContainerLeaf(map[], ROOT_ID, ROOT_ID) == Pass;
    assert {} + NameRows(RootMetadata(now)) == NameRows(RootMetadata(now));
  }

  /** A walk that ends well never reaches an id missing from the table, so a new row does not change it. */
  lemma {:induction false} WalkFrame(t: Table, m: ObjectMetadata, current: ResourceId, visited: set<ResourceId>)
    requires m.id !in t
    requires Walk(t, current, visited).Ok?
    ensures Walk(t[m.id := m], current, visited) == Walk(t, current, visited)
    decreases |t.Keys - visited|
  {
    var t' := t[m.id := m];
    assert current !in visited && current in t;
    if !IsRoot(current) {
      assert t.Keys - (visited + {current}) == (t.Keys - visited) - {current};
      var p := t[current].parent;
      assert Walk(t, current, visited) == Extend(Walk(t, p, visited + {current}), [t[current]]);
      WalkFrame(t, m, p, visited + {current});
      assert Walk(t', current, visited) == Extend(Walk(t', p, visited + {current}), [t'[current]]);
    }
  }

  /**
   * After a successful create of a resource below a parent that has a full
   * path, the path of the new resource is its parent's path followed by the
   * resource.
   */
  lemma CreatedPath(t: Table, tx: FtsTable, indexers: seq<Indexer.FlatJsonIndexer>, meta: ObjectMetadata,
                    content: Option<VariantContent>, store: StoreAnswers)
    requires CreateResult(t, tx, indexers, meta, content, store).Ok?
    requires !IsRoot(meta.id) && FullPath(t, meta.parent).Ok?
    ensures FullPath(CreateResult(t, tx, indexers, meta, content, store).value.0, meta.id)
      == Extend(FullPath(t, meta.parent), [meta])
  {
    CreateMeaning(t, tx, indexers, meta, content, store);
    var t' := t[meta.id := meta];
    assert t'[meta.id] == meta && {} + {meta.id} == {meta.id};
    assert Walk(t', meta.id, {}) == Extend(Walk(t', meta.parent, {meta.id}), [meta]);
    WalkFromParent(t, meta, meta.parent);
  }

  /** The walk from the parent avoids the new id, so marking it visited changes nothing. */
  lemma WalkFromParent(t: Table, m: ObjectMetadata, p: ResourceId)
    requires m.id !in t && Walk(t, p, {}).Ok?
    ensures Walk(t[m.id := m], p, {m.id}) == Walk(t, p, {})
  {
    WalkFrame(t, m, p, {});
    WalkVisitedFrame(t[m.id := m], p, {}, m.id, t);
    assert {} + {m.id} == {m.id};
  }

  /**
   * Marking visited an id the walk never reaches changes nothing: on the
   * table `t` the walk from `current` ends well, and `x` is not in `t`.
   */
  lemma {:induction false} WalkVisitedFrame(t': Table, current: ResourceId, visited: set<ResourceId>,
                                            x: ResourceId, t: Table)
    requires x !in t && x in t' && t' == t[x := t'[x]]
    requires Walk(t, current, visited).Ok?
    requires x !in visited
    ensures Walk(t', current, visited + {x}) == Walk(t', current, visited)
    decreases |t.Keys - visited|
  {
    assert current !in visited && current in t && current != x;
    if !IsRoot(current) {
      assert t.Keys - (visited + {current}) == (t.Keys - visited) - {current};
      var p := t[current].parent;
      assert Walk(t, current, visited) == Extend(Walk(t, p, visited + {current}), [t[current]]);
      WalkVisitedFrame(t', p, visited + {current}, x, t);
      assert visited + {current} + {x} == visited + {x} + {current};
      assert t'.Keys - (visited + {x} + {current}) == (t'.Keys - (visited + {x})) - {current};
      assert t'.Keys - (visited + {current}) == (t'.Keys - visited) - {current};
      assert Walk(t', current, visited + {x}) == Extend(Walk(t', p, visited + {x} + {current}), [t'[current]]);
      assert Walk(t', current, visited) == Extend(Walk(t', p, visited + {current}), [t'[current]]);
    }
  }

  // ---------------------------------------------------------------------
  // Rankings: `ORDER BY ... DESC` and `LIMIT`

  /** The ids are in the map and in non-increasing order of their keys. */
  predicate RankedBy(key: map<ResourceId, int>, r: seq<ResourceId>) {
    && (forall i :: 0 <= i < |r| ==> r[i] in key)
    && (forall i, j :: 0 <= i < j < |r| ==> key[r[i]] >= key[r[j]])
  }

  /**
   * `r` is what `SELECT ... ORDER BY key DESC LIMIT count` returns from
   * `pool`: as many distinct ids as the limit allows, ranked, and no id left
   * out ranks above one that was kept.
   */
  predicate TopRanked(key: map<ResourceId, int>, pool: set<ResourceId>, r: seq<ResourceId>, count: nat)
    requires pool <= key.Keys
  {
    && |r| == Min(count, |pool|)
    && (forall i :: 0 <= i < |r| ==> r[i] in pool)
    && NoDuplicates(r)
    && RankedBy(key, r)
    && (forall x, i :: x in pool && x !in r && 0 <= i < |r| ==> key[x] <= key[r[i]])
  }

  /** The id with the largest key. */
  method MaxBy(key: map<ResourceId, int>, s: set<ResourceId>) returns (best: ResourceId)
    requires s != {} && s <= key.Keys
    ensures best in s
    ensures forall x :: x in s ==> key[x] <= key[best]
  {
    best :| best in s;
    var rest := s - {best};
    while rest != {}
      invariant rest <= s && best in s
      invariant forall x :: x in s && x !in rest ==> key[x] <= key[best]
      decreases rest
    {
      var x :| x in rest;
      if key[x] > key[best] {
        best := x;
      }
      rest := rest - {x};
    }
  }

  /** The ranking of the SQL engine, by repeated selection of the largest key. */
  method TopBy(key: map<ResourceId, int>, pool: set<ResourceId>, count: nat) returns (r: seq<ResourceId>)
    requires pool <= key.Keys
    ensures TopRanked(key, pool, r, count)
    ensures count >= |pool| ==> forall x :: x in pool ==> x in r
  {
    r := [];
    var rest := pool;
    while |r| < count && rest != {}
      invariant rest <= pool
      invariant forall x :: x in pool ==> (x in rest <==> x !in r)
      invariant forall i :: 0 <= i < |r| ==> r[i] in pool
      invariant |r| + |rest| == |pool|
      invariant |r| <= count
      invariant NoDuplicates(r)
      invariant RankedBy(key, r)
      invariant forall x, i :: x in rest && 0 <= i < |r| ==> key[x] <= key[r[i]]
      decreases |rest|
    {
      var best := MaxBy(key, rest);
      assert rest == (rest - {best}) + {best};
      r := r + [best];
      rest := rest - {best};
    }
  }

  /** The pairs of `SELECT id, frecency(scorer)`: each id with its frecency. */
  function WithFrecency(ids: seq<ResourceId>, frecency: FrecencyTable): (r: seq<IdFrec>)
    requires forall i :: 0 <= i < |ids| ==> ids[i] in frecency
    ensures |r| == |ids|
    ensures forall i :: 0 <= i < |r| ==> r[i] == (ids[i], frecency[ids[i]])
  {
    seq(|ids|, i requires 0 <= i < |ids| => (ids[i], frecency[ids[i]]))
  }

  /** The modification date of each resource, the key of `last_modified`. */
  function ModifiedKey(t: Table): (key: map<ResourceId, int>)
    ensures key.Keys == t.Keys
    ensures forall x :: x in t ==> key[x] == t[x].modified
  {
    map x | x in t :: t[x].modified
  }

  // ---------------------------------------------------------------------
  // Name and tag queries

  predicate HasTag(m: ObjectMetadata, tag: string) {
    m.tags.Some? && tag in m.tags.value
  }

  /** A row `by_name(name, tag)` should return: the name matches, and the tag when one is given. */
  predicate ByNameRow(m: ObjectMetadata, name: string, tag: Option<string>) {
    m.name == name && (tag.None? || HasTag(m, tag.value))
  }

  /**
   * The row `by_name` returns as written: with a tag, the query text says
   * `tags.tag = ? AND name = ?` but the name is bound first and the tag
   * second, so the name is matched against the tags and the tag against
   * the name.
   */
  predicate ByNameRowAsWritten(m: ObjectMetadata, name: string, tag: Option<string>) {
    if tag.None? then m.name == name else HasTag(m, name) && m.name == tag.value
  }

  /**
   * The swapped binds: the query as written answers the question with name
   * and tag exchanged, so a resource named "photo" tagged "holiday" is
   * missed by `by_name("photo", Some("holiday"))`.
   */
  lemma ByNameBindsSwapped(m: ObjectMetadata, name: string, tag: string)
    ensures ByNameRowAsWritten(m, name, None) == ByNameRow(m, name, None)
    ensures ByNameRowAsWritten(m, name, Some(tag)) == ByNameRow(m, tag, Some(name))
    ensures var photo := ObjectMetadata(1, ROOT_ID, Leaf, 0, "photo", "image/png", Some(["holiday"]), 0, 0);
      ByNameRow(photo, "photo", Some("holiday")) && !ByNameRowAsWritten(photo, "photo", Some("holiday"))
  {
    var photo := ObjectMetadata(1, ROOT_ID, Leaf, 0, "photo", "image/png", Some(["holiday"]), 0, 0);
    assert "photo" != "holiday" by {
      assert "photo"[0] != "holiday"[0];
    }
    assert "photo" !in ["holiday"];
  }

  // ---------------------------------------------------------------------
  // The manager

  class Manager {
    /** The `resources` and `tags` tables: the metadata stored for each id. */
    var resources: Table
    /** The frecency of each resource's score. */
    var frecency: FrecencyTable
    /** The `fts` table. */
    var fts: FtsTable
    /** The metadata cache; its capacity is not modelled. */
    var cache: map<ResourceId, ObjectMetadata>
    var indexers: seq<Indexer.FlatJsonIndexer>

    /** The tables agree: rows under their own ids, a frecency for every resource, and index rows of stored resources. */
    ghost predicate TablesValid()
      reads this
    {
      && WellKeyed(resources)
      && frecency.Keys == resources.Keys
      && (forall e :: e in fts ==> e.id in resources)
    }

    /** ... and the cache holds only what the tables hold. */
    ghost predicate Valid()
      reads this
    {
      && TablesValid()
      && (forall id :: id in cache ==> id in resources && cache[id] == resources[id])
    }

    /** `Manager::new` on an empty database. */
    constructor ()
      ensures Valid()
      ensures resources == map[] && frecency == map[] && fts == {} && cache == map[] && indexers == []
    {
      resources := map[];
      frecency := map[];
      fts := {};
      cache := map[];
      indexers := [];
    }

    /** `add_indexer`: the indexer runs after the ones added before it. */
    method AddIndexer(ix: Indexer.FlatJsonIndexer)
      requires Valid()
      modifies this
      ensures Valid()
      ensures indexers == old(indexers) + [ix]
      ensures resources == old(resources) && frecency == old(frecency) && fts == old(fts) && cache == old(cache)
    {
      indexers := indexers + [ix];
    }

    /** `evict_from_cache`. */
    method EvictFromCache(id: ResourceId)
      modifies this
      ensures cache == old(cache) - {id}
      ensures resources == old(resources) && frecency == old(frecency) && fts == old(fts) && indexers == old(indexers)
    {
      cache := cache - {id};
    }

    /** `update_cache`. */
    method UpdateCache(meta: ObjectMetadata)
      modifies this
      ensures cache == old(cache)[meta.id := meta]
      ensures resources == old(resources) && frecency == old(frecency) && fts == old(fts) && indexers == old(indexers)
    {
      cache := cache[meta.id := meta];
    }

    /** `has_object`. */
    function HasObject(id: ResourceId): (b: bool)
      reads this
      ensures b <==> id in resources
    {
      id in resources
    }

    /** `resource_count`. */
    function ResourceCount(): (n: nat)
      reads this
      ensures n == |resources.Keys|
    {
      |resources.Keys|
    }

    /** `is_container`. */
    function IsContainer(id: ResourceId): (b: bool)
      reads this
      ensures b <==> id in resources && resources[id].kind == Container
    {
      IsContainerIn(resources, id)
    }

    /**
     * `get_metadata`: from the cache, else from the table, putting it in the
     * cache. A resource missing from the table is reported missing.
     */
    method GetMetadata(id: ResourceId) returns (r: Result<ObjectMetadata>)
      requires Valid()
      modifies this
      ensures Valid()
      ensures resources == old(resources) && frecency == old(frecency) && fts == old(fts) && indexers == old(indexers)
      ensures id in resources ==> r == Ok(resources[id]) && cache == old(cache)[id := resources[id]]
      ensures id !in resources ==> r == Err(NoSuchResource) && cache == old(cache)
    {
      if id in cache {
        assert cache == cache[id := cache[id]];
        return Ok(cache[id]);
      }
      if id in resources {
        var meta := resources[id];
        UpdateCache(meta);
        return Ok(meta);
      }
      return Err(NoSuchResource);
    }

    /**
     * `visit`: the score takes the visit, the stored frecency of a stored
     * resource becomes the new score's, and the cached metadata is dropped.
     */
    method Visit(id: ResourceId, score: Scorer.ObjectScore, visit: Scorer.VisitEntry, now: Timestamp) returns (r: Outcome)
      requires Valid() && score.Valid()
      modifies this, score
      ensures Valid() && score.Valid()
      ensures score.entries == Scorer.Pushed(old(score.entries), visit) && score.visitCount == old(score.visitCount) + 1
      ensures frecency == if id in resources then old(frecency)[id := score.Frecency(now)] else old(frecency)
      ensures cache == old(cache) - {id}
      ensures resources == old(resources) && fts == old(fts) && indexers == old(indexers)
      ensures r == Pass
    {
      score.Add(visit);
      if id in resources {
        frecency := frecency[id := score.Frecency(now)];
      }
      EvictFromCache(id);
      return Pass;
    }

    /**
     * `get_full_path`: the walk up the parents, stopping at the root, with
     * a cycle reported as soon as an id comes back; the rows collected from
     * the resource upwards are reversed at the end.
     */
    method GetFullPath(id: ResourceId) returns (r: Result<seq<ObjectMetadata>>)
      requires Valid()
      modifies this
      ensures Valid()
      ensures r == FullPath(resources, id)
      ensures resources == old(resources) && frecency == old(frecency) && fts == old(fts) && indexers == old(indexers)
      ensures old(cache).Keys <= cache.Keys
    {
      ghost var t := resources;
      ghost var goal := FullPath(t, id);
      var res: seq<ObjectMetadata> := [];
      var current := id;
      var visited: set<ResourceId> := {};
      ExtendEmpty(goal);
      while true
        invariant Valid() && resources == t
        invariant frecency == old(frecency) && fts == old(fts) && indexers == old(indexers)
        invariant old(cache).Keys <= cache.Keys
        invariant goal == Extend(Walk(t, current, visited), Reversed(res))
        decreases |t.Keys - visited|
      {
        if current in visited {
          return Err(ResourceCycle);
        }
        var meta := PathRound(current, goal, visited, res);
        if meta.Err? {
          return Err(meta.error);
        }
        assert t.Keys - (visited + {current}) == (t.Keys - visited) - {current};
        visited := visited + {current};
        res := res + [meta.value];
        if IsRoot(current) {
          break;
        }
        current := meta.value.parent;
      }
      return Ok(Reversed(res));
    }

    /** One round of the `get_full_path` loop: the lookup of `current`, and where the walk goes on. */
    method PathRound(current: ResourceId, ghost goal: Result<seq<ObjectMetadata>>,
                     ghost visited: set<ResourceId>, res: seq<ObjectMetadata>)
      returns (meta: Result<ObjectMetadata>)
      requires Valid() && current !in visited
      requires goal == Extend(Walk(resources, current, visited), Reversed(res))
      modifies this
      ensures Valid()
      ensures resources == old(resources) && frecency == old(frecency) && fts == old(fts) && indexers == old(indexers)
      ensures old(cache).Keys <= cache.Keys
      ensures meta.Err? ==> goal == Err(meta.error)
      ensures meta.Ok? ==> current in resources && meta.value == resources[current]
      ensures meta.Ok? && IsRoot(current) ==> goal == Ok(Reversed(res + [meta.value]))
      ensures meta.Ok? && !IsRoot(current) ==>
        goal == Extend(Walk(resources, meta.value.parent, visited + {current}), Reversed(res + [meta.value]))
    {
      meta := GetMetadata(current);
      if meta.Ok? {
        WalkStep(resources, goal, current, visited, res);
      }
    }

    /**
     * `delete`: an unknown id fails; a leaf goes alone; a container goes with
     * everything reached from it through containers. Text index rows and
     * frecencies go with their resources (the delete cascade), and so do
     * the cache entries.
     */
    method Delete(id: ResourceId) returns (r: Outcome)
      requires Valid()
      modifies this
      ensures Valid() && indexers == old(indexers)
      ensures id !in old(resources) ==>
        r == Fail(NoSuchResource) && resources == old(resources) && fts == old(fts)
        && frecency == old(frecency) && cache == old(cache)
      ensures id in old(resources) ==>
        var gone := Removed(old(resources), id);
        && r == Pass
        && resources == old(resources) - gone
        && fts == RowsWithout(old(fts), gone)
        && frecency == old(frecency) - gone
        && cache == old(cache) - gone
    {
      var isContainer := IsContainer(id);
      var parent := ParentOf(resources, id);
      if parent.Err? {
        return Fail(parent.error);
      }
      var gone: set<ResourceId>;
      if !isContainer {
        gone := {id};
      } else {
        var toDelete := CollectSubtree(id);
        gone := toDelete + {id};
      }
      assert gone == Removed(resources, id);
      RemoveAll(gone);
      return Pass;
    }

    /**
     * The collection loop of `delete`: round by round, every child of the
     * current containers is collected, and the children that are
     * containers not seen before are the containers of the next round.
     */
    method CollectSubtree(id: ResourceId) returns (toDelete: set<ResourceId>)
      requires IsContainerIn(resources, id)
      ensures toDelete + {id} == Removed(resources, id)
    {
      var t := resources;
      toDelete := {};
      var containers: set<ResourceId> := {id};
      while true
        invariant containers <= toDelete + {id}
        invariant forall x :: x in containers ==> IsContainerIn(t, x)
        invariant forall x :: x in toDelete ==> x in t && Descendant(t, id, x)
        invariant forall y, z :: y in toDelete + {id} && y !in containers && IsContainerIn(t, y) && ChildOf(t, z, y) ==> z in toDelete
        decreases t.Keys - toDelete
      {
        var children := set x | x in t && t[x].parent in containers && t[x].parent != x;
        var newObj := set x | x in children && IsContainerIn(t, x) && x !in toDelete && x != id;
        forall x | x in children ensures Descendant(t, id, x) {
          var y := t[x].parent;
          if y == id {
            ChildIsDescendant(t, id, x);
          } else {
            DescendantStep(t, id, y, x);
          }
        }
        var before := toDelete;
        toDelete := toDelete + children;
        if newObj == {} {
          break;
        }
        var w :| w in newObj;
        assert w in t.Keys - before && w !in t.Keys - toDelete;
        containers := newObj;
      }
      var s := toDelete + {id};
      forall x | x in t && Descendant(t, id, x) ensures x in s {
        ClosedHoldsDescendants(t, id, s, x);
      }
    }

    /**
     * The deletion loop of `delete`: the collected resources go one by one,
     * with their index rows, frecencies and cache entries.
     */
    method RemoveAll(gone: set<ResourceId>)
      requires Valid()
      modifies this
      ensures Valid() && indexers == old(indexers)
      ensures resources == old(resources) - gone && fts == RowsWithout(old(fts), gone)
      ensures frecency == old(frecency) - gone && cache == old(cache) - gone
    {
      var rest := gone;
      ghost var done: set<ResourceId> := {};
      while rest != {}
        invariant Valid() && indexers == old(indexers)
        invariant done + rest == gone
        invariant resources == old(resources) - done && fts == RowsWithout(old(fts), done)
        invariant frecency == old(frecency) - done && cache == old(cache) - done
        decreases rest
      {
        var child :| child in rest;
        RemoveOne(child);
        RowsWithoutTwice(old(fts), done, child);
        MapMinusTwice(old(resources), done, child);
        MapMinusTwice(old(frecency), done, child);
        MapMinusTwice(old(cache), done, child);
        done := done + {child};
        rest := rest - {child};
      }
    }

    /** One round of the deletion loop: the resource goes with its rows, frecency and cache entry. */
    method RemoveOne(child: ResourceId)
      requires Valid()
      modifies this
      ensures Valid() && indexers == old(indexers)
      ensures resources == old(resources) - {child} && fts == RowsWithout(old(fts), {child})
      ensures frecency == old(frecency) - {child} && cache == old(cache) - {child}
    {
      resources := resources - {child};
      fts := RowsWithout(fts, {child});
      frecency := frecency - {child};
      cache := cache - {child};
    }

    /**
     * `update_text_index`: containers skip it; otherwise each indexer in
     * turn adds its rows, and the first error stops the update.
     */
    method UpdateTextIndex(meta: ObjectMetadata, content: VariantContent, tx0: FtsTable) returns (r: Result<FtsTable>)
      requires Indexable(indexers, Some(content))
      ensures r == TextIndexResult(indexers, meta, content, tx0)
    {
      if meta.kind == Container {
        return Ok(tx0);
      }
      if indexers == [] {
        assert tx0 + {} == tx0;
        return Ok(tx0);
      }
      var tx := tx0;
      for k := 0 to |indexers|
        invariant content.json.Some? ==> tx == tx0 + IndexerRows(indexers[..k], meta.id, content.json.value)
        invariant content.json.None? ==> k == 0
      {
        var res := Indexer.Index(indexers[k], meta.id, content.json, FTS, tx);
        if res.Err? {
          return Err(res.error);
        }
        IndexerStep(indexers, k, meta.id, content.json.value, tx0, tx, res.value);
        tx := res.value;
      }
      assert indexers[..|indexers|] == indexers;
      return Ok(tx);
    }

    /**
     * The steps of `create` and `update` after the container check, on the
     * tables `t` and `tx0` the operation starts from; the tables change only
     * at the commit, and the cache with them.
     */
    method StoreResource(t: Table, tx0: FtsTable, meta: ObjectMetadata, frec: nat,
                         content: Option<VariantContent>, store: StoreAnswers) returns (r: Outcome)
      requires TablesValid()
      requires forall x :: x in cache && x != meta.id ==> x in resources && cache[x] == resources[x]
      requires forall x :: x != meta.id ==> (x in t <==> x in resources)
      requires forall x :: x in t ==> x in resources && t[x] == resources[x]
      requires forall e :: e in tx0 ==> e.id in t
      requires IsAscii(meta.name) && Indexable(indexers, content)
      modifies this
      ensures indexers == old(indexers)
      ensures var spec := StoreResult(t, tx0, indexers, meta, content, store);
        && (spec.Err? ==>
              r == Fail(spec.error) && resources == old(resources) && fts == old(fts)
              && frecency == old(frecency) && cache == old(cache))
        && (spec.Ok? ==>
              r == Pass && Valid() && resources == spec.value.0 && fts == spec.value.1
              && frecency == old(frecency)[meta.id := frec] && cache == old(cache)[meta.id := meta])
    {
      var staged := StagedRows(t, tx0, meta, content, store);
      if staged.Err? {
        return Fail(staged.error);
      }
      Commit(t, staged.value, meta, frec);
      return Pass;
    }

    /**
     * The transaction of `create` and `update` up to the commit: the
     * insertion, the rows of the name, the parent's list of children and the
     * text index, then the write of the resource. Nothing is committed.
     */
    method StagedRows(t: Table, tx0: FtsTable, meta: ObjectMetadata,
                      content: Option<VariantContent>, store: StoreAnswers) returns (r: Result<FtsTable>)
      requires IsAscii(meta.name) && Indexable(indexers, content)
      ensures var spec := StoreResult(t, tx0, indexers, meta, content, store);
        && (spec.Err? <==> r.Err?)
        && (spec.Err? ==> r.error == spec.error)
        && (spec.Ok? ==> spec.value == (t[meta.id := meta], r.value))
      ensures r.Ok? ==> meta.id !in t && forall e :: e in r.value ==> e in tx0 || e.id == meta.id
    {
      if meta.id in t {
        return Err(DUPLICATE_ID);
      }
      var tx := AddText(FTS, meta.id, meta.name, tx0);
      assert tx == tx0 + NameRows(meta);
      if !IsRoot(meta.id) && store.container.Fail? {
        return Err(store.container.error);
      }
      if content.Some? {
        var indexed := UpdateTextIndex(meta, content.value, tx);
        if indexed.Err? {
          return Err(indexed.error);
        }
        tx := indexed.value;
      }
      if store.write.Fail? {
        return Err(store.write.error);
      }
      assert forall e :: e in tx ==> e in tx0 || e.id == meta.id by {
        if content.Some? && content.value.json.Some? {
          assert forall e :: e in IndexerRows(indexers, meta.id, content.value.json.value) ==> e.id == meta.id;
        }
      }
      return Ok(tx);
    }

    /** The commit: the new tables replace the old ones, and the metadata is cached. */
    method Commit(t: Table, tx: FtsTable, meta: ObjectMetadata, frec: nat)
      requires TablesValid()
      requires forall x :: x in cache && x != meta.id ==> x in resources && cache[x] == resources[x]
      requires forall x :: x != meta.id ==> (x in t <==> x in resources)
      requires forall x :: x in t ==> x in resources && t[x] == resources[x]
      requires meta.id !in t
      requires forall e :: e in tx ==> e.id in t || e.id == meta.id
      modifies this
      ensures Valid() && indexers == old(indexers)
      ensures resources == t[meta.id := meta] && fts == tx
      ensures frecency == old(frecency)[meta.id := frec] && cache == old(cache)[meta.id := meta]
    {
      resources := t[meta.id := meta];
      fts := tx;
      frecency := frecency[meta.id := frec];
      cache := cache[meta.id := meta];
    }

    /**
     * `create`: the container check, then the insertion, the parent's list
     * of children, the text index and the write to the content store; on
     * any error nothing is committed.
     */
    method Create(meta: ObjectMetadata, frec: nat, content: Option<VariantContent>, store: StoreAnswers) returns (r: Outcome)
      requires Valid()
      requires IsAscii(meta.name) && Indexable(indexers, content)
      modifies this
      ensures Valid() && indexers == old(indexers)
      ensures var spec := CreateResult(old(resources), old(fts), indexers, meta, content, store);
        && (spec.Err? ==>
              r == Fail(spec.error) && resources == old(resources) && fts == old(fts)
              && frecency == old(frecency) && cache == old(cache))
        && (spec.Ok? ==>
              r == Pass && resources == spec.value.0 && fts == spec.value.1
              && frecency == old(frecency)[meta.id := frec] && cache == old(cache)[meta.id := meta])
    {
      var check := CheckContainerLeaf(resources, meta.id, meta.parent);
      if check.Fail? {
        return Fail(check.error);
      }
      r := StoreResource(resources, fts, meta, frec, content, store);
    }

    /**
     * `update`: as `create`, after the old row and its text index rows are
     * deleted. The cache changes only with a commit, unlike `UpdateAsWritten`.
     */
    method Update(meta: ObjectMetadata, frec: nat, content: Option<VariantContent>, store: StoreAnswers) returns (r: Outcome)
      requires Valid()
      requires IsAscii(meta.name) && Indexable(indexers, content)
      modifies this
      ensures Valid() && indexers == old(indexers)
      ensures var spec := UpdateResult(old(resources), old(fts), indexers, meta, content, store);
        && (spec.Err? ==>
              r == Fail(spec.error) && resources == old(resources) && fts == old(fts)
              && frecency == old(frecency) && cache == old(cache))
        && (spec.Ok? ==>
              r == Pass && resources == spec.value.0 && fts == spec.value.1
              && frecency == old(frecency)[meta.id := frec] && cache == old(cache)[meta.id := meta])
    {
      var check := CheckContainerLeaf(resources, meta.id, meta.parent);
      if check.Fail? {
        return Fail(check.error);
      }
      r := StoreResource(resources - {meta.id}, RowsWithout(fts, {meta.id}), meta, frec, content, store);
    }

    /** `create_root`: the root container, created without content. */
    method CreateRoot(now: Timestamp, frec: nat, store: StoreAnswers) returns (r: Outcome)
      requires Valid()
      modifies this
      ensures Valid() && indexers == old(indexers)
      ensures var spec := CreateResult(old(resources), old(fts), indexers, RootMetadata(now), None, store);
        && (spec.Err? ==>
              r == Fail(spec.error) && resources == old(resources) && fts == old(fts)
              && frecency == old(frecency) && cache == old(cache))
        && (spec.Ok? ==>
              r == Pass && resources == spec.value.0 && fts == spec.value.1
              && frecency == old(frecency)[ROOT_ID := frec] && cache == old(cache)[ROOT_ID := RootMetadata(now)])
    {
      var root := RootMetadata(now);
      assert IsAscii(root.name);
      r := Create(root, frec, None, store);
    }

    /**
     * `create` as written: `create_metadata` puts the metadata in the cache
     * as soon as the row is inserted, before the steps that can still fail
     * and roll the insertion back.
     */
    method CreateAsWritten(meta: ObjectMetadata, frec: nat, content: Option<VariantContent>, store: StoreAnswers)
      returns (r: Outcome)
      requires Valid()
      requires IsAscii(meta.name) && Indexable(indexers, content)
      modifies this
      ensures indexers == old(indexers)
      ensures var spec := CreateResult(old(resources), old(fts), indexers, meta, content, store);
        && (spec.Err? ==> r == Fail(spec.error) && resources == old(resources) && fts == old(fts) && frecency == old(frecency))
        && (spec.Ok? ==> r == Pass && resources == spec.value.0 && fts == spec.value.1)
      ensures CheckContainerLeaf(old(resources), meta.id, meta.parent).Pass? && meta.id !in old(resources) ==>
        cache == old(cache)[meta.id := meta]
    {
      var check := CheckContainerLeaf(resources, meta.id, meta.parent);
      if check.Fail? {
        return Fail(check.error);
      }
      if meta.id in resources {
        return Fail(DUPLICATE_ID);
      }
      UpdateCache(meta);
      ghost var cached := cache;
      assert cached[meta.id := meta] == cached;
      r := StoreResource(resources, fts, meta, frec, content, store);
    }

    /**
     * `update` as written: the old row goes, then `create_metadata` puts the
     * new metadata in the cache before the steps that can still fail and
     * roll the whole update back.
     */
    method UpdateAsWritten(meta: ObjectMetadata, frec: nat, content: Option<VariantContent>, store: StoreAnswers)
      returns (r: Outcome)
      requires Valid()
      requires IsAscii(meta.name) && Indexable(indexers, content)
      modifies this
      ensures indexers == old(indexers)
      ensures var spec := UpdateResult(old(resources), old(fts), indexers, meta, content, store);
        && (spec.Err? ==> r == Fail(spec.error) && resources == old(resources) && fts == old(fts) && frecency == old(frecency))
        && (spec.Ok? ==> r == Pass && resources == spec.value.0 && fts == spec.value.1)
      ensures CheckContainerLeaf(old(resources), meta.id, meta.parent).Pass? ==>
        cache == old(cache)[meta.id := meta]
    {
      var check := CheckContainerLeaf(resources, meta.id, meta.parent);
      if check.Fail? {
        return Fail(check.error);
      }
      UpdateCache(meta);
      ghost var cached := cache;
      assert cached[meta.id := meta] == cached;
      r := StoreResource(resources - {meta.id}, RowsWithout(fts, {meta.id}), meta, frec, content, store);
    }

    /** `by_name`: the ids of the resources with that name (and tag), by decreasing frecency. */
    method ByName(name: string, tag: Option<string>) returns (r: Result<seq<ResourceId>>)
      requires Valid()
      ensures IsBlank(name) ==> r == Err(Custom("EmptyNameQuery"))
      ensures !IsBlank(name) ==>
        && r.Ok?
        && (forall x :: x in r.value <==> x in resources && ByNameRow(resources[x], name, tag))
        && NoDuplicates(r.value)
        && RankedBy(frecency, r.value)
    {
      if IsBlank(name) {
        return Err(Custom("EmptyNameQuery"));
      }
      var ids := set x | x in resources && ByNameRow(resources[x], name, tag);
      var ranked := TopBy(frecency, ids, |ids|);
      return Ok(ranked);
    }

    /** `by_tag`: the ids of the resources with that tag, by decreasing frecency. */
    method ByTag(tag: string) returns (r: Result<seq<ResourceId>>)
      requires Valid()
      ensures IsBlank(tag) ==> r == Err(Custom("EmptyTagQuery"))
      ensures !IsBlank(tag) ==>
        && r.Ok?
        && (forall x :: x in r.value <==> x in resources && HasTag(resources[x], tag))
        && NoDuplicates(r.value)
        && RankedBy(frecency, r.value)
    {
      if IsBlank(tag) {
        return Err(Custom("EmptyTagQuery"));
      }
      var ids := set x | x in resources && HasTag(resources[x], tag);
      var ranked := TopBy(frecency, ids, |ids|);
      return Ok(ranked);
    }

    /**
     * `child_by_name`: the metadata of a resource with that parent and
     * name, or `NoSuchResource` when there is none.
     */
    method ChildByName(parent: ResourceId, name: string) returns (r: Result<ObjectMetadata>)
      requires Valid()
      modifies this
      ensures Valid()
      ensures resources == old(resources) && frecency == old(frecency) && fts == old(fts) && indexers == old(indexers)
      ensures old(cache).Keys <= cache.Keys
      ensures IsBlank(name) ==> r == Err(Custom("EmptyNameQuery"))
      ensures !IsBlank(name) && (exists x :: x in resources && resources[x].parent == parent && resources[x].name == name) ==>
        r.Ok? && r.value.id in resources && resources[r.value.id] == r.value
        && r.value.parent == parent && r.value.name == name
      ensures !IsBlank(name) && !(exists x :: x in resources && resources[x].parent == parent && resources[x].name == name) ==>
        r == Err(NoSuchResource)
    {
      if IsBlank(name) {
        return Err(Custom("EmptyNameQuery"));
      }
      if x :| x in resources && resources[x].parent == parent && resources[x].name == name {
        r := GetMetadata(x);
      } else {
        r := Err(NoSuchResource);
      }
    }

    /** `by_text`: the full text search of the index. */
    method ByText(text: string) returns (r: Result<seq<IdFrec>>)
      requires Valid() && IsAscii(text)
      ensures IsBlank(text) ==> r == Err(Custom("EmptyTextQuery"))
      ensures !IsBlank(text) ==>
        && r.Ok?
        && (forall id, f :: (id, f) in r.value <==>
              id in frecency && AllWordsMatch(fts, frecency, QueryWords(FTS, text), id) && f == frecency[id])
        && DistinctIds(r.value)
        && SortedByFrecency(r.value)
    {
      if IsBlank(text) {
        return Err(Custom("EmptyTextQuery"));
      }
      var matches := Search(FTS, fts, frecency, text);
      return Ok(matches);
    }

    /** `top_by_frecency`: the `count` resources of highest frecency, with their frecency. */
    method TopByFrecency(count: nat) returns (r: Result<seq<IdFrec>>)
      requires Valid()
      ensures count == 0 ==> r == Err(Custom("ZeroCountQuery"))
      ensures count > 0 ==>
        && r.Ok?
        && (exists ids :: TopRanked(frecency, resources.Keys, ids, count) && r.value == WithFrecency(ids, frecency))
        && SortedByFrecency(r.value)
        && DistinctIds(r.value)
    {
      if count == 0 {
        return Err(Custom("ZeroCountQuery"));
      }
      var ids := TopBy(frecency, resources.Keys, count);
      r := Ok(WithFrecency(ids, frecency));
    }

    /** `last_modified`: the `count` most recently modified resources, with their frecency. */
    method LastModified(count: nat) returns (r: Result<seq<IdFrec>>)
      requires Valid()
      ensures count == 0 ==> r == Err(Custom("ZeroCountQuery"))
      ensures count > 0 ==>
        && r.Ok?
        && (exists ids :: TopRanked(ModifiedKey(resources), resources.Keys, ids, count)
                          && r.value == WithFrecency(ids, frecency))
        && DistinctIds(r.value)
    {
      if count == 0 {
        return Err(Custom("ZeroCountQuery"));
      }
      var ids := TopBy(ModifiedKey(resources), resources.Keys, count);
      r := Ok(WithFrecency(ids, frecency));
    }
  }

  /** `res.reverse()`. */
  function Reversed(s: seq<ObjectMetadata>): (r: seq<ObjectMetadata>)
    ensures |r| == |s|
    ensures forall k :: 0 <= k < |s| ==> r[k] == s[|s| - 1 - k]
  {
    if s == [] then [] else [s[|s| - 1]] + Reversed(s[..|s| - 1])
  }

  /** One round of the `get_full_path` loop keeps the walk still to do in step with the rows pushed so far. */
  lemma WalkStep(t: Table, goal: Result<seq<ObjectMetadata>>, current: ResourceId,
                 visited: set<ResourceId>, res: seq<ObjectMetadata>)
    requires current !in visited && current in t
    requires goal == Extend(Walk(t, current, visited), Reversed(res))
    ensures IsRoot(current) ==> goal == Ok(Reversed(res + [t[current]]))
    ensures !IsRoot(current) ==>
      goal == Extend(Walk(t, t[current].parent, visited + {current}), Reversed(res + [t[current]]))
  {
    ReversedPush(res, t[current]);
    if !IsRoot(current) {
      ExtendTwice(Walk(t, t[current].parent, visited + {current}), [t[current]], Reversed(res));
    }
  }

  lemma ReversedPush(s: seq<ObjectMetadata>, x: ObjectMetadata)
    ensures Reversed(s + [x]) == [x] + Reversed(s)
  {
    assert (s + [x])[..|s|] == s;
  }

  /**
   * Content that is not JSON fails the create of a leaf once there is an
   * indexer, after the checks and the insertion have passed.
   */
  lemma NotJsonFailsCreate(t: Table, tx: FtsTable, indexers: seq<Indexer.FlatJsonIndexer>,
                           meta: ObjectMetadata, store: StoreAnswers)
    requires CheckContainerLeaf(t, meta.id, meta.parent) == Pass && meta.id !in t
    requires indexers != [] && meta.kind == Leaf
    requires IsRoot(meta.id) || store.container == Pass
    ensures CreateResult(t, tx, indexers, meta, Some(VariantContent(None)), store) == Err(Indexer.NOT_JSON)
  {
  }

  /** The two resources of the stale cache scenario: the root, and a leaf below it. */
  function PlacesLeaf(): (m: ObjectMetadata)
    ensures m.id == 1 && m.parent == ROOT_ID && m.kind == Leaf && IsAscii(m.name)
  {
    NewMetadata(1, ROOT_ID, Leaf, 10, "places", "application/json", None, 0)
  }

  /** A manager with the places indexer and the root. */
  method PlacesManager() returns (m: Manager)
    ensures fresh(m) && m.Valid()
    ensures m.indexers == [Indexer.CreatePlacesIndexer()]
    ensures m.resources == map[ROOT_ID := RootMetadata(0)]
  {
    m := new Manager();
    m.AddIndexer(Indexer.CreatePlacesIndexer());
    RootCreatableWhenEmpty(m.indexers, 0, Pass);
    var created := m.CreateRoot(0, 0, StoreAnswers(Pass, Pass));
  }

  /**
   * A failed create as written leaves the cache holding a resource the
   * tables do not: with the places indexer in place, a leaf whose content is
   * not JSON fails in the text index after its metadata was cached.
   */
  method StaleCacheAfterFailedCreate() returns (r: Outcome, cached: bool, stored: bool)
    ensures r == Fail(Indexer.NOT_JSON) && cached && !stored
  {
    var m := PlacesManager();
    var leaf := PlacesLeaf();
    assert CheckContainerLeaf(m.resources, 1, ROOT_ID) == Pass;
    NotJsonFailsCreate(m.resources, m.fts, m.indexers, leaf, StoreAnswers(Pass, Pass));
    r := m.CreateAsWritten(leaf, 0, Some(VariantContent(None)), StoreAnswers(Pass, Pass));
    cached := 1 in m.cache;
    stored := m.HasObject(1);
  }

  /** The same failed create, corrected, leaves the cache as it was. */
  method NoStaleCacheAfterFailedCreate() returns (r: Outcome, cached: bool, stored: bool)
    ensures r == Fail(Indexer.NOT_JSON) && !cached && !stored
  {
    var m := PlacesManager();
    var leaf := PlacesLeaf();
    assert CheckContainerLeaf(m.resources, 1, ROOT_ID) == Pass;
    NotJsonFailsCreate(m.resources, m.fts, m.indexers, leaf, StoreAnswers(Pass, Pass));
    r := m.Create(leaf, 0, Some(VariantContent(None)), StoreAnswers(Pass, Pass));
    cached := 1 in m.cache;
    stored := m.HasObject(1);
  }

  /** Content that is not JSON fails the update of a leaf once there is an indexer. */
  lemma NotJsonFailsUpdate(t: Table, tx: FtsTable, indexers: seq<Indexer.FlatJsonIndexer>,
                           meta: ObjectMetadata, store: StoreAnswers)
    requires CheckContainerLeaf(t, meta.id, meta.parent) == Pass
    requires indexers != [] && meta.kind == Leaf
    requires IsRoot(meta.id) || store.container == Pass
    ensures UpdateResult(t, tx, indexers, meta, Some(VariantContent(None)), store) == Err(Indexer.NOT_JSON)
  {
    assert meta.id !in t - {meta.id};
  }

  /** The stored places leaf under a new name. */
  function RenamedLeaf(): (m: ObjectMetadata)
    ensures m.id == 1 && m.parent == ROOT_ID && m.kind == Leaf && IsAscii(m.name) && m != PlacesLeaf()
  {
    NewMetadata(1, ROOT_ID, Leaf, 10, "visited", "application/json", None, 0)
  }

  /** A places manager that stores the places leaf, without content. */
  method PlacesManagerWithLeaf() returns (m: Manager)
    ensures fresh(m) && m.Valid()
    ensures m.indexers == [Indexer.CreatePlacesIndexer()]
    ensures m.resources == map[ROOT_ID := RootMetadata(0), 1 := PlacesLeaf()]
  {
    m := PlacesManager();
    var leaf := PlacesLeaf();
    assert CheckContainerLeaf(m.resources, 1, ROOT_ID) == Pass;
    var created := m.Create(leaf, 0, None, StoreAnswers(Pass, Pass));
  }

  /**
   * With a places indexer, updating the stored leaf with content that is
   * not JSON fails; as written, the cache then holds the new metadata, which
   * the tables never got.
   */
  method StaleCacheAfterFailedUpdate() returns (r: Outcome, stale: bool)
    ensures r == Fail(Indexer.NOT_JSON) && stale
  {
    var m := PlacesManagerWithLeaf();
    var renamed := RenamedLeaf();
    assert CheckContainerLeaf(m.resources, 1, ROOT_ID) == Pass;
    NotJsonFailsUpdate(m.resources, m.fts, m.indexers, renamed, StoreAnswers(Pass, Pass));
    r := m.UpdateAsWritten(renamed, 0, Some(VariantContent(None)), StoreAnswers(Pass, Pass));
    stale := 1 in m.cache && m.HasObject(1) && m.cache[1] != m.resources[1];
  }

  /** The same failed update, corrected, keeps the cache in step with the tables. */
  method NoStaleCacheAfterFailedUpdate() returns (r: Outcome, stale: bool)
    ensures r == Fail(Indexer.NOT_JSON) && !stale
  {
    var m := PlacesManagerWithLeaf();
    var renamed := RenamedLeaf();
    assert CheckContainerLeaf(m.resources, 1, ROOT_ID) == Pass;
    NotJsonFailsUpdate(m.resources, m.fts, m.indexers, renamed, StoreAnswers(Pass, Pass));
    r := m.Update(renamed, 0, Some(VariantContent(None)), StoreAnswers(Pass, Pass));
    stale := 1 in m.cache && m.HasObject(1) && m.cache[1] != m.resources[1];
  }

  /**
   * After any delete, a resource left behind never hangs below a removed
   * container: the subtree is closed.
   */
  lemma DeleteLeavesNoOrphans(t: Table, id: ResourceId, x: ResourceId)
    requires x in t && x !in Removed(t, id)
    requires t[x].parent in Removed(t, id) && t[x].parent != x
    ensures !IsContainerIn(t, t[x].parent)
  {
    var p := t[x].parent;
    if IsContainerIn(t, p) {
      if p == id {
        ChildIsDescendant(t, id, x);
      } else {
        assert IsContainerIn(t, id);
        DescendantStep(t, id, p, x);
      }
      assert false;
    }
  }
}
