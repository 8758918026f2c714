/**
 * The flat JSON indexer of src/indexer.rs: for each configured field, a
 * string value is added to the full text index whole, and each string item
 * of an array value is added on its own.
 *
 * The content is given already parsed: `None` stands for bytes that are not
 * JSON, which the source reports as a JSON error.
 */
module Indexer {
  import opened Wrappers
  import opened Common
  import opened Tokenizer
  import opened FtsIndex

  /** A JSON value. Numbers are kept as integers: the indexer never reads them. */
  datatype Json =
    | JNull
    | JBool(b: bool)
    | JNumber(n: int)
    | JString(s: string)
    | JArray(items: seq<Json>)
    | JObject(members: map<string, Json>)

  /** `Value::get` with a string key: an object's member; nothing for any other value. */
  function Get(v: Json, key: string): (r: Option<Json>)
    ensures r.Some? <==> v.JObject? && key in v.members
    ensures r.Some? ==> r.value == v.members[key]
  {
    if v.JObject? && key in v.members then Some(v.members[key]) else None
  }

  datatype FlatJsonIndexer = FlatJsonIndexer(fields: seq<string>)

  /** The error `index` reports for content that is not JSON (the payload stands for the parser's error). */
  const NOT_JSON: StoreError := Json("content is not JSON")

  /** `FlatJsonIndexer::new`: the fields are kept in the given order. */
  function NewIndexer(fields: seq<string>): (ix: FlatJsonIndexer)
    ensures ix.fields == fields
  {
    FlatJsonIndexer(fields)
  }

  /** `create_places_indexer`: a place's url, then its title. */
  function CreatePlacesIndexer(): (ix: FlatJsonIndexer)
    ensures ix.fields == ["url", "title"]
  {
    NewIndexer(["url", "title"])
  }

  /** `create_contacts_indexer`: a contact's name, phone and email. */
  function CreateContactsIndexer(): (ix: FlatJsonIndexer)
    ensures ix.fields == ["name", "phone", "email"]
  {
    NewIndexer(["name", "phone", "email"])
  }

  /** The string items of an array, in order; other items are skipped. */
  function StringItems(items: seq<Json>): seq<string> {
    if items == [] then []
    else
      var last := items[|items| - 1];
      StringItems(items[..|items| - 1]) + (if last.JString? then [last.s] else [])
  }

  /** The texts one field contributes: a string whole, an array's strings, otherwise nothing. */
  function FieldTexts(value: Option<Json>): seq<string> {
    match value
    case Some(JString(text)) => [text]
    case Some(JArray(items)) => StringItems(items)
    case _ => []
  }

  /** The texts the fields contribute, field after field. */
  function TextsOfFields(fields: seq<string>, v: Json): seq<string> {
    if fields == [] then []
    else TextsOfFields(fields[..|fields| - 1], v) + FieldTexts(Get(v, fields[|fields| - 1]))
  }

  /** Every text `index` passes to `add_text`, in calling order. */
  function IndexedTexts(ix: FlatJsonIndexer, v: Json): seq<string> {
    TextsOfFields(ix.fields, v)
  }

  /** Every string item of the array is ASCII, as `add_text` needs. */
  predicate ItemsAscii(items: seq<Json>) {
    forall k :: 0 <= k < |items| ==> items[k].JString? ==> IsAscii(items[k].s)
  }

  /** Every text the field value contributes is ASCII. */
  predicate FieldAscii(value: Option<Json>) {
    match value
    case Some(JString(text)) => IsAscii(text)
    case Some(JArray(items)) => ItemsAscii(items)
    case _ => true
  }

  /** Every text the configured fields of `v` contribute is ASCII. */
  predicate ContentAscii(ix: FlatJsonIndexer, v: Json) {
    forall k :: 0 <= k < |ix.fields| ==> FieldAscii(Get(v, ix.fields[k]))
  }

  /** The rows stored by `add_text` for each of the texts. */
  function EntriesOfTexts(id: ResourceId, texts: seq<string>, m: nat): (r: set<FtsEntry>)
    ensures forall e :: e in r ==> e.id == id
  {
    if texts == [] then {}
    else EntriesOfTexts(id, texts[..|texts| - 1], m) + TextEntries(id, texts[|texts| - 1], m)
  }

  /** The rows `add_text` stores for one text. */
  function TextEntries(id: ResourceId, text: string, m: nat): set<FtsEntry> {
    EntriesOf(id, NgramsOf(text, m))
  }

  lemma {:induction false} EntriesOfTextsAppend(id: ResourceId, a: seq<string>, b: seq<string>, m: nat)
    ensures EntriesOfTexts(id, a + b, m) == EntriesOfTexts(id, a, m) + EntriesOfTexts(id, b, m)
  {
    if b != [] {
      var binit := b[..|b| - 1];
      var last := b[|b| - 1];
      assert (a + b)[..|a + b| - 1] == a + binit;
      assert (a + b)[|a + b| - 1] == last;
      EntriesOfTextsAppend(id, a, binit, m);
      assert EntriesOfTexts(id, a + b, m) == EntriesOfTexts(id, a + binit, m) + TextEntries(id, last, m);
      assert EntriesOfTexts(id, b, m) == EntriesOfTexts(id, binit, m) + TextEntries(id, last, m);
    } else {
      assert a + b == a;
    }
  }

  /** The `Value::Array` arm: one `add_text` per string item, in array order. */
  method IndexItems(fts: Fts, id: ResourceId, items: seq<Json>, tx0: FtsTable) returns (tx: FtsTable)
    requires ItemsAscii(items)
    ensures tx == tx0 + EntriesOfTexts(id, StringItems(items), fts.maxSubstringLen)
  {
    tx := tx0;
    for j := 0 to |items|
      invariant tx == tx0 + EntriesOfTexts(id, StringItems(items[..j]), fts.maxSubstringLen)
    {
      var item := items[j];
      ghost var done := StringItems(items[..j]);
      assert items[..j + 1][..j] == items[..j];
      if item.JString? {
        assert StringItems(items[..j + 1]) == done + [item.s];
        EntriesOfTextsAppend(id, done, [item.s], fts.maxSubstringLen);
        assert EntriesOfTexts(id, [item.s], fts.maxSubstringLen) == TextEntries(id, item.s, fts.maxSubstringLen);
        tx := AddText(fts, id, item.s, tx);
      } else {
        assert StringItems(items[..j + 1]) == done;
      }
    }
    assert items[..|items|] == items;
  }

  /** One field of `index`: a string is added whole, an array item by item, anything else skipped. */
  method IndexField(fts: Fts, id: ResourceId, value: Option<Json>, tx0: FtsTable) returns (tx: FtsTable)
    requires FieldAscii(value)
    ensures tx == tx0 + EntriesOfTexts(id, FieldTexts(value), fts.maxSubstringLen)
  {
    match value {
      case Some(JString(text)) =>
        assert EntriesOfTexts(id, [text], fts.maxSubstringLen) == TextEntries(id, text, fts.maxSubstringLen);
        tx := AddText(fts, id, text, tx0);
      case Some(JArray(items)) =>
        tx := IndexItems(fts, id, items, tx0);
      case _ =>
        tx := tx0;
    }
  }

  /**
   * `index`: the texts of the configured fields go into the full text index,
   * field by field. Content that is not JSON is a JSON error (I/O errors of
   * the reader are left out).
   */
  method Index(ix: FlatJsonIndexer, id: ResourceId, content: Option<Json>, fts: Fts, tx0: FtsTable)
    returns (r: Result<FtsTable>)
    requires content.Some? ==> ContentAscii(ix, content.value)
    ensures content.None? <==> r.Err?
    ensures r.Err? ==> r.error == NOT_JSON
    ensures content.Some? ==>
      r == Ok(tx0 + EntriesOfTexts(id, IndexedTexts(ix, content.value), fts.maxSubstringLen))
  {
    if content.None? {
      return Err(NOT_JSON);
    }
    var v := content.value;
    var tx := tx0;
    for fi := 0 to |ix.fields|
      invariant tx == tx0 + EntriesOfTexts(id, TextsOfFields(ix.fields[..fi], v), fts.maxSubstringLen)
    {
      ghost var before := tx;
      tx := IndexField(fts, id, Get(v, ix.fields[fi]), tx);
      FieldStep(id, ix.fields, fi, v, fts.maxSubstringLen, tx0, before, tx);
    }
    assert ix.fields[..|ix.fields|] == ix.fields;
    return Ok(tx);
  }

  /** One round of the field loop of `index` keeps its invariant. */
  lemma FieldStep(id: ResourceId, fields: seq<string>, fi: nat, v: Json, m: nat,
                  tx0: FtsTable, tx: FtsTable, tx': FtsTable)
    requires fi < |fields|
    requires tx == tx0 + EntriesOfTexts(id, TextsOfFields(fields[..fi], v), m)
    requires tx' == tx + EntriesOfTexts(id, FieldTexts(Get(v, fields[fi])), m)
    ensures tx' == tx0 + EntriesOfTexts(id, TextsOfFields(fields[..fi + 1], v), m)
  {
    var done := TextsOfFields(fields[..fi], v);
    var more := FieldTexts(Get(v, fields[fi]));
    assert fields[..fi + 1][..fi] == fields[..fi];
    assert TextsOfFields(fields[..fi + 1], v) == done + more;
    EntriesOfTextsAppend(id, done, more, m);
  }

  // ---------------------------------------------------------------------
  // Properties of the indexed texts

  /** A text is indexed exactly when a configured field holds it, or holds an array with it. */
  lemma {:induction false} IndexedTextsMembers(fields: seq<string>, v: Json, t: string)
    ensures t in TextsOfFields(fields, v) <==> exists f :: f in fields && FieldContains(v, f, t)
  {
    if fields != [] {
      var init := fields[..|fields| - 1];
      var f := fields[|fields| - 1];
      IndexedTextsMembers(init, v, t);
      FieldTextsMembers(Get(v, f), t);
      assert fields == init + [f];
      if t in TextsOfFields(fields, v) {
        if t in FieldTexts(Get(v, f)) {
          assert f in fields && FieldContains(v, f, t);
        }
      } else {
        forall g | g in fields ensures !FieldContains(v, g, t) {
          if g != f {
            assert g in init;
          }
        }
      }
    }
  }

  /** Field `f` of `v` is the string `t`, or an array with the string `t` among its items. */
  predicate FieldContains(v: Json, f: string, t: string) {
    match Get(v, f)
    case Some(JString(s)) => s == t
    case Some(JArray(items)) => JString(t) in items
    case _ => false
  }

  lemma FieldTextsMembers(value: Option<Json>, t: string)
    ensures t in FieldTexts(value) <==> match value
      case Some(JString(s)) => s == t
      case Some(JArray(items)) => JString(t) in items
      case _ => false
  {
    if value.Some? && value.value.JArray? {
      StringItemsMembers(value.value.items, t);
    }
  }

  /** The string items are exactly the strings of the array. */
  lemma {:induction false} StringItemsMembers(items: seq<Json>, t: string)
    ensures t in StringItems(items) <==> JString(t) in items
  {
    if items != [] {
      var init := items[..|items| - 1];
      StringItemsMembers(init, t);
      assert items == init + [items[|items| - 1]];
    }
  }

  /** Fields are processed in configuration order: the texts of a split list are concatenated. */
  lemma {:induction false} TextsOfFieldsAppend(f1: seq<string>, f2: seq<string>, v: Json)
    ensures TextsOfFields(f1 + f2, v) == TextsOfFields(f1, v) + TextsOfFields(f2, v)
  {
    if f2 != [] {
      var init := f2[..|f2| - 1];
      assert (f1 + f2)[..|f1 + f2| - 1] == f1 + init;
      assert (f1 + f2)[|f1 + f2| - 1] == f2[|f2| - 1];
      TextsOfFieldsAppend(f1, init, v);
    } else {
      assert f1 + f2 == f1;
    }
  }

  /** A single field holding a string contributes exactly that string. */
  lemma StringFieldTexts(v: Json, f: string, text: string)
    requires Get(v, f) == Some(JString(text))
    ensures TextsOfFields([f], v) == [text]
  {
    assert [f][..0] == [];
  }

  /** When the content is not an object, nothing is indexed. */
  lemma {:induction false} NonObjectNothingIndexed(fields: seq<string>, v: Json)
    requires !v.JObject?
    ensures TextsOfFields(fields, v) == []
  {
    if fields != [] {
      NonObjectNothingIndexed(fields[..|fields| - 1], v);
    }
  }

  /** The places indexer: the url string, then the title string. */
  lemma PlacesTexts(url: string, title: string, rest: map<string, Json>)
    ensures IndexedTexts(CreatePlacesIndexer(), JObject(rest["url" := JString(url)]["title" := JString(title)]))
      == [url, title]
  {
    var v := JObject(rest["url" := JString(url)]["title" := JString(title)]);
    var fields := ["url", "title"];
    assert fields[..1] == ["url"];
    assert fields[..1][..0] == [];
    assert Get(v, "title") == Some(JString(title));
    assert "url" != "title";
    assert Get(v, "url") == Some(JString(url));
    assert FieldTexts(Get(v, "url")) == [url];
    assert TextsOfFields(fields[..1], v) == [url];
  }
}
