# costaeres resource index, modelled in Dafny

costaeres keeps a store of resources. Each resource is either a container or a leaf. It has a numeric id, a parent container, a name, tags and timestamps. Resource 0 is the root and is its own parent. The manager (`src/manager.rs`) keeps an SQLite index of these resources. The index holds:

- the `resources` and `tags` tables;
- a full text search table of n-grams (`src/fts.rs`);
- a frecency score per resource (`src/scorer.rs`);
- a metadata cache.

JSON content of a new resource can be indexed by flat JSON indexers (`src/indexer.rs`). Variants of a resource can be post-processed by transformers, such as the thumbnailer (`src/transformers/`).

The model has one module per source file. The modules need each other in this order: `Common`, `Tokenizer` and `FtsIndex` (both from `src/fts.rs`), `Scorer`, `Indexer`, `Transformers`, `Thumbnailer`, `ResourceTree`, `ResourceManager`. `ResourceTree` holds the tree facts of `src/manager.rs` that the methods rely on.

Each part is modelled in the form its source has:

- **Value types are datatypes.** `ObjectMetadata`, errors, variants, JSON values and the text index rows are datatypes. Setters are functional updates.
- **The visit log is a class.** `ObjectScore` updates its log in place, so `Scorer.ObjectScore.Add` is a method with `modifies`.
- **Loops are methods with invariants.** Each loop of the source is a method, all of them proved against a reference function:
  - the n-gram loops of `ngrams`;
  - the per-word tally of `search`;
  - the field loop of the indexer;
  - the parent walk of `get_full_path`;
  - the subtree collection and deletion loops of `delete`;
  - the indexer loop of `update_text_index`.
- **The database is the fields of `ResourceManager.Manager`.** A transaction is the new value of the tables that an operation computes. Committing it assigns those values to the fields. An operation that fails before the commit leaves every field as it was.
- **The content store is a parameter.** It is `src/file_store.rs` in the source. What it answers is the parameter `store` of type `StoreAnswers`.

## Model

| member | source | states |
|---|---|---|
| Common.KindFromInt | src/common.rs:34-42 | decoding 0 or 1 gives the kind whose stored integer it is; other integers are a panic in the source and are excluded |
| Common.KindRoundTrip | src/common.rs:27-32 | the stored integer of a kind decodes back to that kind |
| Common.ErrorEqMeaning | src/common.rs:154-169 | two errors are equal exactly when they are the same variant and, for `Custom`, carry the same message |
| Common.ErrorEqIgnoresPayload | src/common.rs:154-169 | `Sql`, `Json`, `Io` and `Bincode` errors compare equal whatever they wrap; `Custom` errors compare their messages |
| Common.ErrorEqIsEquivalence | src/common.rs:154-169 | error equality is reflexive, symmetric and transitive |
| Common.NewMetadata | src/common.rs:59-79 | every field comes from the arguments; created and modified are both the current time |
| Common.ObjectMetadata.SetTags | src/common.rs:127-129 | the tags are replaced and every other field is unchanged |
| Common.ObjectMetadata.SetCreated | src/common.rs:111-113 | the creation date is replaced and every other field is unchanged |
| Common.ObjectMetadata.SetModified | src/common.rs:115-117 | the modification date is replaced and every other field is unchanged |
| Common.SettersCommute | src/common.rs:111-129 | the three setters touch disjoint fields, so their order does not matter |
| Scorer.Bonus | src/scorer.rs:17-23 | the bonus of a visit priority is between 100 and 200 percent |
| Scorer.BonusOrdered | src/scorer.rs:15-23 | a higher priority has a strictly larger bonus |
| Scorer.NumDays | src/scorer.rs:47 | the whole number of days of an elapsed time, rounded toward zero as `num_days` does, for past and future dates |
| Scorer.WeightFor | src/scorer.rs:46-59 | the weight of a visit's age is between 10 and 100 |
| Scorer.WeightForNonIncreasing | src/scorer.rs:46-59 | an older visit never weighs more than a newer one |
| Scorer.PointsAreExact | src/scorer.rs:85-88 | bonus times weight is a multiple of 100, so the `f32` division and the rounding lose nothing; a visit is worth 10 to 200 points |
| Scorer.PointsSumBounds | src/scorer.rs:85-88 | the points of n visits sum to between 10n and 200n |
| Scorer.PointsSumConstant | src/scorer.rs:85-88 | visits worth p points each sum to n times p |
| Scorer.PushedAllKeepsLatest | src/scorer.rs:71-79 | a log built by any run of visits holds exactly the latest ten, oldest first |
| Scorer.ObjectScore.constructor | src/scorer.rs:61-68 | the default score has no visits and an empty log |
| Scorer.ObjectScore.Add | src/scorer.rs:71-79 | the oldest entry is dropped when the log is full, the visit is appended and the visit count grows by one |
| Scorer.ObjectScore.Frecency | src/scorer.rs:81-91 | the frecency is between 10 and 200 times the visit count |
| Scorer.FrecencyBounds | src/scorer.rs:90 | count times the point sum, divided by the log length, stays within 10 and 200 times the count |
| Scorer.Max | src/scorer.rs:93-101 | ten very-high-priority visits now give a frecency of 2000 |
| Scorer.TwoVisits | src/scorer.rs:110-134 | one visit now scores 100; a second visit ten days ago, of any priority, brings the score to the visit count 2 times the 100 + 70 x bonus / 100 points of the log, over its 2 entries |
| Scorer.FrecencyScenarios | src/scorer.rs:104-135 | the scenarios of `frecency_alg` score 100, 170, 100 and 205 |
| Tokenizer.SplitWhitespace | src/fts.rs:90 | every word is non-empty and has no whitespace |
| Tokenizer.TrimNoWhitespace | src/fts.rs:91 | trimming a word without whitespace leaves it as it is |
| Tokenizer.PreprocessText | src/fts.rs:87-92 | every word is non-empty, has no whitespace and no upper-case ASCII letter |
| Tokenizer.SplitJoinSpaces | src/fts.rs:90 | splitting words joined by spaces gives the same words back |
| Tokenizer.PreprocessSingleWord | src/fts.rs:87-92 | a lower-case word without whitespace preprocesses to itself alone |
| Tokenizer.Grams | src/fts.rs:103-104 | a word of length w has w - len + 1 substrings of length len |
| Tokenizer.DedupMembers | src/fts.rs:109-112 | dropping repeats keeps exactly the elements of the input, each once |
| Tokenizer.WordGramsMembers | src/fts.rs:102-117 | the grams of a word are exactly its substrings of length 1 to k |
| Tokenizer.CandidatesMembers | src/fts.rs:99-118 | the candidates are exactly the short enough substrings of the words |
| Tokenizer.NgramsSound | src/fts.rs:95-121 | every n-gram is a substring, at most m long, of a word of the text |
| Tokenizer.NgramsComplete | src/fts.rs:95-121 | every substring of length 1 to m of a word of the text is an n-gram |
| Tokenizer.NgramsMembers | src/fts.rs:95-121 | the n-grams are exactly the substrings of length 1 to m of the words |
| Tokenizer.NgramsDistinct | src/fts.rs:109-112 | no n-gram is returned twice |
| Tokenizer.PushGramsOfLength | src/fts.rs:104-116 | the position loop adds the unseen substrings of one length, and `seen` stays the set of what was pushed |
| Tokenizer.PushWordGrams | src/fts.rs:100-117 | the length loop adds the unseen grams of one word |
| Tokenizer.NgramsOfWords | src/fts.rs:99-118 | the word loop computes the distinct candidates in first-occurrence order |
| Tokenizer.Ngrams | src/fts.rs:95-121 | `ngrams` returns the reference n-grams: distinct, and exactly the substrings of length 1 to m of the words |
| Tokenizer.NgramsOfZero | src/fts.rs:132-134 | the n-grams of "0" are the single gram "0" |
| FtsIndex.AddText | src/fts.rs:24-39 | the table gains one row per n-gram of the text, and nothing else |
| FtsIndex.Truncate | src/fts.rs:51-53 | a query word longer than the n-gram limit is cut to its prefix of that length |
| FtsIndex.QueryWords | src/fts.rs:47-53 | one truncated query word per preprocessed word |
| FtsIndex.Lookup | src/fts.rs:55-63 | the ids found for a word are exactly those with a frecency and a row holding that n-gram |
| FtsIndex.LookupRows | src/fts.rs:55-63 | the rows of one lookup are those ids, each once |
| FtsIndex.MatchCountFull | src/fts.rs:65-81 | a resource is counted once per word it matches, so its count equals the word count exactly when it matches every word |
| FtsIndex.TallyRows | src/fts.rs:64-69 | the `for_each` over the rows of a word bumps each row's counter, starting a new one at 1 with the frecency |
| FtsIndex.BumpRowsEffect | src/fts.rs:65-69 | the ids in the rows get their counter bumped; the other counters are untouched |
| FtsIndex.TallyStep | src/fts.rs:50-70 | after each word the tally counts, per id, the words so far that it matches |
| FtsIndex.TallyMatches | src/fts.rs:72-81 | a counter equals the number of words exactly when the id matches every word, and it carries the id's frecency |
| FtsIndex.CollectMatches | src/fts.rs:72-81 | the filter keeps exactly the ids whose counter equals the word count, with their frecency, each once |
| FtsIndex.Insert | src/fts.rs:82 | insertion adds exactly the new element to the multiset |
| FtsIndex.InsertSorted | src/fts.rs:82 | inserting into a list sorted by decreasing frecency keeps it sorted |
| FtsIndex.SortByFrecency | src/fts.rs:82 | the sort is a permutation in decreasing frecency order |
| FtsIndex.SortKeepsDistinctIds | src/fts.rs:82 | sorting keeps the ids distinct |
| FtsIndex.SortMembers | src/fts.rs:82 | sorting keeps exactly the same pairs |
| FtsIndex.Search | src/fts.rs:42-84 | the result holds exactly the resources that match every query word, with their frecency, each once, highest frecency first |
| FtsIndex.TallyQuery | src/fts.rs:46-70 | after the word loop, each known id is tallied with the number of query words (cut to the maximum n-gram length) it has a row for, and with its frecency; ids without a match are absent; the word count is returned |
| FtsIndex.RepeatedWordSameMatches | src/fts.rs:65-81 | repeating a query word changes no match (as in the `child #27 #27` query of the tests) |
| FtsIndex.MoreWordsFewerMatches | src/fts.rs:72-81 | a resource that matches a longer query matches every shorter prefix of it, and has the added word |
| FtsIndex.TruncatedWordIsGram | src/fts.rs:51-53 | a truncated query word is one of the n-grams of the same text |
| FtsIndex.AddedTextIsFound | src/fts.rs:24-84 | a resource whose text was added is found by searching for that text |
| Indexer.Get | src/indexer.rs:52 | a member lookup finds a value only in an object that has the key |
| Indexer.NewIndexer | src/indexer.rs:28-32 | the indexer keeps the given fields in order |
| Indexer.CreatePlacesIndexer | src/indexer.rs:74-76 | places are indexed on `url` and `title` |
| Indexer.CreateContactsIndexer | src/indexer.rs:81-83 | contacts are indexed on `name`, `phone` and `email` |
| Indexer.EntriesOfTextsAppend | src/indexer.rs:51-65 | the rows of two runs of texts are the union of their rows |
| Indexer.IndexItems | src/indexer.rs:56-61 | the array loop adds the n-gram rows of exactly its string items |
| Indexer.IndexField | src/indexer.rs:52-64 | a string field adds its rows, an array its string items' rows, anything else nothing |
| Indexer.Index | src/indexer.rs:37-68 | content that is not JSON is a JSON error; otherwise the rows of every indexed text are added |
| Indexer.IndexedTextsMembers | src/indexer.rs:51-65 | a text is indexed exactly when one of the fields holds it, as a string or as a string item of an array |
| Indexer.FieldTextsMembers | src/indexer.rs:52-64 | one field contributes its string, or its array's strings, and nothing else |
| Indexer.StringItemsMembers | src/indexer.rs:57-61 | the strings taken from an array are exactly its string items |
| Indexer.TextsOfFieldsAppend | src/indexer.rs:51 | fields are indexed one after another |
| Indexer.StringFieldTexts | src/indexer.rs:53-55 | a string field is indexed whole |
| Indexer.NonObjectNothingIndexed | src/indexer.rs:51-65 | JSON that is not an object indexes nothing |
| Indexer.PlacesTexts | src/indexer.rs:71-76 | a place indexes its url and then its title |
| Transformers.VariantChange.Deref | src/transformers/mod.rs:31-39 | `deref` gives the variant of the change, whatever its kind |
| Transformers.VariantChange.WithVariant | src/transformers/mod.rs:41-47 | writing through `deref_mut` replaces the variant and keeps the kind of change |
| Transformers.ExactlyOneKind | src/transformers/mod.rs:11-29 | every change is exactly one of created, updated and deleted |
| Transformers.WithVariantDeref | src/transformers/mod.rs:31-47 | writing back the variant `deref` gave leaves the change as it was |
| Transformers.NamedContent | src/transformers/mod.rs:72-79 | the test variants have the given name and type and a declared size of 42 |
| Transformers.TestThumbnail | src/transformers/mod.rs:124-150 | one result; a deleted default image deletes "thumbnail"; a created or updated one creates or updates a PNG "thumbnail"; anything else is left alone |
| Transformers.ThumbnailTransformCases | src/transformers/mod.rs:152-187 | the four cases of `thumbnail_transform` give no-op, no-op, delete and create |
| Thumbnailer.Default | src/transformers/thumbnailer.rs:14-26 | the default thumbnail size is 128 |
| Thumbnailer.ThumbnailVariant | src/transformers/thumbnailer.rs:63-66 | the thumbnail is a JPEG variant named "thumbnail" whose declared size is its length |
| Thumbnailer.CreateThumbnail | src/transformers/thumbnailer.rs:33-69 | a thumbnail exists exactly when the image pipeline succeeds on the variant's whole content |
| Thumbnailer.TransformVariant | src/transformers/thumbnailer.rs:72-109 | there is always exactly one result |
| Thumbnailer.OnlyDefaultImages | src/transformers/thumbnailer.rs:75-76 | any variant other than the default image is left alone |
| Thumbnailer.DeleteDropsThumbnail | src/transformers/thumbnailer.rs:77-78 | deleting the default image deletes the thumbnail, and the image pipeline plays no part |
| Thumbnailer.CreatedOrUpdatedGivesThumbnail | src/transformers/thumbnailer.rs:79-102 | a created or updated default image gives the created or updated thumbnail of its content, or a no-op when the pipeline fails |
| Thumbnailer.ResultShape | src/transformers/thumbnailer.rs:72-109 | every thumbnail made is a JPEG named "thumbnail"; the kind of result follows the kind of change |
| ResourceTree.CheckContainerLeaf | src/manager.rs:233-249 | passes exactly when only the root is its own parent and every other resource has a known container as parent; the failure is `InvalidContainerId` |
| ResourceTree.ChildrenOf | src/manager.rs:251-267 | the children are stored ids, and a container is never its own child |
| ResourceTree.ChildrenOfMembers | src/manager.rs:251-267 | an id is a child exactly when it is stored with that parent and is not its own parent |
| ResourceTree.ParentOf | src/manager.rs:294-307 | the parent of a stored id, or `NoSuchResource` |
| ResourceTree.WalkAvoidsVisited | src/manager.rs:347-359 | a walk that ends well never returns an id already visited |
| ResourceTree.WalkIsRootPath | src/manager.rs:347-359 | a walk that ends well returns a path of stored rows from the root down to the start, each row the parent of the next |
| ResourceTree.RootPathDistinct | src/manager.rs:339-364 | no id repeats on a path from the root |
| ResourceTree.RootPathIsWalked | src/manager.rs:347-359 | the walk finds a path from the root whenever one exists |
| ResourceTree.FullPathMeaning | src/manager.rs:339-364 | the full path, when found, runs from the root to the id; every path from the root to the id is the one found |
| ResourceTree.FullPathUnknown | src/manager.rs:351 | the path of an unknown id is `NoSuchResource` |
| ResourceTree.FullPathCycle | src/manager.rs:348-350 | two resources that are each other's parent give `ResourceCycle` |
| ResourceTree.FullPathOfTestHierarchy | tests/manager.rs:298-314 | the root's path is the root alone; resource 30 has the path 0, 1, 10, 30 |
| ResourceTree.LeafRemovedAlone | src/manager.rs:614-630 | deleting a leaf removes only the leaf |
| ResourceTree.RootSurvives | src/manager.rs:641-663 | deleting any resource other than the root never removes the root |
| ResourceTree.ClosedHoldsDescendants | src/manager.rs:641-663 | a set closed under taking children of containers holds every descendant |
| ResourceTree.MoveIntoDescendantAdmitted | src/manager.rs:547-548 | the container check of `update` admits moving a container into its own descendant |
| ResourceTree.DeleteAsWrittenNeverStops | src/manager.rs:641-663 | after that move the collection loop of `delete` has a non-empty frontier in every round |
| ResourceTree.CycleRemoved | src/manager.rs:641-663 | the removed set of a container in such a cycle is finite and holds the whole cycle |
| ResourceManager.BlankMeansWhitespace | src/manager.rs:373-375 | a query string trims to nothing exactly when it is all whitespace |
| ResourceManager.RowsWithout | src/manager.rs:665-670 | the delete cascade keeps exactly the rows of other resources |
| ResourceManager.NameRows | src/manager.rs:193 | the name adds only rows of the resource, and one for every n-gram of the name |
| ResourceManager.IndexerRows | src/manager.rs:491-493 | the indexers add only rows of the resource |
| ResourceManager.CreateMeaning | src/manager.rs:506-540 | a successful create stores a new id below a known container or as the root; it keeps every old row, adds only rows of the resource, including all n-grams of the name, and the store write passed |
| ResourceManager.StoreResultOk | src/manager.rs:516-539 | when the steps after the container check succeed, the id was new, the parent update (for a non-root) and the store write passed, and the commit adds exactly the name rows plus, for a leaf with JSON content, the indexers' rows |
| ResourceManager.CreateExistingFails | src/manager.rs:153-167 | creating a stored id fails |
| ResourceManager.UpdateReplaces | src/manager.rs:542-579 | a successful update replaces the resource's row; other resources' rows are untouched; its own rows are only those of its new name and content |
| ResourceManager.RootMetadata | src/manager.rs:319-327 | the root is a container with id 0, its own parent, named "/", of type `inode/directory`, size 0, without tags |
| ResourceManager.RootCreatableWhenEmpty | src/manager.rs:319-329 | the root can be created in an empty index, whatever the parent update would answer |
| ResourceManager.CreatedPath | src/manager.rs:339-364 | after a create, the path of the new resource is its parent's path followed by the resource |
| ResourceManager.MaxBy | src/manager.rs:456 | an id of largest key in the set |
| ResourceManager.TopBy | src/manager.rs:455-460 | `ORDER BY key DESC LIMIT count`: as many distinct ids as the limit allows, ranked, none left out ranking above one kept |
| ResourceManager.WithFrecency | src/manager.rs:456 | each id is paired with its frecency, in order |
| ResourceManager.ModifiedKey | src/manager.rs:471 | each resource's key is its modification date |
| ResourceManager.ByNameBindsSwapped | src/manager.rs:378-381 | the tag query as written answers with name and tag exchanged, and misses a resource named "photo" tagged "holiday" |
| ResourceManager.Manager.constructor | src/manager.rs:97-104 | a new manager has empty tables, cache and indexer list |
| ResourceManager.Manager.AddIndexer | src/manager.rs:498-500 | the indexer is appended, and nothing else changes |
| ResourceManager.Manager.EvictFromCache | src/manager.rs:107-109 | the id leaves the cache, and nothing else changes |
| ResourceManager.Manager.UpdateCache | src/manager.rs:111-113 | the metadata is cached under its id, and nothing else changes |
| ResourceManager.Manager.HasObject | src/manager.rs:201-207 | true exactly when the id is stored |
| ResourceManager.Manager.ResourceCount | src/manager.rs:210-216 | the number of stored resources |
| ResourceManager.Manager.IsContainer | src/manager.rs:219-229 | true exactly when the id is stored as a container |
| ResourceManager.Manager.GetMetadata | src/manager.rs:683-742 | the stored metadata, cached afterwards, or `NoSuchResource`; the tables do not change |
| ResourceManager.Manager.Visit | src/manager.rs:116-137 | the score takes the visit, the resource's frecency becomes the new score's, and its cache entry is dropped |
| ResourceManager.Manager.GetFullPath | src/manager.rs:339-364 | the loop returns the reference full path from the root to the id, or the cycle or missing-resource error |
| ResourceManager.Manager.Delete | src/manager.rs:612-681 | an unknown id fails and changes nothing; otherwise the removed set goes from the tables, the text index, the frecencies and the cache |
| ResourceManager.Manager.CollectSubtree | src/manager.rs:641-663 | the collection loop, corrected to skip seen containers, ends with exactly the descendants of the container |
| ResourceManager.Manager.RemoveAll | src/manager.rs:665-673 | the deletion loop removes exactly the given ids, with their rows, frecencies and cache entries |
| ResourceManager.Manager.UpdateTextIndex | src/manager.rs:481-496 | containers are not indexed; otherwise every indexer adds its rows in turn, and the first error wins |
| ResourceManager.Manager.StoreResource | src/manager.rs:516-539 | the steps after the container check commit the reference result, or fail leaving every field, the cache included, as it was; this is the corrected cache timing of Findings 3 and 4 |
| ResourceManager.Manager.StagedRows | src/manager.rs:516-536 | the uncommitted steps yield the reference error, or the index rows of the reference result, which add rows of the new id only |
| ResourceManager.Manager.Create | src/manager.rs:506-540 | the reference create outcome: committed tables and cache on success, nothing changed on any error |
| ResourceManager.Manager.Update | src/manager.rs:542-579 | the reference update outcome: committed tables and cache on success, nothing changed (the cache included) on any error; this is the corrected update of Finding 4, whose as-written cache timing is `UpdateAsWritten` |
| ResourceManager.Manager.UpdateAsWritten | src/manager.rs:542-579 | update as written: the tables follow the reference, but the new metadata is cached once the container check passes, even when a later step fails |
| ResourceManager.Manager.CreateRoot | src/manager.rs:319-329 | the create of the root metadata, without content |
| ResourceManager.Manager.CreateAsWritten | src/manager.rs:140-198 | create as written: the tables follow the reference, but the metadata is cached once the insertion passes, even when a later step fails |
| ResourceManager.Manager.ByName | src/manager.rs:368-392 | a blank name is `EmptyNameQuery`; otherwise exactly the resources with that name (and tag), each once, by decreasing frecency |
| ResourceManager.Manager.ByTag | src/manager.rs:420-436 | a blank tag is `EmptyTagQuery`; otherwise exactly the resources with that tag, each once, by decreasing frecency |
| ResourceManager.Manager.ChildByName | src/manager.rs:395-416 | a blank name is `EmptyNameQuery`; otherwise a stored child with that parent and name, or `NoSuchResource` when there is none |
| ResourceManager.Manager.ByText | src/manager.rs:438-448 | a blank text is `EmptyTextQuery`; otherwise the full text search result |
| ResourceManager.Manager.TopByFrecency | src/manager.rs:450-463 | a zero count is `ZeroCountQuery`; otherwise the top `count` resources by frecency, with their frecency |
| ResourceManager.Manager.LastModified | src/manager.rs:465-479 | a zero count is `ZeroCountQuery`; otherwise the `count` most recently modified resources, with their frecency |
| ResourceManager.Reversed | src/manager.rs:362 | the path read backwards |
| ResourceManager.NotJsonFailsCreate | src/manager.rs:524-530 | content that is not JSON fails the create of a leaf once there is an indexer |
| ResourceManager.NotJsonFailsUpdate | src/manager.rs:566-572 | content that is not JSON fails the update of a leaf once there is an indexer, whether or not the id is stored |
| ResourceManager.StaleCacheAfterFailedCreate | src/manager.rs:195 | as written, the failed create of a leaf with unreadable content leaves it in the cache but not in the tables |
| ResourceManager.NoStaleCacheAfterFailedCreate | src/manager.rs:506-540 | corrected, the same failed create leaves it neither cached nor stored |
| ResourceManager.StaleCacheAfterFailedUpdate | src/manager.rs:556 | as written, the failed update of a stored leaf with unreadable content leaves the new metadata cached while the table keeps the old row |
| ResourceManager.NoStaleCacheAfterFailedUpdate | src/manager.rs:542-579 | corrected, the same failed update leaves the cache agreeing with the table |
| ResourceManager.DeleteLeavesNoOrphans | src/manager.rs:641-673 | no resource left after a delete hangs below a removed container |

## Left out

- Integer widths: the visit count, the frecency and the bonus are `u32`, and `max_substring_len` is `usize`. All of them are unbounded here. The product `visit_count * sum` in `frecency` would wrap after about 21 million visits (2000 points times the count passes 2^32). The model does not capture that wrap. Ids keep the `i64` range.
- Frecency when queried: the source computes it at query time with the SQL function `frecency(scorer)`. The model stores the frecency of each resource in the `frecency` field, set when a resource is created or visited. The serialized scorer, and the `sqlite_frecency` callback that decodes it, are not part of this model.
- ResourceManager.Manager.Visit: the score is a separate `Scorer.ObjectScore` object here. In the source it lives inside `ResourceMetadata`, and `ResourceMetadata` (with its variants) is not part of this model. The manager uses the `ObjectMetadata` of `src/common.rs`.
- Capacity of the metadata cache: the `LruCache` is a map without a capacity. Eviction of the least recently used entry is not modelled.
- ResourceManager.Manager.GetMetadata: rehydration from the content store (src/manager.rs:744-758) is left out. When the table lacks the id, the model answers as the content store does when it lacks the resource too: `NoSuchResource`.
- Serialization: bincode and JSON serialization of the scorer and of container contents go to the content store. There, `update_container_content` (src/manager.rs:279-290) is the `container` answer of `StoreAnswers`.
- SQL and I/O failures: these are left out of `add_text`, of `search` and of the tag and variant inserts. So are the seek and read errors of the content reader in `index` (src/indexer.rs:45-47); only the JSON parse error is modelled. So are the commit failures of the transactions, the content store's `delete` calls in `delete`, and the parent update in `delete`. Each of these would only return an error.
- Variants in the `variants` table, `delete_variant`, the transformer pipeline inside the manager, `get_container` and `close` are not part of this model.
- FtsIndex.Search: the `tag` parameter of the newer `search(text, tag)` that `by_text` calls is left out. The model searches the text alone, as `src/fts.rs` does.
- FtsIndex.Search: the text index is a set of (id, n-gram) rows. A row that is inserted twice counts once, because the name and an indexed text of the same resource share an n-gram. The source's SQL table could count it twice in the tally. The model's tally counts per word.
- Non-ASCII text: `Ngrams`, `AddText`, `Search` and the indexers require ASCII text. Byte offsets and character offsets then agree, and `word[0..max]` cannot split a character. Unicode lower-casing is modelled only for ASCII letters.
- Three unit-test counts are not proved:
  - the 21 n-grams of "Hello World" with limit 3 (src/fts.rs:125-126);
  - the 325 n-grams of "https://en.wikipedia.org/wiki/Freediving" with limit 10 (src/fts.rs:128-130);
  - the 21 n-grams of "child #17" with limit 5.
  Evaluating `Dedup` over candidate lists of that length is beyond the verifier's resource limit. `NgramsOfZero` proves the count for "0". `NgramsMembers` and `NgramsDistinct` state the general property behind all four counts.
- ResourceManager.Manager.ChildByName: when several children share a name, `fetch_optional` returns the first row the database chooses. The model returns any one of them.
- ResourceManager.Manager.CollectSubtree: each round collects the children of all the current containers at once, as a set. The source collects them container by container.
- ResourceManager.Manager.TopByFrecency: ties between equal keys may be broken in any order, as in SQL without a secondary key.
- Thumbnailer.TransformVariant: its contract states only that there is one result. What that result is, is stated by `OnlyDefaultImages`, `DeleteDropsThumbnail`, `CreatedOrUpdatedGivesThumbnail` and `ResultShape`. Decoding, scaling and JPEG encoding are the parameter `encode`.
- ResourceManager.Manager.ByTag and ResourceManager.Manager.ByName: the tags of a resource are treated as a set, so each id is returned once. In the source, `create_metadata` inserts one `tags` row per element of the tag list (src/manager.rs:170-171), and the joins of `by_tag` and of the tag branch of `by_name` (src/manager.rs:379-380, 427-428) return one row per matching `tags` row. For a tag listed twice, the source returns the id twice, or fails the create if the schema has a unique key on (id, tag). The schema is not part of this model, and neither outcome is modelled.
- ResourceManager.RowsWithout: the text index rows of a removed or updated id are assumed to go with its `resources` row, as by a cascading delete. The source states the cascade only for tags (src/manager.rs:620-621, 666-667), and the database schema is not part of this model. `UpdateResult`, `UpdateReplaces` and `Manager.Delete` rely on this assumption.
- Scorer.ObjectScore.Frecency: requires a non-empty log. The `u32` division by `entries.len()` at src/scorer.rs:90 would panic on an empty log. tests/manager.rs:410 and 435 expect 0 for a resource with no visit, which this `scorer.rs` cannot give; the manager takes the frecency of a new resource as the parameter `frec` and never computes it from an empty log.
- Timestamps are whole seconds. Clocks (`Utc::now()`) are parameters.

## Findings

| source | as written | input that shows it | evidently intended | confidence | as-written member | corrected member |
|---|---|---|---|---|---|---|
| src/manager.rs:378-381 | the tag query binds `name` to `tags.tag = ?` and `tag` to `name = ?` | `by_name("photo", Some("holiday"))` on a resource named "photo" tagged "holiday" | the resources with that name carrying that tag | high, not executed | ResourceManager.ByNameBindsSwapped | ResourceManager.Manager.ByName |
| src/manager.rs:641-663 | the collection loop of `delete` follows every child container again, with no record of containers already seen | containers 1, 2 and 3 in a chain below the root; `update` moves 1 into 3; then `delete(1)` | the loop stops once no new container is found | medium, not executed | ResourceTree.DeleteAsWrittenNeverStops | ResourceManager.Manager.CollectSubtree |
| src/manager.rs:195 | `create_metadata` caches the metadata before the transaction can still fail and roll back | a places indexer, then `create` of a leaf whose content is not JSON | a failed create leaves the cache unchanged | high, not executed | ResourceManager.StaleCacheAfterFailedCreate | ResourceManager.NoStaleCacheAfterFailedCreate |
| src/manager.rs:556 | `update` calls `create_metadata`, which caches the new metadata (line 195), before `update_container_content`, `update_text_index` or `store.update` can still fail and roll the update back | a places indexer and a stored leaf 1, then `update` of leaf 1 under a new name with content that is not JSON | a failed update leaves the cache agreeing with the stored row | high, not executed | ResourceManager.StaleCacheAfterFailedUpdate | ResourceManager.NoStaleCacheAfterFailedUpdate |
