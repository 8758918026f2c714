/**
 * The resource tree as the manager of src/manager.rs sees it in its
 * `resources` table: the container/leaf admission rule, children, the walk
 * from a resource up to the root, and the subtree a deletion removes.
 *
 * The table maps each id to the metadata stored for it.
 */
module ResourceTree {
  import opened Wrappers
  import opened Common

  type Table = map<ResourceId, ObjectMetadata>

  /** Every row is stored under its own id. */
  predicate WellKeyed(t: Table) {
    forall id :: id in t ==> t[id].id == id
  }

  /** `is_container`: the id is in the table with kind Container. */
  predicate IsContainerIn(t: Table, id: ResourceId) {
    id in t && t[id].kind == Container
  }

  /**
   * `check_container_leaf`: only the root may be its own parent, and any
   * other resource needs a parent that is a known container.
   */
  function CheckContainerLeaf(t: Table, id: ResourceId, parent: ResourceId): (o: Outcome)
    ensures o.Pass? <==> (parent != id || IsRoot(id)) && (IsRoot(id) || IsContainerIn(t, parent))
    ensures o.Fail? ==> o.error == InvalidContainerId
  {
    if parent == id && !IsRoot(parent) then Fail(InvalidContainerId)
    else if !IsRoot(id) && !IsContainerIn(t, parent) then Fail(InvalidContainerId)
    else Pass
  }

  /** `x` is listed by `children_of(p)`: its parent is `p` and it is not its own parent. */
  predicate ChildOf(t: Table, x: ResourceId, p: ResourceId) {
    x in t && t[x].parent == p && t[x].parent != x
  }

  /** `children_of`: the ids whose parent is `p`, leaving out a self-parented row. */
  function ChildrenOf(t: Table, p: ResourceId): (c: set<ResourceId>)
    ensures c <= t.Keys
    ensures p !in c
  {
    set x | x in t && t[x].parent == p && t[x].parent != x
  }

  lemma ChildrenOfMembers(t: Table, p: ResourceId, x: ResourceId)
    ensures x in ChildrenOf(t, p) <==> ChildOf(t, x, p)
  {
  }

  /** `parent_of`: the stored parent, or `NoSuchResource` for an unknown id. */
  function ParentOf(t: Table, id: ResourceId): (r: Result<ResourceId>)
    ensures r.Ok? <==> id in t
    ensures r.Ok? ==> r.value == t[id].parent
    ensures r.Err? ==> r.error == NoSuchResource
  {
    if id in t then Ok(t[id].parent) else Err(NoSuchResource)
  }

  // ---------------------------------------------------------------------
  // The walk of `get_full_path`

  /** A result extended by a suffix when it is a path; an error stays. */
  function Extend(r: Result<seq<ObjectMetadata>>, suffix: seq<ObjectMetadata>): Result<seq<ObjectMetadata>> {
    match r
    case Ok(p) => Ok(p + suffix)
    case Err(e) => Err(e)
  }

  lemma ExtendTwice(r: Result<seq<ObjectMetadata>>, s1: seq<ObjectMetadata>, s2: seq<ObjectMetadata>)
    ensures Extend(Extend(r, s1), s2) == Extend(r, s1 + s2)
  {
    if r.Ok? {
      assert r.value + s1 + s2 == r.value + (s1 + s2);
    }
  }

  lemma ExtendEmpty(r: Result<seq<ObjectMetadata>>)
    ensures Extend(r, []) == r
  {
    if r.Ok? {
      assert r.value + [] == r.value;
    }
  }

  /**
   * The walk from `current` up the parents, root first: a cycle when an id
   * comes back, `NoSuchResource` when an ancestor is missing, and the end at
   * the first root.
   */
  function Walk(t: Table, current: ResourceId, visited: set<ResourceId>): Result<seq<ObjectMetadata>>
    decreases |t.Keys - visited|
  {
    if current in visited then Err(ResourceCycle)
    else if current !in t then Err(NoSuchResource)
    else if IsRoot(current) then Ok([t[current]])
    else
      assert t.Keys - (visited + {current}) == (t.Keys - visited) - {current};
      Extend(Walk(t, t[current].parent, visited + {current}), [t[current]])
  }

  /** What `get_full_path` returns for `id`. */
  function FullPath(t: Table, id: ResourceId): Result<seq<ObjectMetadata>> {
    Walk(t, id, {})
  }

  /**
   * `p` runs from the root down to `id`: every row is stored, the first is
   * the root, each is the parent of the next, and only the first is the root.
   */
  predicate RootPath(t: Table, p: seq<ObjectMetadata>, id: ResourceId) {
    && |p| > 0
    && (forall k :: 0 <= k < |p| ==> p[k].id in t && t[p[k].id] == p[k])
    && IsRoot(p[0].id)
    && p[|p| - 1].id == id
    && (forall k :: 0 <= k < |p| - 1 ==> p[k].id == p[k + 1].parent)
    && (forall k :: 0 < k < |p| ==> !IsRoot(p[k].id))
  }

  /** A path the walk returns never holds an id it had visited before. */
  lemma {:induction false} WalkAvoidsVisited(t: Table, current: ResourceId, visited: set<ResourceId>)
    requires WellKeyed(t)
    requires Walk(t, current, visited).Ok?
    ensures var p := Walk(t, current, visited).value;
      forall k :: 0 <= k < |p| ==> p[k].id !in visited
    decreases |t.Keys - visited|
  {
    if !IsRoot(current) {
      assert t.Keys - (visited + {current}) == (t.Keys - visited) - {current};
      WalkAvoidsVisited(t, t[current].parent, visited + {current});
    }
  }

  /** Soundness of the walk: what it returns is a root path ending at its start. */
  lemma {:induction false} WalkIsRootPath(t: Table, current: ResourceId, visited: set<ResourceId>)
    requires WellKeyed(t)
    requires Walk(t, current, visited).Ok?
    ensures RootPath(t, Walk(t, current, visited).value, current)
    decreases |t.Keys - visited|
  {
    if !IsRoot(current) {
      assert t.Keys - (visited + {current}) == (t.Keys - visited) - {current};
      var q := Walk(t, t[current].parent, visited + {current}).value;
      WalkIsRootPath(t, t[current].parent, visited + {current});
      var p := q + [t[current]];
      assert Walk(t, current, visited).value == p;
      assert p[|p| - 2] == q[|q| - 1];
    }
  }

  /** In a root path, no id occurs twice. */
  lemma RootPathDistinct(t: Table, p: seq<ObjectMetadata>, id: ResourceId)
    requires RootPath(t, p, id)
    ensures forall i, j :: 0 <= i < j < |p| ==> p[i].id != p[j].id
  {
    forall i, j | 0 <= i < j < |p| ensures p[i].id != p[j].id {
      if p[i].id == p[j].id {
        RootPathNoRepeat(t, p, id, i, j);
      }
    }
  }

  /** Equal ids at `i` and `j` would give equal ids at `0` and `j - i`, a root below the top. */
  lemma {:induction false} RootPathNoRepeat(t: Table, p: seq<ObjectMetadata>, id: ResourceId, i: nat, j: nat)
    requires RootPath(t, p, id)
    requires i < j < |p| && p[i].id == p[j].id
    ensures false
    decreases i
  {
    if i > 0 {
      assert p[i] == p[j];
      assert p[i - 1].id == p[i].parent == p[j].parent == p[j - 1].id;
      RootPathNoRepeat(t, p, id, i - 1, j - 1);
    }
  }

  /** Completeness of the walk: a root path whose ids were not visited is what it returns. */
  lemma {:induction false} RootPathIsWalked(t: Table, p: seq<ObjectMetadata>, visited: set<ResourceId>)
    requires |p| > 0 && RootPath(t, p, p[|p| - 1].id)
    requires forall k :: 0 <= k < |p| ==> p[k].id !in visited
    requires forall i, j :: 0 <= i < j < |p| ==> p[i].id != p[j].id
    ensures Walk(t, p[|p| - 1].id, visited) == Ok(p)
    decreases |p|
  {
    var current := p[|p| - 1].id;
    assert t[current] == p[|p| - 1];
    if |p| > 1 {
      var q := p[..|p| - 1];
      assert q[|q| - 1].id == p[|p| - 2].id == t[current].parent;
      assert RootPath(t, q, q[|q| - 1].id);
      forall k | 0 <= k < |q| ensures q[k].id !in visited + {current} {
        assert q[k] == p[k];
      }
      RootPathIsWalked(t, q, visited + {current});
      assert p == q + [t[current]];
      assert current !in visited && !IsRoot(current);
      assert Walk(t, current, visited) == Extend(Walk(t, t[current].parent, visited + {current}), [t[current]]);
      assert Walk(t, t[current].parent, visited + {current}) == Ok(q);
      assert Extend(Ok(q), [t[current]]) == Ok(p);
    } else {
      assert p == [t[current]];
    }
  }

  /** `get_full_path` succeeds exactly when a root path to the id exists, and then returns it. */
  lemma FullPathMeaning(t: Table, id: ResourceId)
    requires WellKeyed(t)
    ensures FullPath(t, id).Ok? ==> RootPath(t, FullPath(t, id).value, id)
    ensures forall p :: RootPath(t, p, id) ==> FullPath(t, id) == Ok(p)
  {
    if FullPath(t, id).Ok? {
      WalkIsRootPath(t, id, {});
    }
    forall p | RootPath(t, p, id) ensures FullPath(t, id) == Ok(p) {
      RootPathDistinct(t, p, id);
      RootPathIsWalked(t, p, {});
    }
  }

  /** An unknown id has no path. */
  lemma FullPathUnknown(t: Table, id: ResourceId)
    requires id !in t
    ensures FullPath(t, id) == Err(NoSuchResource)
  {
  }

  /** Two resources that are each other's parent form a cycle, which the walk reports. */
  lemma FullPathCycle(t: Table, a: ResourceId, b: ResourceId)
    requires a in t && b in t && a != b && !IsRoot(a) && !IsRoot(b)
    requires t[a].parent == b && t[b].parent == a
    ensures FullPath(t, a) == Err(ResourceCycle)
  {
    assert Walk(t, a, {a} + {b}) == Err(ResourceCycle);
    assert Walk(t, b, {a}) == Extend(Walk(t, a, {a} + {b}), [t[b]]);
    assert Walk(t, a, {}) == Extend(Walk(t, b, {} + {a}), [t[a]]);
    assert {} + {a} == {a};
  }

  /**
   * The hierarchy of the manager tests: the path to 30 runs through the
   * container 1 and the container 10, and the path to the root is the root.
   */
  lemma FullPathOfTestHierarchy(t: Table)
    requires WellKeyed(t)
    requires 0 in t && 1 in t && 10 in t && 30 in t
    requires t[1].parent == 0 && t[10].parent == 1 && t[30].parent == 10
    ensures FullPath(t, 30) == Ok([t[0], t[1], t[10], t[30]])
    ensures FullPath(t, ROOT_ID) == Ok([t[0]])
  {
    var p := [t[0], t[1], t[10], t[30]];
    assert RootPath(t, p, 30);
    FullPathMeaning(t, 30);
    assert RootPath(t, [t[0]], ROOT_ID);
    FullPathMeaning(t, ROOT_ID);
  }

  // ---------------------------------------------------------------------
  // The subtree of `delete`

  /**
   * A chain the deletion loop follows: each element is a container and the
   * next one is among its children.
   */
  predicate ContainerChain(t: Table, c: seq<ResourceId>) {
    |c| >= 2 && forall k :: 0 <= k < |c| - 1 ==> IsContainerIn(t, c[k]) && ChildOf(t, c[k + 1], c[k])
  }

  /** `x` is reached from `id` through containers only. */
  ghost predicate Descendant(t: Table, id: ResourceId, x: ResourceId) {
    exists c :: ContainerChain(t, c) && c[0] == id && c[|c| - 1] == x
  }

  /**
   * The ids a deletion of `id` removes: the resource itself and, when it is a
   * container, everything reached from it through containers.
   */
  ghost function Removed(t: Table, id: ResourceId): set<ResourceId> {
    if IsContainerIn(t, id) then {id} + set x | x in t && Descendant(t, id, x) else {id}
  }

  /** Deleting a leaf removes only the leaf. */
  lemma LeafRemovedAlone(t: Table, id: ResourceId)
    requires !IsContainerIn(t, id)
    ensures Removed(t, id) == {id}
  {
  }

  /** The self-parented root is nobody's child, so deleting any other resource keeps it. */
  lemma RootSurvives(t: Table, id: ResourceId)
    requires ROOT_ID in t && t[ROOT_ID].parent == ROOT_ID && id != ROOT_ID
    ensures ROOT_ID !in Removed(t, id)
  {
    if Descendant(t, id, ROOT_ID) {
      var c :| ContainerChain(t, c) && c[0] == id && c[|c| - 1] == ROOT_ID;
      ChainEndsInChild(t, c);
      assert false;
    }
  }

  lemma ChainEndsInChild(t: Table, c: seq<ResourceId>)
    requires ContainerChain(t, c)
    ensures ChildOf(t, c[|c| - 1], c[|c| - 2])
  {
    assert 0 <= |c| - 2 < |c| - 1;
  }

  /** A child of a container is reached from it. */
  lemma ChildIsDescendant(t: Table, id: ResourceId, x: ResourceId)
    requires IsContainerIn(t, id) && ChildOf(t, x, id)
    ensures Descendant(t, id, x)
  {
    var c := [id, x];
    assert ContainerChain(t, c);
  }

  /** A child of a container reached from `id` is reached from `id` as well. */
  lemma DescendantStep(t: Table, id: ResourceId, y: ResourceId, x: ResourceId)
    requires Descendant(t, id, y) && IsContainerIn(t, y) && ChildOf(t, x, y)
    ensures Descendant(t, id, x)
  {
    var c :| ContainerChain(t, c) && c[0] == id && c[|c| - 1] == y;
    var c' := c + [x];
    assert ContainerChain(t, c');
  }

  /**
   * A set holding `id` and closed under taking the children of its
   * containers holds everything reached from `id`.
   */
  lemma ClosedHoldsDescendants(t: Table, id: ResourceId, s: set<ResourceId>, x: ResourceId)
    requires id in s
    requires forall y, z :: y in s && IsContainerIn(t, y) && ChildOf(t, z, y) ==> z in s
    requires Descendant(t, id, x)
    ensures x in s
  {
    var c :| ContainerChain(t, c) && c[0] == id && c[|c| - 1] == x;
    ChainInClosed(t, c, s, |c| - 1);
  }

  lemma {:induction false} ChainInClosed(t: Table, c: seq<ResourceId>, s: set<ResourceId>, n: nat)
    requires ContainerChain(t, c) && c[0] in s && n < |c|
    requires forall y, z :: y in s && IsContainerIn(t, y) && ChildOf(t, z, y) ==> z in s
    ensures c[n] in s
  {
    if n > 0 {
      ChainInClosed(t, c, s, n - 1);
      assert IsContainerIn(t, c[n - 1]) && ChildOf(t, c[n], c[n - 1]);
    }
  }

  /**
   * One round of the collection loop of `delete` as written: the children of
   * the current containers that are containers themselves, whether or not
   * they were collected before.
   */
  function NextContainersAsWritten(t: Table, containers: set<ResourceId>): set<ResourceId> {
    set x | x in t && t[x].parent in containers && t[x].parent != x && IsContainerIn(t, x)
  }

  /** The containers the loop as written looks at in round `n`. */
  function FrontierAsWritten(t: Table, start: set<ResourceId>, n: nat): set<ResourceId> {
    if n == 0 then start else NextContainersAsWritten(t, FrontierAsWritten(t, start, n - 1))
  }

  /** Three containers below the root: 1 in the root, 2 in 1, 3 in 2. */
  function ChainTable(): Table {
    map[
      0 := ObjectMetadata(0, 0, Container, 0, "/", "inode/directory", None, 0, 0),
      1 := ObjectMetadata(1, 0, Container, 0, "a", "inode/directory", None, 0, 0),
      2 := ObjectMetadata(2, 1, Container, 0, "b", "inode/directory", None, 0, 0),
      3 := ObjectMetadata(3, 2, Container, 0, "c", "inode/directory", None, 0, 0)]
  }

  /** The same table after an update that moves 1 into 3. */
  function CycleTable(): Table {
    ChainTable()[1 := ChainTable()[1].(parent := 3)]
  }

  /** `update` admits the move: 3 is a known container and 1 is not its own parent. */
  lemma MoveIntoDescendantAdmitted()
    ensures CheckContainerLeaf(ChainTable(), 1, 3) == Pass
    ensures WellKeyed(CycleTable())
  {
  }

  function CycleMember(n: nat): ResourceId {
    if n % 3 == 0 then 1 else if n % 3 == 1 then 2 else 3
  }

  lemma NextInCycle(n: nat)
    ensures NextContainersAsWritten(CycleTable(), {CycleMember(n)}) == {CycleMember(n + 1)}
  {
    var t := CycleTable();
    var c := CycleMember(n);
    var next := NextContainersAsWritten(t, {c});
    assert CycleMember(n + 1) in next;
    forall x | x in next ensures x == CycleMember(n + 1) {
      assert x in t;
      assert x == 0 || x == 1 || x == 2 || x == 3;
    }
  }

  /**
   * Deleting 1 once the containers form the cycle 1, 2, 3: the loop as
   * written finds a non-empty set of containers in every round, so it never
   * reaches its `break`.
   */
  lemma {:induction false} DeleteAsWrittenNeverStops(n: nat)
    ensures FrontierAsWritten(CycleTable(), {1}, n) == {CycleMember(n)}
    ensures FrontierAsWritten(CycleTable(), {1}, n) != {}
  {
    if n > 0 {
      DeleteAsWrittenNeverStops(n - 1);
      NextInCycle(n - 1);
    }
  }

  /** The same deletion in the corrected loop removes exactly the cycle. */
  lemma CycleRemoved()
    ensures Removed(CycleTable(), 1) == {1, 2, 3}
  {
    var t := CycleTable();
    ChildIsDescendant(t, 1, 2);
    DescendantStep(t, 1, 2, 3);
    var s := {1, 2, 3};
    forall y, z | y in s && IsContainerIn(t, y) && ChildOf(t, z, y) ensures z in s {
      assert z in t;
    }
    forall x | x in t && Descendant(t, 1, x) ensures x in s {
      ClosedHoldsDescendants(t, 1, s, x);
    }
  }
}
