/** The Option type, as Rust's `Option<T>`. */
module Wrappers {
  datatype Option<+T> = None | Some(value: T)
}

/**
 * Shared types of the resource index: identifiers, resource kinds, the error
 * type with its hand-written equality, and resource metadata.
 */
module Common {
  import opened Wrappers

  const I64_MIN: int := -0x8000_0000_0000_0000
  const I64_MAX: int := 0x7fff_ffff_ffff_ffff

  /** A signed 64-bit integer, the width of ids, sizes and timestamps in the source. */
  newtype i64 = x: int | I64_MIN <= x <= I64_MAX

  /** Resource identifiers wrap an `i64`. */
  type ResourceId = i64

  /** The root of the hierarchy; it is the only resource allowed to be its own parent. */
  const ROOT_ID: ResourceId := 0

  predicate IsRoot(id: ResourceId) { id == ROOT_ID }

  /** Timestamps, in whole seconds since the epoch. */
  type Timestamp = int

  datatype ResourceKind = Container | Leaf

  /** The integer stored for a kind (`#[repr(u8)]`, declaration order). */
  function KindToInt(k: ResourceKind): (v: int)
    ensures v == 0 || v == 1
  {
    match k
    case Container => 0
    case Leaf => 1
  }

  /** `From<i64> for ObjectKind`: 0 and 1 decode, any other value panics. */
  function KindFromInt(v: int): (k: ResourceKind)
    requires v == 0 || v == 1
    ensures KindToInt(k) == v
  {
    if v == 0 then Container else Leaf
  }

  lemma KindRoundTrip(k: ResourceKind)
    ensures KindFromInt(KindToInt(k)) == k
  {
  }

  /**
   * The error type. The payloads of `Sql`, `Json`, `Io` and `Bincode` stand for
   * foreign error values and are kept only as opaque text.
   */
  datatype StoreError =
    | ObjectAlreadyExists
    | NoSuchResource
    | ResourceCycle
    | Custom(message: string)
    | Sql(detail: string)
    | Json(detail: string)
    | Io(detail: string)
    | InvalidContainerId
    | Bincode(detail: string)

  datatype Outcome = Pass | Fail(error: StoreError)

  datatype Result<+T> = Ok(value: T) | Err(error: StoreError)

  /** The position of a variant in the declaration of `StoreError`. */
  function Discriminant(e: StoreError): (d: nat)
    ensures d < 9
  {
    match e
    case ObjectAlreadyExists => 0
    case NoSuchResource => 1
    case ResourceCycle => 2
    case Custom(_) => 3
    case Sql(_) => 4
    case Json(_) => 5
    case Io(_) => 6
    case InvalidContainerId => 7
    case Bincode(_) => 8
  }

  /** The hand-written `PartialEq for ObjectStoreError`. */
  predicate ErrorEq(a: StoreError, b: StoreError) {
    match (a, b)
    case (Custom(m1), Custom(m2)) => m1 == m2
    case (ObjectAlreadyExists, ObjectAlreadyExists) => true
    case (NoSuchResource, NoSuchResource) => true
    case (ResourceCycle, ResourceCycle) => true
    case (Sql(_), Sql(_)) => true
    case (Json(_), Json(_)) => true
    case (Io(_), Io(_)) => true
    case (InvalidContainerId, InvalidContainerId) => true
    case (Bincode(_), Bincode(_)) => true
    case _ => false
  }

  /**
   * Two errors are equal exactly when they are the same variant and, for
   * `Custom`, carry the same message; other payloads are ignored.
   */
  lemma ErrorEqMeaning(a: StoreError, b: StoreError)
    ensures ErrorEq(a, b) <==>
      Discriminant(a) == Discriminant(b) && (a.Custom? ==> a.message == b.message)
  {
  }

  lemma ErrorEqIgnoresPayload(x: string, y: string)
    ensures ErrorEq(Sql(x), Sql(y)) && ErrorEq(Json(x), Json(y))
    ensures ErrorEq(Io(x), Io(y)) && ErrorEq(Bincode(x), Bincode(y))
    ensures ErrorEq(Custom(x), Custom(y)) <==> x == y
  {
  }

  /** The equality is an equivalence relation, as `PartialEq` users expect of `==`. */
  lemma ErrorEqIsEquivalence(a: StoreError, b: StoreError, c: StoreError)
    ensures ErrorEq(a, a)
    ensures ErrorEq(a, b) ==> ErrorEq(b, a)
    ensures ErrorEq(a, b) && ErrorEq(b, c) ==> ErrorEq(a, c)
  {
  }

  /**
   * The metadata of a resource. It is a value in the source (cloned into the
   * cache and compared with `==`), so it is a datatype here and its setters
   * return the updated value.
   */
  datatype ObjectMetadata = ObjectMetadata(
    id: ResourceId,
    parent: ResourceId,
    kind: ResourceKind,
    size: i64,
    name: string,
    mimeType: string,
    tags: Option<seq<string>>,
    created: Timestamp,
    modified: Timestamp)
  {
    /** `set_tags`: only the tags change. */
    function SetTags(t: Option<seq<string>>): (r: ObjectMetadata)
      ensures r.tags == t
      ensures r.id == id && r.parent == parent && r.kind == kind && r.size == size
      ensures r.name == name && r.mimeType == mimeType
      ensures r.created == created && r.modified == modified
    {
      this.(tags := t)
    }

    /** `set_created`: only the creation date changes. */
    function SetCreated(date: Timestamp): (r: ObjectMetadata)
      ensures r.created == date
      ensures r.id == id && r.parent == parent && r.kind == kind && r.size == size
      ensures r.name == name && r.mimeType == mimeType
      ensures r.tags == tags && r.modified == modified
    {
      this.(created := date)
    }

    /** `set_modified`: only the modification date changes. */
    function SetModified(date: Timestamp): (r: ObjectMetadata)
      ensures r.modified == date
      ensures r.id == id && r.parent == parent && r.kind == kind && r.size == size
      ensures r.name == name && r.mimeType == mimeType
      ensures r.tags == tags && r.created == created
    {
      this.(modified := date)
    }
  }

  /**
   * `ObjectMetadata::new`: both dates are set to the current time, which is a
   * parameter here.
   */
  function NewMetadata(id: ResourceId, parent: ResourceId, kind: ResourceKind, size: i64,
                       name: string, mimeType: string, tags: Option<seq<string>>,
                       now: Timestamp): (m: ObjectMetadata)
    ensures m.id == id && m.parent == parent && m.kind == kind && m.size == size
    ensures m.name == name && m.mimeType == mimeType && m.tags == tags
    ensures m.created == now && m.modified == now
  {
    ObjectMetadata(id, parent, kind, size, name, mimeType, tags, now, now)
  }

  /** Setting one field and reading another gives back the value from `new`. */
  lemma SettersCommute(m: ObjectMetadata, t: Option<seq<string>>, c: Timestamp, d: Timestamp)
    ensures m.SetTags(t).SetCreated(c).SetModified(d) == m.SetModified(d).SetCreated(c).SetTags(t)
  {
  }
}
