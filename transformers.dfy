/**
 * Variant transformers (src/transformers/mod.rs): the change handed to a
 * transformer, the results it can return, and the decision rule of the
 * thumbnailer used by the module's tests.
 *
 * A variant's content is a reader in the source; here it is the bytes the
 * reader yields.
 */
module Transformers {
  newtype byte = x: int | 0 <= x < 256

  /** A variant's name, MIME type and size in bytes. */
  datatype VariantMetadata = VariantMetadata(name: string, mimeType: string, size: int)

  datatype Variant = Variant(metadata: VariantMetadata, content: seq<byte>)

  /** What happened to a variant. */
  datatype VariantChange = Created(created: Variant) | Updated(updated: Variant) | Deleted(deleted: Variant)
  {
    predicate IsCreated() { Created? }

    predicate IsUpdated() { Updated? }

    predicate IsDeleted() { Deleted? }

    /** `deref`: the changed variant, whatever the kind of change. */
    function Deref(): (v: Variant)
      ensures this == Created(v) || this == Updated(v) || this == Deleted(v)
    {
      match this
      case Created(v) => v
      case Updated(v) => v
      case Deleted(v) => v
    }

    /**
     * `deref_mut`, as the change after writing `v` through the mutable
     * reference: the kind of change stays, the variant is replaced.
     */
    function WithVariant(v: Variant): (c: VariantChange)
      ensures c.Deref() == v
      ensures c.IsCreated() == IsCreated() && c.IsUpdated() == IsUpdated() && c.IsDeleted() == IsDeleted()
    {
      match this
      case Created(_) => Created(v)
      case Updated(_) => Updated(v)
      case Deleted(_) => Deleted(v)
    }
  }

  /** Every change is of exactly one kind. */
  lemma ExactlyOneKind(c: VariantChange)
    ensures c.IsCreated() || c.IsUpdated() || c.IsDeleted()
    ensures !(c.IsCreated() && c.IsUpdated())
    ensures !(c.IsCreated() && c.IsDeleted())
    ensures !(c.IsUpdated() && c.IsDeleted())
  {
  }

  /** Writing back the variant `deref` gave leaves the change as it was. */
  lemma WithVariantDeref(c: VariantChange)
    ensures c.WithVariant(c.Deref()) == c
  {
  }

  datatype TransformationResult =
    | Noop
    | Delete(variantName: string)
    | Create(variant: Variant)
    | Update(variant: Variant)

  predicate StartsWith(s: string, prefix: string) {
    |prefix| <= |s| && s[..|prefix|] == prefix
  }

  /** Only the default variant of an image resource (MIME type `image/...`) is thumbnailed. */
  predicate IsDefaultImage(meta: VariantMetadata) {
    meta.name == "default" && StartsWith(meta.mimeType, "image/")
  }

  /** `named_content` of the tests: a variant of 42 bytes declared size, over a fixed file. */
  function NamedContent(name: string, mimeType: string, file: seq<byte>): (v: Variant)
    ensures v.metadata.name == name && v.metadata.mimeType == mimeType && v.metadata.size == 42
  {
    Variant(VariantMetadata(name, mimeType, 42), file)
  }

  /**
   * The test thumbnailer: a default image variant that is deleted drops the
   * "thumbnail" variant; created or updated, it gets a new "image/png" one;
   * anything else is left alone. There is always exactly one result.
   */
  function TestThumbnail(change: VariantChange, file: seq<byte>): (r: seq<TransformationResult>)
    ensures |r| == 1
    ensures r[0] == Noop <==> !IsDefaultImage(change.Deref().metadata)
    ensures r[0].Delete? <==> IsDefaultImage(change.Deref().metadata) && change.IsDeleted()
    ensures r[0].Delete? ==> r[0].variantName == "thumbnail"
    ensures r[0].Create? <==> IsDefaultImage(change.Deref().metadata) && change.IsCreated()
    ensures r[0].Update? <==> IsDefaultImage(change.Deref().metadata) && change.IsUpdated()
    ensures r[0].Create? || r[0].Update? ==>
      r[0].variant.metadata.name == "thumbnail" && r[0].variant.metadata.mimeType == "image/png"
  {
    var res :=
      if IsDefaultImage(change.Deref().metadata) then
        if change.IsDeleted() then Delete("thumbnail")
        else (
          var v := NamedContent("thumbnail", "image/png", file);
          if change.IsCreated() then Create(v) else Update(v))
      else Noop;
    [res]
  }

  /** The four cases of `thumbnail_transform`. */
  lemma ThumbnailTransformCases(file: seq<byte>)
    ensures TestThumbnail(Created(NamedContent("default", "text/plain", file)), file) == [Noop]
    ensures TestThumbnail(Created(NamedContent("icon", "image/png", file)), file) == [Noop]
    ensures TestThumbnail(Deleted(NamedContent("default", "image/png", file)), file) == [Delete("thumbnail")]
    ensures var r := TestThumbnail(Created(NamedContent("default", "image/png", file)), file);
      r[0].Create? && r[0].variant.metadata.name == "thumbnail"
  {
    assert !StartsWith("text/plain", "image/") by {
      assert "text/plain"[0] != "image/"[0];
    }
    assert StartsWith("image/png", "image/") by {
      assert "image/png"[..6] == "image/";
    }
  }
}
