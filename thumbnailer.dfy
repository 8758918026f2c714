/**
 * The thumbnailer of src/transformers/thumbnailer.rs. Decoding the image,
 * scaling it and writing it as JPEG belong to an image library; they are the
 * parameter `encode`, which maps the variant's bytes and the thumbnail size
 * to the JPEG bytes, or to nothing when any of those steps fails.
 */
module Thumbnailer {
  import opened Wrappers
  import opened Transformers

  const DEFAULT_THUMBNAIL_SIZE: nat := 128

  datatype Thumbnailer = Thumbnailer(size: nat)

  /** `Thumbnailer::default`. */
  function Default(): (t: Thumbnailer)
    ensures t.size == DEFAULT_THUMBNAIL_SIZE == 128
  {
    Thumbnailer(DEFAULT_THUMBNAIL_SIZE)
  }

  /** The image pipeline: the bytes of a thumbnail of at most `size` by `size`, or a failure. */
  type Encoder = (seq<byte>, nat) -> Option<seq<byte>>

  /** The variant `create_thumbnail` builds around the JPEG bytes. */
  function ThumbnailVariant(bytes: seq<byte>): (v: Variant)
    ensures v.metadata.name == "thumbnail" && v.metadata.mimeType == "image/jpeg"
    ensures v.metadata.size == |v.content| && v.content == bytes
  {
    Variant(VariantMetadata("thumbnail", "image/jpeg", |bytes|), bytes)
  }

  /** `create_thumbnail`: the whole content is read and handed to the image pipeline. */
  function CreateThumbnail(variant: Variant, size: nat, encode: Encoder): (r: Option<Variant>)
    ensures r.Some? <==> encode(variant.content, size).Some?
    ensures r.Some? ==> r.value == ThumbnailVariant(encode(variant.content, size).value)
  {
    match encode(variant.content, size)
    case Some(bytes) => Some(ThumbnailVariant(bytes))
    case None => None
  }

  /**
   * `transform_variant`: only the default variant of an image is processed.
   * Deleting it deletes the thumbnail; creating or updating it creates or
   * updates the thumbnail, unless the thumbnail cannot be made.
   */
  function TransformVariant(t: Thumbnailer, change: VariantChange, encode: Encoder): (r: seq<TransformationResult>)
    ensures |r| == 1
  {
    var meta := change.Deref().metadata;
    var res :=
      if IsDefaultImage(meta) then
        if change.IsDeleted() then Delete("thumbnail")
        else (
          match CreateThumbnail(change.Deref(), t.size, encode)
          case Some(v) => if change.IsCreated() then Create(v) else Update(v)
          case None => Noop)
      else Noop;
    [res]
  }

  /** Variants other than the default image are left alone. */
  lemma OnlyDefaultImages(t: Thumbnailer, change: VariantChange, encode: Encoder)
    ensures !IsDefaultImage(change.Deref().metadata) ==> TransformVariant(t, change, encode) == [Noop]
    ensures TransformVariant(t, change, encode)[0] != Noop ==> IsDefaultImage(change.Deref().metadata)
  {
  }

  /** Deleting the default image deletes the thumbnail, without running the image pipeline. */
  lemma DeleteDropsThumbnail(t: Thumbnailer, change: VariantChange, encode: Encoder, other: Encoder)
    requires change.IsDeleted() && IsDefaultImage(change.Deref().metadata)
    ensures TransformVariant(t, change, encode) == [Delete("thumbnail")]
    ensures TransformVariant(t, change, encode) == TransformVariant(t, change, other)
  {
  }

  /** A created or updated default image gives the thumbnail of its content, at the configured size. */
  lemma CreatedOrUpdatedGivesThumbnail(t: Thumbnailer, change: VariantChange, encode: Encoder)
    requires IsDefaultImage(change.Deref().metadata) && !change.IsDeleted()
    ensures var r := TransformVariant(t, change, encode)[0];
      match encode(change.Deref().content, t.size)
      case None => r == Noop
      case Some(bytes) =>
        (change.IsCreated() ==> r == Create(ThumbnailVariant(bytes)))
        && (change.IsUpdated() ==> r == Update(ThumbnailVariant(bytes)))
  {
  }

  /**
   * Every variant the thumbnailer produces is a JPEG named "thumbnail" whose
   * declared size is its length, and a deletion always names "thumbnail".
   */
  lemma ResultShape(t: Thumbnailer, change: VariantChange, encode: Encoder)
    ensures var r := TransformVariant(t, change, encode)[0];
      (r.Create? || r.Update? ==>
        r.variant.metadata.name == "thumbnail" && r.variant.metadata.mimeType == "image/jpeg"
        && r.variant.metadata.size == |r.variant.content|)
      && (r.Delete? ==> r.variantName == "thumbnail" && change.IsDeleted())
      && (r.Create? ==> change.IsCreated())
      && (r.Update? ==> change.IsUpdated())
  {
  }
}
