/** Abstract Android graphics values: bitmaps are described by their size and
    an opaque description of their pixels; drawables by how they were built. */
module Graphics {

  /** What a bitmap depicts. Pixel data itself is not modelled. */
  datatype Pixels =
    | CoverArt(id: nat)          // artwork as returned by the music service
    | Transparent                // a freshly allocated ARGB_8888 bitmap
    | UnknownAlbumLarge          // the large "unknown album" asset, rescaled
    | Reflected(source: Pixels)  // a source image with its reflection below

  /** A bitmap of `width` columns and `height` rows. */
  datatype Bitmap = Bitmap(width: nat, height: nat, pixels: Pixels)

  /** The drawables the loader hands to its targets. */
  datatype Drawable =
    | BitmapDrawable(bitmap: Bitmap)
      /** The small "unknown album" resource with its intrinsic size. */
    | UnknownAlbum(width: nat, height: nat)
      /** A two-layer cross-fade from `first` to `second`. */
    | Transition(first: Drawable, second: Drawable)

  function Max(a: nat, b: nat): nat { if a < b then b else a }

  /** Intrinsic width of a drawable; a layered drawable is as wide as its widest layer. */
  function IntrinsicWidth(d: Drawable): nat {
    match d
    case BitmapDrawable(b) => b.width
    case UnknownAlbum(w, _) => w
    case Transition(a, b) => Max(IntrinsicWidth(a), IntrinsicWidth(b))
  }

  /** Intrinsic height of a drawable; a layered drawable is as tall as its tallest layer. */
  function IntrinsicHeight(d: Drawable): nat {
    match d
    case BitmapDrawable(b) => b.height
    case UnknownAlbum(_, h) => h
    case Transition(a, b) => Max(IntrinsicHeight(a), IntrinsicHeight(b))
  }

  /** The picture a drawable shows once every cross-fade in it has finished. */
  function Settled(d: Drawable): Drawable {
    match d
    case Transition(_, second) => Settled(second)
    case _ => d
  }

  /** `Bitmap.copy`: a new, separately owned bitmap with the same size and pixels.
      Values have no identity here, so the copy is equal to its original. */
  function CopyBitmap(b: Bitmap): (c: Bitmap)
    ensures c.width == b.width && c.height == b.height && c.pixels == b.pixels
  {
    Bitmap(b.width, b.height, b.pixels)
  }
}
