/** The size and offset arithmetic of `createReflection`: a source bitmap of
    W x H is drawn on a canvas of W x (H + H/2), a 4-row gap is painted below
    it, and a blurred, mirrored, fading strip of H/2 rows is drawn below the
    gap. Pixel work (blur, mirror, gradient, blend) is not modelled. */
module Reflection {
  import opened Options
  import opened Graphics

  /** Rows between the source image and its reflection. */
  const Gap: nat := 4

  /** An axis-aligned rectangle in pixels. */
  datatype Rect = Rect(left: int, top: int, width: int, height: int) {
    function Right(): int { left + width }
    function Bottom(): int { top + height }
  }

  /** Every rectangle `createReflection` uses for a source of `width` x `height`. */
  datatype Layout = Layout(
    canvas: Rect,   // the bitmap that is returned
    source: Rect,   // where the original is drawn on the canvas
    gap: Rect,      // the painted gap
    strip: Rect,    // where the reflection bitmap is drawn on the canvas
    crop: Rect,     // the part of the source that is blurred, in source coordinates
    shrunk: Rect)   // the down-scaled crop that produces the blur

  function LayoutOf(width: nat, height: nat): Layout {
    var reflectionHeight := height / 2;
    Layout(
      canvas := Rect(0, 0, width, height + reflectionHeight),
      source := Rect(0, 0, width, height),
      gap := Rect(0, height, width, Gap),
      strip := Rect(0, height + Gap, width, reflectionHeight),
      crop := Rect(0, height - reflectionHeight, height, reflectionHeight),
      shrunk := Rect(0, 0, height / 2, reflectionHeight / 2))
  }

  /** `Bitmap.createBitmap(w, h, config)` and `createScaledBitmap` reject a
      non-positive width or height. */
  predicate Allocatable(r: Rect) {
    r.width > 0 && r.height > 0
  }

  /** `Bitmap.createBitmap(source, x, y, w, h)` rejects a region that is empty
      or not inside the source. */
  predicate CropInside(r: Rect, width: nat, height: nat) {
    && Allocatable(r)
    && 0 <= r.left && r.Right() <= width
    && 0 <= r.top && r.Bottom() <= height
  }

  /** Every bitmap `createReflection` allocates, crops or rescales is accepted. */
  predicate Succeeds(l: Layout, width: nat, height: nat) {
    && Allocatable(l.canvas)
    && Allocatable(Rect(0, 0, l.strip.width, l.strip.height))
    && CropInside(l.crop, width, height)
    && Allocatable(l.shrunk)
    && Allocatable(Rect(0, 0, l.crop.width, l.crop.height))
  }

  /** `createReflection`: `None` stands for the IllegalArgumentException that
      the bitmap factory throws on a bad size or region. It succeeds exactly
      when the source is at least 4 rows tall and no taller than it is wide;
      the result keeps the width and grows by half the height. */
  function Reflect(b: Bitmap): (r: Option<Bitmap>)
    ensures r.Some? <==> 4 <= b.height <= b.width
    ensures r.Some? ==> r.value.width == b.width && r.value.height == b.height + b.height / 2
    ensures r.Some? ==> r.value.pixels == Reflected(b.pixels)
  {
    var l := LayoutOf(b.width, b.height);
    if Succeeds(l, b.width, b.height) then
      Some(Bitmap(l.canvas.width, l.canvas.height, Reflected(b.pixels)))
    else
      None
  }

  /** The source fills the top H rows, the gap starts where the source ends
      and the strip where the gap ends; the canvas is only as tall as the
      source and the strip together, leaving no room for the gap. */
  lemma CanvasGeometry(width: nat, height: nat)
    ensures var l := LayoutOf(width, height);
      && l.source.top == 0 && l.source.Bottom() == height
      && l.gap.top == l.source.Bottom() && l.gap.Bottom() == l.gap.top + Gap
      && l.strip.top == l.gap.Bottom()
      && l.canvas.Bottom() == l.source.Bottom() + l.strip.height
  {
  }

  /** Number of rows of `r` that lie on the canvas of `l`. */
  function VisibleRows(l: Layout, r: Rect): int {
    var top := if r.top < 0 then 0 else r.top;
    var bottom := if r.Bottom() < l.canvas.Bottom() then r.Bottom() else l.canvas.Bottom();
    if bottom < top then 0 else bottom - top
  }

  /** The reflection strip does not fit its canvas: it ends exactly `Gap` rows
      below the canvas, so its last min(4, H/2) rows are cut off, and a source
      shorter than 10 rows shows no reflection at all. */
  lemma StripOverflowsCanvas(width: nat, height: nat)
    ensures var l := LayoutOf(width, height);
      && l.strip.height == height / 2
      && l.strip.Bottom() == l.canvas.Bottom() + Gap
      && VisibleRows(l, l.strip) == (if height / 2 >= Gap then height / 2 - Gap else 0)
      && (height < 10 <==> VisibleRows(l, l.strip) == 0)
  {
  }

  /** The blur crop is H columns wide, so it lies inside the source exactly when
      H <= W, and it spans the whole source width only for a square source. */
  lemma CropGeometry(width: nat, height: nat)
    requires height >= 2
    ensures var l := LayoutOf(width, height);
      && l.crop.top == height - height / 2
      && l.crop.Bottom() == height
      && (CropInside(l.crop, width, height) <==> height <= width)
      && (l.crop.width == l.strip.width <==> width == height)
  {
  }

  /** The large placeholder: the "unknown album" asset scaled to a square of
      `side` pixels gets its reflection exactly when `side` is at least 4. */
  lemma SquareReflects(side: nat)
    ensures Reflect(Bitmap(side, side, UnknownAlbumLarge)).Some? <==> side >= 4
    ensures side >= 4 ==> Reflect(Bitmap(side, side, UnknownAlbumLarge)).value.height == side + side / 2
  {
  }
}
