/** The display targets a load can be aimed at and what each one shows:
    views (text views show the image as a leading icon, image views as their
    content, other views ignore it) and remote-control clients (which
    receive a copy of the artwork bitmap). */
module Targets {
  import opened Graphics

  /** The runtime class of a view, as the loader tests it. */
  datatype ViewKind = TextViewKind | ImageViewKind | OtherViewKind

  datatype View = View(id: nat, kind: ViewKind)

  datatype Remote = Remote(id: nat)

  datatype Target = OnView(view: View) | OnRemote(remote: Remote)

  /** What each target currently shows; a missing target shows nothing. */
  type Display = map<Target, Drawable>

  /** The two "unknown album" images: the small resource and the large
      reflected bitmap. */
  datatype Placeholders = Placeholders(small: Drawable, large: Drawable)

  /** Views the loader can put an image on. */
  predicate Shows(kind: ViewKind) {
    kind != OtherViewKind
  }

  /** The fully transparent bitmap a cross-fade starts from when the view is empty. */
  function BlankLike(d: Drawable): (r: Drawable)
    ensures r.BitmapDrawable? && r.bitmap.pixels == Transparent
    ensures IntrinsicWidth(r) == IntrinsicWidth(d) && IntrinsicHeight(r) == IntrinsicHeight(d)
  {
    BitmapDrawable(Bitmap(IntrinsicWidth(d), IntrinsicHeight(d), Transparent))
  }

  /** `setImage(View, Drawable, crossfade)`. A text or image view ends up
      settled on the image; an image view cross-fades from its previous
      drawable (or a transparent one of the image's size) when asked, a text
      view never does; any other view and every other target is untouched. */
  function SetImage(display: Display, v: View, image: Drawable, crossfade: bool): (r: Display)
    ensures r - {OnView(v)} == display - {OnView(v)}
    ensures !Shows(v.kind) ==> r == display
    ensures Shows(v.kind) ==> OnView(v) in r && Settled(r[OnView(v)]) == Settled(image)
    ensures Shows(v.kind) && (v.kind == TextViewKind || !crossfade) ==> r[OnView(v)] == image
    ensures v.kind == ImageViewKind && crossfade ==>
      r[OnView(v)] == Transition(if OnView(v) in display then display[OnView(v)] else BlankLike(image), image)
  {
    var t := OnView(v);
    match v.kind
    case TextViewKind => display[t := image]
    case ImageViewKind =>
      if crossfade then
        var existing := if t in display then display[t] else BlankLike(image);
        display[t := Transition(existing, image)]
      else
        display[t := image]
    case OtherViewKind => display
  }

  /** `setUnknownImage(View, large)`: the large placeholder without cross-fade,
      or the small one; only text and image views change. */
  function SetUnknownImage(display: Display, v: View, large: bool, ph: Placeholders): (r: Display)
    ensures r - {OnView(v)} == display - {OnView(v)}
    ensures !Shows(v.kind) ==> r == display
    ensures Shows(v.kind) ==> OnView(v) in r && r[OnView(v)] == (if large then ph.large else ph.small)
  {
    if large then
      SetImage(display, v, ph.large, false)
    else
      match v.kind
      case TextViewKind => display[OnView(v) := ph.small]
      case ImageViewKind => display[OnView(v) := ph.small]
      case OtherViewKind => display
  }

  /** `setImage(RemoteControlClient, Drawable)`: the drawable must be a bitmap
      drawable (it is cast to one); the client gets a copy of its bitmap and
      no other target changes. */
  function SetRemoteImage(display: Display, rc: Remote, image: Drawable): (r: Display)
    requires image.BitmapDrawable?
    ensures r - {OnRemote(rc)} == display - {OnRemote(rc)}
    ensures OnRemote(rc) in r && r[OnRemote(rc)].BitmapDrawable?
    ensures r[OnRemote(rc)].bitmap.width == image.bitmap.width
    ensures r[OnRemote(rc)].bitmap.height == image.bitmap.height
    ensures r[OnRemote(rc)].bitmap.pixels == image.bitmap.pixels
  {
    display[OnRemote(rc) := BitmapDrawable(CopyBitmap(image.bitmap))]
  }

  /** `setUnknownImage(RemoteControlClient)`: always the large placeholder. */
  function SetUnknownRemote(display: Display, rc: Remote, ph: Placeholders): (r: Display)
    requires ph.large.BitmapDrawable?
    ensures r - {OnRemote(rc)} == display - {OnRemote(rc)}
    ensures OnRemote(rc) in r && r[OnRemote(rc)] == ph.large
  {
    SetRemoteImage(display, rc, ph.large)
  }
}
