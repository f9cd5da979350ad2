/** The ImageLoader state machine. The UI thread's calls (`loadImage` for a
    view or a remote-control client, `clear`), each worker's `take` and
    `Task.execute`, and the UI thread's running of a posted delivery are
    atomic steps that a scheduler interleaves. The music service's fetch and
    the cache's eviction choice are oracle parameters of the step. */
module ImageLoader {
  import opened Options
  import opened Graphics
  import opened Reflection
  import opened CacheKeys
  import ArtCache
  import RequestQueue
  import opened Targets

  /** Number of worker threads started by the constructor. */
  const Concurrency: nat := 5

  type WorkerId = w: nat | w < Concurrency

  /** Sizes fixed at construction: the small size (also the intrinsic height
      of the small "unknown album" resource), the large size, and the small
      resource's intrinsic width. */
  datatype Config = Config(sizeDefault: nat, sizeLarge: nat, unknownAlbumWidth: nat)

  /** A music directory entry; only its possibly-null cover-art id matters. */
  datatype Entry = Entry(coverArt: Option<string>)

  /** A delivery posted to the UI thread's handler. */
  datatype Delivery =
    | ToView(view: View, image: Drawable, crossfade: bool)
    | ToRemote(remote: Remote, image: Drawable)

  datatype Loader = Loader(
    cfg: Config,
    placeholders: Placeholders,
    cache: ArtCache.Cache,
    queue: seq<RequestQueue.Task>,
    workers: seq<Option<RequestQueue.Task>>,  // the task each worker is executing
    posted: seq<Delivery>,                    // deliveries not yet run by the UI thread
    display: Display)

  /** The cover-art id of a possibly-null entry. */
  function ArtOf(entry: Option<Entry>): Option<string> {
    if entry.Some? then entry.value.coverArt else None
  }

  function SizeFor(cfg: Config, large: bool): nat {
    if large then cfg.sizeLarge else cfg.sizeDefault
  }

  function KeyOf(t: RequestQueue.Task): string {
    GetKey(t.coverArt, t.size)
  }

  /** The shape every enqueued task has: reflected and saved exactly when
      large, sized accordingly, and plain default-size for a remote client. */
  predicate TaskShape(cfg: Config, t: RequestQueue.Task) {
    && t.reflection == t.saveToFile
    && t.size == SizeFor(cfg, t.reflection)
    && (t.target.OnRemote? ==> !t.reflection && !t.crossfade)
  }

  /** What holds of every loader reachable from construction. */
  predicate Wf(s: Loader) {
    && |s.workers| == Concurrency
    && |s.queue| <= RequestQueue.Capacity
    && |s.cache| <= ArtCache.Capacity
    && s.placeholders.large.BitmapDrawable?
    && (forall k :: k in s.cache ==> s.cache[k].BitmapDrawable?)
    && (forall i :: 0 <= i < |s.posted| ==> s.posted[i].image.BitmapDrawable?)
    && (forall i :: 0 <= i < |s.queue| ==> TaskShape(s.cfg, s.queue[i]))
    && (forall i :: 0 <= i < |s.workers| && s.workers[i].Some? ==> TaskShape(s.cfg, s.workers[i].value))
  }

  /** The constructor: builds the large placeholder by reflecting the large
      asset scaled to a square, which throws unless the large size is at
      least 4; every worker starts idle and everything else empty. */
  function Init(cfg: Config): (r: Option<Loader>)
    ensures r.Some? <==> cfg.sizeLarge >= 4
    ensures r.Some? ==> Wf(r.value) && r.value.cfg == cfg
    ensures r.Some? ==> r.value.cache == map[] && r.value.queue == [] && r.value.posted == []
    ensures r.Some? ==> forall w: WorkerId :: r.value.workers[w].None?
    ensures r.Some? ==> r.value.placeholders.small == UnknownAlbum(cfg.unknownAlbumWidth, cfg.sizeDefault)
    ensures r.Some? ==> r.value.placeholders.large.bitmap.width == cfg.sizeLarge
    ensures r.Some? ==> r.value.placeholders.large.bitmap.height == cfg.sizeLarge + cfg.sizeLarge / 2
  {
    match Reflect(Bitmap(cfg.sizeLarge, cfg.sizeLarge, UnknownAlbumLarge))
    case None => None
    case Some(large) =>
      var ph := Placeholders(UnknownAlbum(cfg.unknownAlbumWidth, cfg.sizeDefault), BitmapDrawable(large));
      Some(Loader(cfg, ph, map[], [], seq(Concurrency, _ => None), [], map[]))
  }

  /** `loadImage(View, Entry, large, crossfade)`. Without cover art only the
      placeholder is applied. On a cache hit the cached drawable is shown at
      once, cross-faded exactly when `large` (the caller's `crossfade` is not
      used). On a miss a small view gets the small placeholder, a large view
      keeps what it shows, and one task is offered. The cache, the workers
      and the posted deliveries are never touched; only this view can change. */
  function LoadImage(s: Loader, v: View, entry: Option<Entry>, large: bool, crossfade: bool): (r: Loader)
    ensures r.cfg == s.cfg && r.placeholders == s.placeholders
    ensures r.cache == s.cache && r.workers == s.workers && r.posted == s.posted
    ensures r.display - {OnView(v)} == s.display - {OnView(v)}
    ensures !Shows(v.kind) ==> r.display == s.display
    ensures ArtOf(entry).None? ==>
      && r.queue == s.queue
      && (Shows(v.kind) ==> OnView(v) in r.display && r.display[OnView(v)] == (if large then s.placeholders.large else s.placeholders.small))
    ensures ArtOf(entry).Some? && GetKey(ArtOf(entry).value, SizeFor(s.cfg, large)) in s.cache ==>
      && r.queue == s.queue
      && r.display == SetImage(s.display, v, s.cache[GetKey(ArtOf(entry).value, SizeFor(s.cfg, large))], large)
    ensures ArtOf(entry).Some? && GetKey(ArtOf(entry).value, SizeFor(s.cfg, large)) !in s.cache ==>
      && r.queue == RequestQueue.Offer(s.queue,
           RequestQueue.Task(OnView(v), ArtOf(entry).value, SizeFor(s.cfg, large), large, large, crossfade))
      && (large ==> r.display == s.display)
      && (!large && Shows(v.kind) ==> OnView(v) in r.display && r.display[OnView(v)] == s.placeholders.small)
    ensures Wf(s) ==> Wf(r)
  {
    match ArtOf(entry)
    case None => s.(display := SetUnknownImage(s.display, v, large, s.placeholders))
    case Some(art) =>
      var size := SizeFor(s.cfg, large);
      match ArtCache.Get(s.cache, GetKey(art, size))
      case Some(cached) => s.(display := SetImage(s.display, v, cached, large))
      case None =>
        var shown := if !large then SetUnknownImage(s.display, v, large, s.placeholders) else s.display;
        var task := RequestQueue.Task(OnView(v), art, size, large, large, crossfade);
        s.(display := shown, queue := RequestQueue.Offer(s.queue, task))
  }

  /** `loadImage(Context, RemoteControlClient, Entry)`: always the default
      size and the large placeholder. Without cover art the placeholder is
      sent; on a hit a copy of the cached bitmap is sent; on a miss the
      placeholder is sent and a default-size task without reflection, saving
      or cross-fade is offered. Only this client can change. */
  function LoadRemoteImage(s: Loader, rc: Remote, entry: Option<Entry>): (r: Loader)
    requires s.placeholders.large.BitmapDrawable?
    requires forall k :: k in s.cache ==> s.cache[k].BitmapDrawable?
    ensures r.cfg == s.cfg && r.placeholders == s.placeholders
    ensures r.cache == s.cache && r.workers == s.workers && r.posted == s.posted
    ensures r.display - {OnRemote(rc)} == s.display - {OnRemote(rc)}
    ensures OnRemote(rc) in r.display
    ensures ArtOf(entry).None? ==>
      r.queue == s.queue && r.display[OnRemote(rc)] == s.placeholders.large
    ensures ArtOf(entry).Some? && GetKey(ArtOf(entry).value, s.cfg.sizeDefault) in s.cache ==>
      && r.queue == s.queue
      && r.display[OnRemote(rc)] == s.cache[GetKey(ArtOf(entry).value, s.cfg.sizeDefault)]
    ensures ArtOf(entry).Some? && GetKey(ArtOf(entry).value, s.cfg.sizeDefault) !in s.cache ==>
      && r.queue == RequestQueue.Offer(s.queue,
           RequestQueue.Task(OnRemote(rc), ArtOf(entry).value, s.cfg.sizeDefault, false, false, false))
      && r.display[OnRemote(rc)] == s.placeholders.large
    ensures Wf(s) ==> Wf(r)
  {
    match ArtOf(entry)
    case None => s.(display := SetUnknownRemote(s.display, rc, s.placeholders))
    case Some(art) =>
      match ArtCache.Get(s.cache, GetKey(art, s.cfg.sizeDefault))
      case Some(cached) => s.(display := SetRemoteImage(s.display, rc, cached))
      case None =>
        var task := RequestQueue.Task(OnRemote(rc), art, s.cfg.sizeDefault, false, false, false);
        s.(display := SetUnknownRemote(s.display, rc, s.placeholders),
           queue := RequestQueue.Offer(s.queue, task))
  }

  /** `clear()`: every task not yet taken is discarded; the cache, the
      targets, the posted deliveries and the tasks being executed stay. */
  function Clear(s: Loader): (r: Loader)
    ensures r.queue == []
    ensures r.(queue := s.queue) == s
    ensures Wf(s) ==> Wf(r)
  {
    s.(queue := [])
  }

  /** A worker's `queue.take()`: an idle worker takes the head of a non-empty
      queue; a busy worker, or one blocked on an empty queue, does nothing. */
  function Take(s: Loader, w: WorkerId): (r: Loader)
    requires |s.workers| == Concurrency
    ensures |r.workers| == Concurrency
    ensures s.workers[w].None? && |s.queue| > 0 ==>
      && r.workers[w] == Some(s.queue[0])
      && r.queue == s.queue[1..]
      && r.(workers := s.workers, queue := s.queue) == s
      && (forall u: WorkerId :: u != w ==> r.workers[u] == s.workers[u])
    ensures s.workers[w].Some? || |s.queue| == 0 ==> r == s
    ensures Wf(s) ==> Wf(r)
  {
    if s.workers[w].None? && |s.queue| > 0 then
      s.(workers := s.workers[w := Some(s.queue[0])], queue := s.queue[1..])
    else
      s
  }

  /** Fetching a task's bitmap and reflecting it when asked: `None` when the
      fetch fails or the reflection throws. */
  function Produce(t: RequestQueue.Task, fetched: Option<Bitmap>): (r: Option<Bitmap>)
    ensures r.Some? <==> fetched.Some? && (t.reflection ==> 4 <= fetched.value.height <= fetched.value.width)
    ensures r.Some? && !t.reflection ==> r.value == fetched.value
    ensures r.Some? && t.reflection ==>
      && r.value.width == fetched.value.width
      && r.value.height == fetched.value.height + fetched.value.height / 2
      && r.value.pixels == Reflected(fetched.value.pixels)
  {
    match fetched
    case None => None
    case Some(b) => if t.reflection then Reflect(b) else Some(b)
  }

  /** The delivery a finished task posts: to its view if it has one, else to
      its remote-control client. */
  function DeliveryFor(t: RequestQueue.Task, image: Drawable): (d: Delivery)
    ensures d.image == image
    ensures t.target.OnView? <==> d.ToView?
    ensures d.ToView? ==> d.view == t.target.view && d.crossfade == t.crossfade
    ensures d.ToRemote? ==> d.remote == t.target.remote
  {
    match t.target
    case OnView(v) => ToView(v, image, t.crossfade)
    case OnRemote(rc) => ToRemote(rc, image)
  }

  /** Whether `victim` is an eviction the cache could choose for worker `w`'s result. */
  predicate VictimFits(s: Loader, w: WorkerId, victim: string)
    requires |s.workers| == Concurrency
  {
    s.workers[w].Some? ==> ArtCache.VictimOk(s.cache, victim)
  }

  /** `Task.execute` run by worker `w`, with `fetched` the music service's
      answer. The cache is never consulted first. On success the result is
      stored under the task's key and a delivery is posted; on any failure
      nothing but the worker changes. Either way the worker goes back to
      taking tasks, so the pool keeps its size. */
  function Execute(s: Loader, w: WorkerId, fetched: Option<Bitmap>, victim: string): (r: Loader)
    requires |s.workers| == Concurrency
    requires VictimFits(s, w, victim)
    ensures |r.workers| == Concurrency
    ensures r.cfg == s.cfg && r.placeholders == s.placeholders
    ensures r.queue == s.queue && r.display == s.display
    ensures s.workers[w].None? ==> r == s
    ensures s.workers[w].Some? ==>
      && r.workers == s.workers[w := None]
      && var t := s.workers[w].value;
         match Produce(t, fetched)
         case None => r.cache == s.cache && r.posted == s.posted
         case Some(b) =>
           && KeyOf(t) in r.cache && r.cache[KeyOf(t)] == BitmapDrawable(b)
           && r.cache == ArtCache.Put(s.cache, KeyOf(t), BitmapDrawable(b), victim)
           && r.posted == s.posted + [DeliveryFor(t, BitmapDrawable(b))]
    ensures Wf(s) ==> Wf(r)
  {
    match s.workers[w]
    case None => s
    case Some(t) =>
      var idle := s.(workers := s.workers[w := None]);
      match Produce(t, fetched)
      case None => idle
      case Some(b) =>
        var image := BitmapDrawable(b);
        idle.(cache := ArtCache.Put(s.cache, KeyOf(t), image, victim),
              posted := s.posted + [DeliveryFor(t, image)])
  }

  /** The UI thread runs the oldest posted delivery. */
  function Dispatch(s: Loader): (r: Loader)
    requires |s.posted| > 0 ==> s.posted[0].image.BitmapDrawable?
    ensures |s.posted| == 0 ==> r == s
    ensures |s.posted| > 0 ==>
      && r.posted == s.posted[1..]
      && r.(posted := s.posted, display := s.display) == s
      && match s.posted[0]
         case ToView(v, image, crossfade) => r.display == SetImage(s.display, v, image, crossfade)
         case ToRemote(rc, image) => r.display == s.display[OnRemote(rc) := image]
    ensures Wf(s) ==> Wf(r)
  {
    if |s.posted| == 0 then s
    else
      var shown := match s.posted[0]
        case ToView(v, image, crossfade) => SetImage(s.display, v, image, crossfade)
        case ToRemote(rc, image) => SetRemoteImage(s.display, rc, image);
      s.(posted := s.posted[1..], display := shown)
  }

  /** The cache can always make an eviction choice for a finishing worker, so
      the no-op `Next` gives an unfitting choice hides no behaviour. */
  lemma VictimExists(s: Loader, w: WorkerId)
    requires Wf(s)
    ensures exists victim :: VictimFits(s, w, victim)
  {
    if |s.cache| >= ArtCache.Capacity {
      var k :| k in s.cache;
      assert VictimFits(s, w, k);
    } else {
      assert VictimFits(s, w, "");
    }
  }

  /** One atomic step of the UI thread or of a worker. */
  datatype Step =
    | LoadViewStep(view: View, entry: Option<Entry>, large: bool, crossfade: bool)
    | LoadRemoteStep(remote: Remote, entry: Option<Entry>)
    | ClearStep
    | TakeStep(worker: WorkerId)
    | ExecuteStep(worker: WorkerId, fetched: Option<Bitmap>, victim: string)
    | DispatchStep

  /** The loader after one step. A step whose eviction choice the cache could
      not make leaves the loader as it is. Every step keeps `Wf`. */
  function Next(s: Loader, step: Step): (r: Loader)
    requires Wf(s)
    ensures Wf(r)
    ensures r.cfg == s.cfg && r.placeholders == s.placeholders
  {
    match step
    case LoadViewStep(v, entry, large, crossfade) => LoadImage(s, v, entry, large, crossfade)
    case LoadRemoteStep(rc, entry) => LoadRemoteImage(s, rc, entry)
    case ClearStep => Clear(s)
    case TakeStep(w) => Take(s, w)
    case ExecuteStep(w, fetched, victim) =>
      if VictimFits(s, w, victim) then Execute(s, w, fetched, victim) else s
    case DispatchStep => Dispatch(s)
  }

  /** The loader after a schedule of steps; it stays well formed throughout. */
  function Run(s: Loader, steps: seq<Step>): (r: Loader)
    requires Wf(s)
    ensures Wf(r)
    ensures r.cfg == s.cfg && r.placeholders == s.placeholders
    decreases |steps|
  {
    if |steps| == 0 then s else Run(Next(s, steps[0]), steps[1..])
  }
}
