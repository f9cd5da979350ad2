/** Properties of the loader that relate several steps or several states. */
module LoaderProperties {
  import opened Options
  import opened Graphics
  import opened CacheKeys
  import ArtCache
  import RequestQueue
  import opened Targets
  import opened ImageLoader

  /** On a cache hit an image view cross-fades exactly when the request is
      large, whatever the caller asked for, and settles on the cached image. */
  lemma HitCrossfadeFollowsLarge(s: Loader, v: View, art: string, large: bool, crossfade: bool)
    requires Wf(s)
    requires v.kind == ImageViewKind
    requires GetKey(art, SizeFor(s.cfg, large)) in s.cache
    ensures var r := LoadImage(s, v, Some(Entry(Some(art))), large, crossfade);
      && OnView(v) in r.display
      && (r.display[OnView(v)].Transition? <==> large)
      && Settled(r.display[OnView(v)]) == s.cache[GetKey(art, SizeFor(s.cfg, large))]
      && r.queue == s.queue
  {
  }

  /** A worker never looks at the cache: whatever the cache holds, executing
      the same task with the same fetch result posts the same delivery, leaves
      the workers alike and stores the same drawable under the task's key. */
  lemma ExecuteIgnoresCache(s: Loader, other: ArtCache.Cache, w: WorkerId, fetched: Option<Bitmap>, victim: string)
    requires |s.workers| == Concurrency
    requires VictimFits(s, w, victim) && VictimFits(s.(cache := other), w, victim)
    ensures var r1 := Execute(s, w, fetched, victim);
      var r2 := Execute(s.(cache := other), w, fetched, victim);
      && r1.posted == r2.posted
      && r1.workers == r2.workers
      && (s.workers[w].Some? ==>
            Produce(s.workers[w].value, fetched).Some? ==>
              var key := KeyOf(s.workers[w].value);
              key in r1.cache && key in r2.cache && r1.cache[key] == r2.cache[key])
  {
  }

  /** `clear` only discards queued tasks: it commutes with a worker finishing
      its task, so a task already taken is still fetched, stored and delivered. */
  lemma ClearSparesInFlight(s: Loader, w: WorkerId, fetched: Option<Bitmap>, victim: string)
    requires |s.workers| == Concurrency
    requires VictimFits(s, w, victim)
    ensures Execute(Clear(s), w, fetched, victim) == Clear(Execute(s, w, fetched, victim))
  {
  }

  /** Two identical small requests that both miss queue two identical tasks
      and change nothing else. */
  lemma TwoMissesQueueTwice(s: Loader, v: View, art: string)
    requires s.queue == []
    requires GetKey(art, s.cfg.sizeDefault) !in s.cache
    ensures var entry := Some(Entry(Some(art)));
      var task := RequestQueue.Task(OnView(v), art, s.cfg.sizeDefault, false, false, false);
      var loaded := LoadImage(LoadImage(s, v, entry, false, false), v, entry, false, false);
      && loaded.queue == [task, task]
      && loaded.cache == s.cache && loaded.workers == s.workers && loaded.posted == s.posted
  {
  }

  /** Two workers holding identical tasks both fetch: both results are
      posted, in order, and the cache keeps the later one. */
  lemma DuplicateTasksBothFetch(s: Loader, t: RequestQueue.Task, b1: Bitmap, b2: Bitmap)
    requires |s.workers| == Concurrency
    requires s.workers[0] == Some(t) && s.workers[1] == Some(t)
    requires !t.reflection
    requires |s.cache| + 1 < ArtCache.Capacity
    ensures var done := Execute(Execute(s, 0, Some(b1), ""), 1, Some(b2), "");
      && done.posted == s.posted + [DeliveryFor(t, BitmapDrawable(b1)), DeliveryFor(t, BitmapDrawable(b2))]
      && done.cache == s.cache[KeyOf(t) := BitmapDrawable(b2)]
  {
  }

  /** No staleness guard: a delivery posted by an older request is run after a
      newer cache hit was shown, and the view ends up on the older image. */
  lemma StaleDeliveryOverwritesNewer(s: Loader, v: View, art: string, older: Bitmap)
    requires Wf(s)
    requires v.kind == ImageViewKind
    requires s.posted == [ToView(v, BitmapDrawable(older), false)]
    requires GetKey(art, s.cfg.sizeDefault) in s.cache
    requires s.cache[GetKey(art, s.cfg.sizeDefault)] != BitmapDrawable(older)
    ensures var newer := LoadImage(s, v, Some(Entry(Some(art))), false, false);
      && newer.display[OnView(v)] == s.cache[GetKey(art, s.cfg.sizeDefault)]
      && Dispatch(newer).display[OnView(v)] == BitmapDrawable(older)
      && Dispatch(newer).display[OnView(v)] != newer.display[OnView(v)]
  {
  }

  /** A small image view asking for art that is not cached: the small
      placeholder is shown at once; after a worker takes and fetches it and
      the UI thread runs the posted delivery, the view shows the fetched
      image, cross-faded from the placeholder when asked, and the image is
      cached under the request's key. */
  lemma MissThenDeliver(s: Loader, v: View, art: string, b: Bitmap, crossfade: bool)
    requires Wf(s)
    requires v.kind == ImageViewKind
    requires s.queue == [] && s.posted == [] && s.workers[0].None?
    requires GetKey(art, s.cfg.sizeDefault) !in s.cache
    requires |s.cache| < ArtCache.Capacity
    ensures var loaded := LoadImage(s, v, Some(Entry(Some(art))), false, crossfade);
      var done := Execute(Take(loaded, 0), 0, Some(b), "");
      var shown := Dispatch(done);
      && loaded.display[OnView(v)] == s.placeholders.small
      && done.cache[GetKey(art, s.cfg.sizeDefault)] == BitmapDrawable(b)
      && shown.display[OnView(v)] ==
           (if crossfade then Transition(s.placeholders.small, BitmapDrawable(b)) else BitmapDrawable(b))
      && shown.posted == [] && shown.queue == []
  {
  }

  /** Starting from construction, any schedule keeps the pool at five workers,
      the queue within 500 tasks and the cache within 100 entries. */
  lemma ScheduleKeepsBounds(cfg: Config, steps: seq<Step>)
    requires cfg.sizeLarge >= 4
    ensures Init(cfg).Some?
    ensures var r := Run(Init(cfg).value, steps);
      && |r.workers| == Concurrency
      && |r.queue| <= RequestQueue.Capacity
      && |r.cache| <= ArtCache.Capacity
  {
  }
}
