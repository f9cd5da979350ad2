# ImageLoader: request and cache bookkeeping

A Dafny model of the madsonic Android client's `ImageLoader`. This class loads
cover art asynchronously. It serves views and the lock-screen remote-control
client from a drawable cache. It queues a task for each miss. Five worker
threads fetch the art, optionally add a reflection, cache the result and post
its delivery back to the UI thread.

The model is a functional state machine. A `Loader` record holds:

- the cache, a map from key to drawable holding at most 100 entries;
- the pending queue, a sequence of at most 500 tasks;
- what each of the five workers is executing;
- the deliveries posted to the UI thread's handler but not yet run;
- what each target (view or remote-control client) shows.

Each of the following is one atomic step, and a scheduler may interleave
them in any order:

- `loadImage` for a view;
- `loadImage` for a remote-control client;
- `clear`;
- a worker's `take`;
- a worker's `Task.execute`;
- the UI thread running a posted delivery.

The music service's fetch is an oracle argument of the execute step: a bitmap,
or `None` for a failure. The cache's eviction choice is an oracle argument too.
`createReflection` is modelled through its size and offset arithmetic only,
including the bitmap factory's argument checks that make it throw.

Modules: `Options`, `Graphics` (bitmaps and drawables), `CacheKeys`,
`Reflection`, `ArtCache`, `Targets` (view kinds and the two `setImage` /
`setUnknownImage` overloads), `RequestQueue`, `ImageLoader` (the steps,
the invariant `Wf`, `Next` and `Run`), and `LoaderProperties` (lemmas that
span several steps).

Four behaviours of the code are easy to misread. The model states them as the code has them:

- The reflected image is `H + H/2` rows tall, not `H + H/2 + 4`. The gap is
  4 rows and the strip is `H/2` rows, so the strip's last 4 rows fall off the
  canvas (`Reflection.StripOverflowsCanvas`).
- `Task.execute` does not re-check the cache before fetching. Two queued
  requests for the same key both fetch (`LoaderProperties.ExecuteIgnoresCache`,
  `LoaderProperties.DuplicateTasksBothFetch`).
- Keys are not unique. `getKey` concatenates the id and the size with no
  separator (`CacheKeys.KeyCollision`, `CacheKeys.EveryMultiDigitSizeCollides`).
- A cache hit on a view passes `large` as the cross-fade flag. The caller's
  `crossfade` is used only for fetched results
  (`LoaderProperties.HitCrossfadeFollowsLarge`).

## Model

| member | source | states |
|---|---|---|
| CacheKeys.IntToDecimal | src/github/madmarty/madsonic/util/ImageLoader.java:131 | the decimal spelling Java appends for an int is non-empty and starts with '-' exactly for negative ints |
| CacheKeys.GetKey | src/github/madmarty/madsonic/util/ImageLoader.java:130-132 | the key starts with the cover-art id, and the rest of it reads back as the size |
| CacheKeys.DecimalRoundTrip | src/github/madmarty/madsonic/util/ImageLoader.java:130-132 | the decimal spelling Java appends for an int (with '-' for negatives) parses back to that int |
| CacheKeys.KeyInjectiveInSize | src/github/madmarty/madsonic/util/ImageLoader.java:130-132 | for a fixed id, two keys are equal if and only if the sizes are equal |
| CacheKeys.KeyInjectiveInId | src/github/madmarty/madsonic/util/ImageLoader.java:130-132 | for a fixed size, two keys are equal if and only if the ids are equal |
| CacheKeys.EveryMultiDigitSizeCollides | src/github/madmarty/madsonic/util/ImageLoader.java:130-132 | every size of 10 or more has an alias request (a longer id and a shorter size) with the same key |
| CacheKeys.KeyCollision | src/github/madmarty/madsonic/util/ImageLoader.java:130-132 | ("a1", 23) and ("a12", 3) are different requests that share the key "a123" |
| Reflection.Reflect | src/github/madmarty/madsonic/util/ImageLoader.java:248-317 | reflection succeeds exactly when 4 <= H <= W; the result is W x (H + H/2) and depicts the source with its reflection |
| Reflection.CanvasGeometry | src/github/madmarty/madsonic/util/ImageLoader.java:252-311 | the source fills rows [0, H); the 4-row gap starts where the source ends; the strip starts where the gap ends; the canvas is only as tall as the source plus the strip, so it leaves no room for the gap |
| Reflection.StripOverflowsCanvas | src/github/madmarty/madsonic/util/ImageLoader.java:256-314 | the H/2-row strip ends exactly 4 rows below the canvas; only max(0, H/2 - 4) of its rows are visible, so none are visible when H < 10 |
| Reflection.CropGeometry | src/github/madmarty/madsonic/util/ImageLoader.java:266-276 | the blur crop is rows [H - H/2, H) by H columns; it is inside the source if and only if H <= W, and it is as wide as the strip if and only if the source is square |
| Reflection.SquareReflects | src/github/madmarty/madsonic/util/ImageLoader.java:88-93 | the large placeholder (a square of the large size) can be reflected if and only if that size is at least 4 |
| ArtCache.Get | src/github/madmarty/madsonic/util/ImageLoader.java:102 | a lookup finds a drawable exactly when the key is cached, and it is the cached one |
| ArtCache.Put | src/github/madmarty/madsonic/util/ImageLoader.java:353 | after a put the key maps to the image; no other entry is added or altered; only the evicted entry can be lost; at most 100 entries are kept |
| RequestQueue.Offer | src/github/madmarty/madsonic/util/ImageLoader.java:71 | below 500 tasks the task is appended at the tail and the rest is kept; at 500 the queue is unchanged; the 500 bound is kept |
| RequestQueue.OfferAllAcceptsPrefix | src/github/madmarty/madsonic/util/ImageLoader.java:71 | a burst of offers keeps the earliest tasks that fit, in order, and drops all the rest |
| Targets.SetImage | src/github/madmarty/madsonic/util/ImageLoader.java:134-158 | text and image views settle on the image; only an image view cross-fades, starting from its previous drawable or a transparent one of the image's size; other views and all other targets are unchanged |
| Targets.SetUnknownImage | src/github/madmarty/madsonic/util/ImageLoader.java:169-179 | text and image views show the large placeholder if large, else the small one; other views and all other targets are unchanged |
| Graphics.CopyBitmap | src/github/madmarty/madsonic/util/ImageLoader.java:165 | the copy has the original's width, height and pixels |
| Targets.BlankLike | src/github/madmarty/madsonic/util/ImageLoader.java:144-146 | the blank start of a cross-fade is a fully transparent bitmap drawable with the new image's intrinsic width and height |
| Targets.SetRemoteImage | src/github/madmarty/madsonic/util/ImageLoader.java:160-167 | the client receives a bitmap with the same size and pixels as the drawable's; no other target changes |
| Targets.SetUnknownRemote | src/github/madmarty/madsonic/util/ImageLoader.java:181-183 | the client always receives the large placeholder |
| ImageLoader.Wf | src/github/madmarty/madsonic/util/ImageLoader.java:62-127 | the invariant of every reachable loader: 5 workers, at most 500 queued tasks, at most 100 cache entries, all cached and posted images bitmap drawables, the large placeholder a bitmap drawable, and every queued or running task reflected and saved exactly when large, sized to match, and plain default-size for a remote client |
| ImageLoader.Init | src/github/madmarty/madsonic/util/ImageLoader.java:70-93 | construction succeeds if and only if the large size is at least 4; the large placeholder is L x (L + L/2); the cache, queue and posted deliveries start empty; all five workers start idle; the result satisfies the invariant |
| ImageLoader.LoadImage | src/github/madmarty/madsonic/util/ImageLoader.java:95-112 | without art, only the placeholder is applied; on a hit, the cached drawable is shown with cross-fade = large and nothing is queued; on a miss, the small placeholder is applied if and only if not large, and one task is offered (size by `large`, reflection = saveToFile = large, crossfade passed through); the cache, workers and posted deliveries never change |
| ImageLoader.LoadRemoteImage | src/github/madmarty/madsonic/util/ImageLoader.java:114-128 | same pattern at the default size: the client gets the large placeholder without art or on a miss; on a hit it gets a copy equal to the cached bitmap (same size and pixels); on a miss one default-size task with all flags false is offered |
| ImageLoader.Clear | src/github/madmarty/madsonic/util/ImageLoader.java:185-187 | the queue becomes empty; the cache, targets, workers and posted deliveries are unchanged |
| ImageLoader.Take | src/github/madmarty/madsonic/util/ImageLoader.java:190-194 | an idle worker removes exactly the queue head (FIFO) and executes it; other workers are unchanged; a busy worker, or one facing an empty queue, changes nothing |
| ImageLoader.Produce | src/github/madmarty/madsonic/util/ImageLoader.java:346-350 | a bitmap is produced if and only if the fetch succeeds and, when reflection is asked, 4 <= H <= W; it is the fetched bitmap, or its W x (H + H/2) reflection |
| ImageLoader.DeliveryFor | src/github/madmarty/madsonic/util/ImageLoader.java:355-363 | a task with a view delivers to that view with its cross-fade flag; otherwise it delivers to its remote-control client |
| ImageLoader.Execute | src/github/madmarty/madsonic/util/ImageLoader.java:343-368 | the worker becomes idle again; on success the image is put under the task's key and one delivery is appended; on failure the cache and posted deliveries are unchanged; the queue and targets are never touched |
| ImageLoader.Dispatch | src/github/madmarty/madsonic/util/ImageLoader.java:355-363 | the oldest posted delivery is removed; a view delivery is applied through the view `setImage` with its cross-fade flag; a remote delivery leaves the client showing a copy equal to the posted bitmap and changes no other target |
| ImageLoader.VictimExists | src/github/madmarty/madsonic/util/ImageLoader.java:353 | in every well-formed state the cache has an eviction choice for any finishing worker, so the no-op `Next` takes on an unfitting choice hides no behaviour |
| ImageLoader.Next | src/github/madmarty/madsonic/util/ImageLoader.java:189-199 | every step keeps the invariant: 5 workers, at most 500 queued tasks, at most 100 cached bitmap drawables, posted images are bitmaps, and every task is shaped as `loadImage` makes it |
| ImageLoader.Run | src/github/madmarty/madsonic/util/ImageLoader.java:189-199 | the invariant holds after any schedule of steps |
| LoaderProperties.HitCrossfadeFollowsLarge | src/github/madmarty/madsonic/util/ImageLoader.java:101-106 | on a cache hit, an image view cross-fades if and only if the request is large, whatever `crossfade` says; it settles on the cached image and nothing is queued |
| LoaderProperties.ExecuteIgnoresCache | src/github/madmarty/madsonic/util/ImageLoader.java:343-353 | with two different caches, executing a task gives the same deliveries, the same workers and the same stored entry: the worker never reads the cache |
| LoaderProperties.ClearSparesInFlight | src/github/madmarty/madsonic/util/ImageLoader.java:185-199 | `clear` commutes with a worker finishing its task, so tasks already taken are still stored and delivered |
| LoaderProperties.TwoMissesQueueTwice | src/github/madmarty/madsonic/util/ImageLoader.java:101-111 | two identical missing requests queue two identical tasks |
| LoaderProperties.DuplicateTasksBothFetch | src/github/madmarty/madsonic/util/ImageLoader.java:193-194 | two workers holding identical tasks both fetch; both results are posted in order, and the cache keeps the later one |
| LoaderProperties.StaleDeliveryOverwritesNewer | src/github/madmarty/madsonic/util/ImageLoader.java:355-363 | a delivery posted earlier but run after a newer cache hit replaces the newer image on the view |
| LoaderProperties.MissThenDeliver | src/github/madmarty/madsonic/util/ImageLoader.java:95-112 | a small image-view miss shows the small placeholder; after take, execute and dispatch, the view shows the fetched image (cross-faded from the placeholder if asked) and the image is cached |
| LoaderProperties.ScheduleKeepsBounds | src/github/madmarty/madsonic/util/ImageLoader.java:62-83 | from construction, every schedule keeps 5 workers, at most 500 queued tasks and at most 100 cache entries |

## Left out

- Threads, `Handler.post` and the blocking `take`: each is an atomic step under an arbitrary schedule. A blocked worker is a `Take` step that changes nothing.
- Pixel work in `createReflection` (blur by rescaling, gradient, compose shader, flips): Android graphics and floating point. A reflected bitmap is described only by its size and by `Reflected(source)`.
- The 250 ms `TransitionDrawable` animation: UI timing. A cross-fade is recorded as a `Transition(from, to)` drawable.
- `createReflectionEx`: it is never called.
- ArtCache.Put: the LRU eviction order is not modelled, because `LRUCache` is not part of this model. The only property relied on is the 100-entry bound. The evicted key is an argument: any resident entry, possibly the key being put, may be evicted whenever the cache is full. `get` does not refresh any recency. A scheduled eviction the cache could not make turns the step into a no-op; `ImageLoader.VictimExists` shows a valid choice always exists.
- The sizes computed from display metrics (`Math.round` of a floating-point product): both sizes are configuration constants.
- `MusicService.getCoverArt`: a network and disk collaborator, modelled as an oracle that returns a bitmap or a failure. The `saveToFile` flag it receives has no effect in the model. A null bitmap returned without an exception is not modelled.
- `Util.createDrawableFromBitmap`: not part of this model. It becomes `BitmapDrawable` with the bitmap's own size, ignoring density scaling.
- A null view or null remote-control client: targets are never null in the model. For a null view, the no-art and cache-hit paths do nothing, because both `instanceof` tests fail; only a miss throws, at `view.getContext()`. A null remote-control client throws on every path, at `editMetadata`.
- Java's 32-bit `int` for sizes: sizes are unbounded integers. The real sizes are small and positive, so nothing wraps.
- Logging on failure: no observable effect.
- `SelectArtistActivity`: activity lifecycle and UI plumbing that does not use the loader.
