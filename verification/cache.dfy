/** The loader's drawable cache: a map from key to drawable holding at most
    `Capacity` entries. Its eviction order is not modelled; the entry it
    evicts is supplied by the caller. */
module ArtCache {
  import opened Options
  import opened Graphics

  const Capacity: nat := 100

  type Cache = map<string, Drawable>

  /** `cache.get(key)`: the cached drawable, or null. */
  function Get(c: Cache, key: string): (r: Option<Drawable>)
    ensures r.Some? <==> key in c
    ensures r.Some? ==> r.value == c[key]
  {
    if key in c then Some(c[key]) else None
  }

  /** An eviction choice the cache could make: a put into a full cache evicts
      one resident entry (possibly the key being put). */
  predicate VictimOk(c: Cache, victim: string) {
    |c| >= Capacity ==> victim in c
  }

  /** `cache.put(key, image)`: the key now maps to the image, no other entry is
      added or altered, only the victim can be lost (and only when the cache
      is full), and the capacity bound is kept. */
  function Put(c: Cache, key: string, image: Drawable, victim: string): (r: Cache)
    requires VictimOk(c, victim)
    ensures key in r && r[key] == image
    ensures forall k :: k in r && k != key ==> k in c && r[k] == c[k]
    ensures forall k :: k in c && k != key && k != victim ==> k in r && r[k] == c[k]
    ensures |c| < Capacity ==> r.Keys == c.Keys + {key}
    ensures |c| <= Capacity ==> |r| <= Capacity
  {
    if |c| >= Capacity then
      var rest := c - {victim};
      assert rest.Keys == c.Keys - {victim};
      rest[key := image]
    else
      c[key := image]
  }
}
