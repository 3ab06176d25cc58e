/** The location-photo service: a week-long cache of photo URLs keyed by
    location id, filled from a place search. Storage, the clock, the API
    key and the outcome of the search are parameters here; the cache is a
    value handed in and handed back. */
module PlacesCache {
  import opened Optional
  import opened Text

  /** Seven days, in milliseconds. */
  const CacheDuration: int := 7 * 24 * 60 * 60 * 1000

  const Fallback: string := "/images/fallback.png"

  /** What every failure path answers: the fallback picture three times. */
  const FallbackPhotos: seq<string> := [Fallback, Fallback, Fallback]

  /** The most photos kept per location. */
  const MaxPhotos: nat := 4

  /** The width asked of the photo endpoint. */
  const PhotoWidth: nat := 800

  datatype Entry = Entry(photos: seq<string>, timestamp: int)

  type Cache = map<string, Entry>

  /** The cache key of a location: its id as decimal text. */
  function Key(id: nat): string {
    NatToString(id)
  }

  /** An entry stamped at `timestamp` is still good at `now`. */
  predicate IsValid(now: int, timestamp: int) {
    now - timestamp < CacheDuration
  }

  /** `getCachedPhotos`: the stored photos of a location while they are
      fresh, nothing otherwise. */
  function GetCachedPhotos(cache: Cache, id: nat, now: int): (r: Option<seq<string>>)
    ensures r.Some? <==> Key(id) in cache && IsValid(now, cache[Key(id)].timestamp)
    ensures r.Some? ==> r.value == cache[Key(id)].photos
  {
    var k := Key(id);
    if k in cache && IsValid(now, cache[k].timestamp) then Some(cache[k].photos) else None
  }

  // ---------------------------------------------------------------------
  // Photo URLs
  // ---------------------------------------------------------------------

  const UrlHead: string := "https://places.googleapis.com/v1/"
  const UrlWidth: string := "/media?maxWidthPx="
  const UrlKey: string := "&key="

  /** `getPhotoUrl`: the media endpoint of one photo resource. */
  function PhotoUrl(photoName: string, maxWidth: nat, apiKey: string): (r: string)
    ensures StartsWith(r, UrlHead)
    ensures OccursAt(r, photoName, |UrlHead|)
  {
    var r := UrlHead + photoName + UrlWidth + NatToString(maxWidth) + UrlKey + apiKey;
    assert r[..|UrlHead|] == UrlHead;
    assert r[|UrlHead|..|UrlHead| + |photoName|] == photoName;
    r
  }

  /** Different photos get different URLs under the same key and width. */
  lemma PhotoUrlInjective(a: string, b: string, maxWidth: nat, apiKey: string)
    requires PhotoUrl(a, maxWidth, apiKey) == PhotoUrl(b, maxWidth, apiKey)
    ensures a == b
  {
    var u := PhotoUrl(a, maxWidth, apiKey);
    assert |u| == |UrlHead| + |a| + |UrlWidth| + |NatToString(maxWidth)| + |UrlKey| + |apiKey|;
    assert |a| == |b|;
    assert u[|UrlHead|..|UrlHead| + |a|] == a;
    assert u[|UrlHead|..|UrlHead| + |b|] == b;
  }

  /** A photo URL is never the fallback picture: one is absolute, the
      other a site path. */
  lemma PhotoUrlIsNotFallback(photoName: string, maxWidth: nat, apiKey: string)
    ensures PhotoUrl(photoName, maxWidth, apiKey) != Fallback
  {
    var u := PhotoUrl(photoName, maxWidth, apiKey);
    assert u[0] == UrlHead[0] == 'h';
    assert Fallback[0] == '/';
  }

  // ---------------------------------------------------------------------
  // Fetching the photos of one location
  // ---------------------------------------------------------------------

  /** What the place search gave: an error (a failed request or a thrown
      exception), no place, or the photo resource names of the best
      match, in order. */
  datatype SearchOutcome = Failed | NoPlace | Place(photoNames: seq<string>)

  datatype Fetched = Fetched(photos: seq<string>, cache: Cache)

  /** The URLs of at most the first four photos, in order. */
  function PhotoUrls(names: seq<string>, apiKey: string): (r: seq<string>)
    ensures |r| == if |names| < MaxPhotos then |names| else MaxPhotos
    ensures forall i :: 0 <= i < |r| ==> r[i] == PhotoUrl(names[i], PhotoWidth, apiKey)
  {
    var n := if |names| < MaxPhotos then |names| else MaxPhotos;
    seq(n, i requires 0 <= i < n => PhotoUrl(names[i], PhotoWidth, apiKey))
  }

  /** `fetchLocationPhotos` at time `now`: a fresh cache entry wins; then a
      missing key gives the fallback; then the search decides. Only a
      place with photos is stored, stamped `now`. */
  function FetchLocationPhotos(cache: Cache, id: nat, now: int, apiKey: string, search: SearchOutcome): (r: Fetched)
    ensures GetCachedPhotos(cache, id, now).Some? ==>
              r == Fetched(GetCachedPhotos(cache, id, now).value, cache)
    ensures GetCachedPhotos(cache, id, now).None? && apiKey == "" ==> r == Fetched(FallbackPhotos, cache)
    ensures GetCachedPhotos(cache, id, now).None? && !(search.Place? && |search.photoNames| > 0) ==>
              r == Fetched(FallbackPhotos, cache)
    ensures GetCachedPhotos(cache, id, now).None? && apiKey != "" && search.Place? && |search.photoNames| > 0 ==>
              && r.photos == PhotoUrls(search.photoNames, apiKey)
              && r.cache == cache[Key(id) := Entry(r.photos, now)]
  {
    var hit := GetCachedPhotos(cache, id, now);
    if hit.Some? then Fetched(hit.value, cache)
    else if apiKey == "" then Fetched(FallbackPhotos, cache)
    else match search
      case Failed => Fetched(FallbackPhotos, cache)
      case NoPlace => Fetched(FallbackPhotos, cache)
      case Place(names) =>
        if |names| == 0 then Fetched(FallbackPhotos, cache)
        else
          var urls := PhotoUrls(names, apiKey);
          Fetched(urls, cache[Key(id) := Entry(urls, now)])
  }

  /** Whatever a fetch stores is served from the cache for the next seven
      days. */
  lemma FetchedIsCached(cache: Cache, id: nat, now: int, apiKey: string, search: SearchOutcome, later: int)
    requires GetCachedPhotos(cache, id, now).None? && apiKey != "" && search.Place? && |search.photoNames| > 0
    requires later - now < CacheDuration
    ensures var r := FetchLocationPhotos(cache, id, now, apiKey, search);
            GetCachedPhotos(r.cache, id, later) == Some(r.photos)
  {
  }

  /** A fetch leaves the cached photos of every other location as they
      were. */
  lemma FetchKeepsOtherLocations(cache: Cache, id: nat, now: int, apiKey: string, search: SearchOutcome, other: nat, t: int)
    requires other != id
    ensures GetCachedPhotos(FetchLocationPhotos(cache, id, now, apiKey, search).cache, other, t)
            == GetCachedPhotos(cache, other, t)
  {
    if Key(other) == Key(id) {
      NatToStringInjective(other, id);
    }
  }

  /** Success as the prefetch counts it: the first photo is not the
      fallback (an empty list counts as success). */
  predicate LooksFetched(photos: seq<string>) {
    |photos| == 0 || photos[0] != Fallback
  }

  /** A miss counts as a success exactly when the search found a place
      with photos and a key was set. */
  lemma MissSucceedsIff(cache: Cache, id: nat, now: int, apiKey: string, search: SearchOutcome)
    requires GetCachedPhotos(cache, id, now).None?
    ensures LooksFetched(FetchLocationPhotos(cache, id, now, apiKey, search).photos) <==>
              apiKey != "" && search.Place? && |search.photoNames| > 0
  {
    if apiKey != "" && search.Place? && |search.photoNames| > 0 {
      PhotoUrlIsNotFallback(search.photoNames[0], PhotoWidth, apiKey);
    }
  }

  // ---------------------------------------------------------------------
  // Prefetch
  // ---------------------------------------------------------------------

  /** What the prefetch knows of a location. */
  datatype PlaceRef = PlaceRef(id: nat, name: string, address: string)

  datatype Tally = Tally(success: nat, fail: nat, cache: Cache)

  /** One step of the prefetch: fetch, count, keep the updated cache. */
  function Step(t: Tally, loc: PlaceRef, now: int, apiKey: string, search: SearchOutcome): Tally {
    var r := FetchLocationPhotos(t.cache, loc.id, now, apiKey, search);
    if LooksFetched(r.photos) then Tally(t.success + 1, t.fail, r.cache)
    else Tally(t.success, t.fail + 1, r.cache)
  }

  /** The tally after the first `n` locations, the i-th fetched at
      `times[i]` with search outcome `outcomes[i]`. */
  function PrefetchUpTo(start: Cache, locations: seq<PlaceRef>, times: seq<int>, apiKey: string,
                        outcomes: seq<SearchOutcome>, n: nat): Tally
    requires n <= |locations| == |times| == |outcomes|
  {
    if n == 0 then Tally(0, 0, start)
    else Step(PrefetchUpTo(start, locations, times, apiKey, outcomes, n - 1),
              locations[n - 1], times[n - 1], apiKey, outcomes[n - 1])
  }

  /** Every location is counted exactly once. */
  lemma {:induction false} PrefetchCountsEach(start: Cache, locations: seq<PlaceRef>, times: seq<int>, apiKey: string,
                                              outcomes: seq<SearchOutcome>, n: nat)
    requires n <= |locations| == |times| == |outcomes|
    ensures var t := PrefetchUpTo(start, locations, times, apiKey, outcomes, n);
            t.success + t.fail == n
  {
    if n > 0 {
      PrefetchCountsEach(start, locations, times, apiKey, outcomes, n - 1);
    }
  }

  /** `prefetchAllLocationPhotos`: nothing is fetched when the cache
      already holds as many keys as there are locations (fresh or not);
      otherwise every location is fetched in order, each fetch seeing the
      cache the previous one left. */
  method Prefetch(cache: Cache, locations: seq<PlaceRef>, times: seq<int>, apiKey: string, outcomes: seq<SearchOutcome>)
    returns (skipped: bool, success: nat, fail: nat, cache': Cache)
    requires |locations| == |times| == |outcomes|
    ensures skipped <==> |cache.Keys| >= |locations|
    ensures skipped ==> success == 0 && fail == 0 && cache' == cache
    ensures !skipped ==>
              Tally(success, fail, cache') == PrefetchUpTo(cache, locations, times, apiKey, outcomes, |locations|)
  {
    if |cache.Keys| >= |locations| {
      return true, 0, 0, cache;
    }
    skipped, success, fail, cache' := false, 0, 0, cache;
    for i := 0 to |locations|
      invariant Tally(success, fail, cache') == PrefetchUpTo(cache, locations, times, apiKey, outcomes, i)
    {
      var r := FetchLocationPhotos(cache', locations[i].id, times[i], apiKey, outcomes[i]);
      if LooksFetched(r.photos) {
        success := success + 1;
      } else {
        fail := fail + 1;
      }
      cache' := r.cache;
    }
  }

  /** With no key set and an empty cache, a prefetch reports every
      location as failed and stores nothing. */
  lemma {:induction false} NoKeyFailsAll(locations: seq<PlaceRef>, times: seq<int>, outcomes: seq<SearchOutcome>, n: nat)
    requires n <= |locations| == |times| == |outcomes|
    ensures PrefetchUpTo(map[], locations, times, "", outcomes, n) == Tally(0, n, map[])
  {
    if n > 0 {
      NoKeyFailsAll(locations, times, outcomes, n - 1);
    }
  }
}
