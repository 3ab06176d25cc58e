/** The application shell: the catalog filter that feeds the map and the
    list, and the light/dark theme switch. */
module App {
  import opened Optional
  import opened Text
  import opened Types
  import opened OpeningHours
  import Collections

  /** What the filter needs from the world besides the criteria: the
      current moment, the drive-time estimate from the user to a location
      (great-circle distance at 25 mph, rounded), and the viewport test. */
  datatype Env = Env(
    now: Clock,
    driveMinutes: (Coords, Location) -> int,
    contains: (Bounds, Location) -> bool
  )

  /** The criteria the application starts with. */
  function InitialFilters(userCoords: Option<Coords>): FilterState {
    FilterState("", {}, {}, {}, false, "any", None, userCoords)
  }

  // ---------------------------------------------------------------------
  // The per-location tests
  // ---------------------------------------------------------------------

  predicate SearchMatch(f: FilterState, l: Location) {
    Includes(Lower(l.name), Lower(f.search))
  }

  predicate CategoryMatch(f: FilterState, l: Location) {
    |f.categories| == 0 || l.category in f.categories
  }

  predicate AgeMatch(f: FilterState, l: Location) {
    |f.ageGroups| == 0 || exists i :: 0 <= i < |l.ageGroups| && l.ageGroups[i] in f.ageGroups
  }

  predicate PriceMatch(f: FilterState, l: Location) {
    |f.prices| == 0 || l.price in f.prices
  }

  predicate OpenNowMatch(f: FilterState, l: Location, env: Env) {
    !f.openNow || IsLocationOpen(l.hours, env.now)
  }

  /** `time <= parseInt(driveTime, 10)`, applied only with a user
      position and a threshold other than "any"; a threshold that does
      not parse is `NaN`, and no comparison with `NaN` holds. */
  predicate DriveTimeMatch(f: FilterState, l: Location, env: Env) {
    if f.userCoords.Some? && f.driveTime != "any" then
      match ParseInt(f.driveTime)
      case None => false
      case Some(limit) => env.driveMinutes(f.userCoords.value, l) <= limit
    else true
  }

  predicate BoundsMatch(f: FilterState, l: Location, env: Env) {
    f.bounds.None? || env.contains(f.bounds.value, l)
  }

  predicate Keep(f: FilterState, env: Env, l: Location) {
    && SearchMatch(f, l)
    && CategoryMatch(f, l)
    && AgeMatch(f, l)
    && PriceMatch(f, l)
    && OpenNowMatch(f, l, env)
    && DriveTimeMatch(f, l, env)
    && BoundsMatch(f, l, env)
  }

  /** `filteredLocations`: the catalog entries that pass every test. */
  function FilteredLocations(catalog: seq<Location>, f: FilterState, env: Env): (r: seq<Location>)
    ensures |r| <= |catalog|
    ensures forall i :: 0 <= i < |r| ==> Keep(f, env, r[i])
  {
    Collections.Filter(catalog, l => Keep(f, env, l))
  }

  // ---------------------------------------------------------------------
  // Properties of the filter
  // ---------------------------------------------------------------------

  /** The result is the catalog with the failing entries removed: the
      kept positions are exactly those whose entry passes, in catalog
      order, nothing moved or repeated. */
  lemma FilteredInCatalogOrder(catalog: seq<Location>, f: FilterState, env: Env) returns (idx: seq<nat>)
    ensures |idx| == |FilteredLocations(catalog, f, env)|
    ensures Collections.StrictlyIncreasing(idx)
    ensures forall i :: 0 <= i < |idx| ==>
              idx[i] < |catalog| && FilteredLocations(catalog, f, env)[i] == catalog[idx[i]]
    ensures forall k :: 0 <= k < |catalog| ==> (k in idx <==> Keep(f, env, catalog[k]))
  {
    idx := Collections.FilterIsKeptSubsequence(catalog, l => Keep(f, env, l));
  }

  /** A location is shown exactly when it is in the catalog and passes
      every one of the seven tests. */
  lemma FilterMembership(catalog: seq<Location>, f: FilterState, env: Env, l: Location)
    ensures l in FilteredLocations(catalog, f, env) <==>
              && l in catalog
              && SearchMatch(f, l) && CategoryMatch(f, l) && AgeMatch(f, l) && PriceMatch(f, l)
              && OpenNowMatch(f, l, env) && DriveTimeMatch(f, l, env) && BoundsMatch(f, l, env)
  {
    Collections.FilterMembership(catalog, l => Keep(f, env, l), l);
  }

  /** An empty search matches every name. */
  lemma EmptySearchMatchesAll(f: FilterState, l: Location)
    requires f.search == ""
    ensures SearchMatch(f, l)
  {
    IncludesEmpty(Lower(l.name));
  }

  /** With the starting criteria every catalog entry is shown, in order. */
  lemma InitialFiltersKeepEverything(catalog: seq<Location>, env: Env, userCoords: Option<Coords>)
    ensures FilteredLocations(catalog, InitialFilters(userCoords), env) == catalog
  {
    var f := InitialFilters(userCoords);
    forall i | 0 <= i < |catalog|
      ensures Keep(f, env, catalog[i])
    {
      EmptySearchMatchesAll(f, catalog[i]);
    }
    Collections.FilterKeepsAll(catalog, l => Keep(f, env, l));
  }

  /** A numeric drive-time threshold keeps a location exactly when the
      estimate does not exceed it; without a user position, or with
      "any", drive time constrains nothing. */
  lemma DriveTimeThreshold(f: FilterState, l: Location, env: Env, limit: nat)
    ensures f.userCoords.Some? && f.driveTime == NatToString(limit) ==>
              (DriveTimeMatch(f, l, env) <==> env.driveMinutes(f.userCoords.value, l) <= limit)
    ensures f.userCoords.None? || f.driveTime == "any" ==> DriveTimeMatch(f, l, env)
  {
    if f.driveTime == NatToString(limit) {
      ParseIntOfNatToString(limit);
      assert NatToString(limit)[0] != 'a';
    }
  }

  // ---------------------------------------------------------------------
  // Theme
  // ---------------------------------------------------------------------

  /** `toggleTheme`: "light" becomes "dark", anything else "light". */
  function ToggleTheme(theme: string): (r: string)
    ensures r == "light" || r == "dark"
    ensures r == "dark" <==> theme == "light"
  {
    if theme == "light" then "dark" else "light"
  }

  /** Toggling twice restores either of the two themes. */
  lemma ToggleThemeTwice(theme: string)
    requires theme == "light" || theme == "dark"
    ensures ToggleTheme(ToggleTheme(theme)) == theme
  {
  }
}
