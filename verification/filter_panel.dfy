/** The filter panel: the option lists it offers and the edits it makes to
    the criteria. Every edit is a pure update of a `FilterState`. */
module FilterPanel {
  import opened Optional
  import opened Text
  import opened Types
  import Collections
  import App

  /** The three multi-choice criteria a checkbox can edit. */
  datatype SetKind = Categories | AgeGroups | Prices

  function Selected(f: FilterState, kind: SetKind): set<string> {
    match kind
    case Categories => f.categories
    case AgeGroups => f.ageGroups
    case Prices => f.prices
  }

  /** `handleCheckboxChange`: the chosen value leaves the chosen set if it
      was there and joins it otherwise; the viewport is forgotten and
      nothing else changes. */
  function HandleCheckboxChange(f: FilterState, kind: SetKind, value: string): (g: FilterState)
    ensures value in Selected(g, kind) <==> value !in Selected(f, kind)
    ensures forall v :: v != value ==> (v in Selected(g, kind) <==> v in Selected(f, kind))
    ensures forall k :: k != kind ==> Selected(g, k) == Selected(f, k)
    ensures g.search == f.search && g.openNow == f.openNow
    ensures g.driveTime == f.driveTime && g.userCoords == f.userCoords
    ensures g.bounds.None?
  {
    var old_ := Selected(f, kind);
    var s := if value in old_ then old_ - {value} else old_ + {value};
    match kind
    case Categories => f.(categories := s, bounds := None)
    case AgeGroups => f.(ageGroups := s, bounds := None)
    case Prices => f.(prices := s, bounds := None)
  }

  /** Ticking the same box twice restores the criteria, except that the
      viewport stays forgotten. */
  lemma CheckboxTwice(f: FilterState, kind: SetKind, value: string)
    ensures HandleCheckboxChange(HandleCheckboxChange(f, kind, value), kind, value) == f.(bounds := None)
  {
    var g := HandleCheckboxChange(HandleCheckboxChange(f, kind, value), kind, value);
    assert Selected(g, kind) == Selected(f, kind);
    match kind
    case Categories =>
    case AgeGroups =>
    case Prices =>
  }

  /** `handleReset`: back to the starting criteria, keeping the user's
      position. */
  function HandleReset(f: FilterState): (g: FilterState)
    ensures g.search == "" && g.categories == {} && g.ageGroups == {} && g.prices == {}
    ensures !g.openNow && g.driveTime == "any" && g.bounds.None?
    ensures g.userCoords == f.userCoords
  {
    App.InitialFilters(f.userCoords)
  }

  /** After a reset every catalog entry is shown again. */
  lemma ResetShowsEverything(f: FilterState, catalog: seq<Location>, env: App.Env)
    ensures App.FilteredLocations(catalog, HandleReset(f), env) == catalog
  {
    App.InitialFiltersKeepEverything(catalog, env, f.userCoords);
  }

  /** Typing in the search box: new search text, viewport forgotten. */
  function SetSearch(f: FilterState, text: string): (g: FilterState)
    ensures g.search == text && g.bounds.None?
    ensures g.(search := f.search, bounds := f.bounds) == f
  {
    f.(search := text, bounds := None)
  }

  /** The "Open Now" switch: new flag, viewport forgotten. */
  function SetOpenNow(f: FilterState, on: bool): (g: FilterState)
    ensures g.openNow == on && g.bounds.None?
    ensures g.(openNow := f.openNow, bounds := f.bounds) == f
  {
    f.(openNow := on, bounds := None)
  }

  /** A drive-time choice: new threshold, and unlike the other edits the
      viewport is kept. */
  function SetDriveTime(f: FilterState, value: string): (g: FilterState)
    ensures g.driveTime == value && g.bounds == f.bounds
    ensures g.(driveTime := f.driveTime) == f
  {
    f.(driveTime := value)
  }

  // ---------------------------------------------------------------------
  // Option lists
  // ---------------------------------------------------------------------

  function Categories(catalog: seq<Location>): seq<string> {
    if |catalog| == 0 then [] else [catalog[0].category] + Categories(catalog[1..])
  }

  function AllAgeGroups(catalog: seq<Location>): seq<string> {
    if |catalog| == 0 then [] else catalog[0].ageGroups + AllAgeGroups(catalog[1..])
  }

  lemma {:induction false} CategoriesCover(catalog: seq<Location>, c: string)
    ensures c in Categories(catalog) <==> exists i :: 0 <= i < |catalog| && catalog[i].category == c
  {
    if |catalog| > 0 {
      CategoriesCover(catalog[1..], c);
      assert forall i :: 1 <= i < |catalog| ==> catalog[i] == catalog[1..][i - 1];
    }
  }

  lemma {:induction false} AgeGroupsCover(catalog: seq<Location>, a: string)
    ensures a in AllAgeGroups(catalog) <==> exists i :: 0 <= i < |catalog| && a in catalog[i].ageGroups
  {
    if |catalog| > 0 {
      AgeGroupsCover(catalog[1..], a);
      assert forall i :: 1 <= i < |catalog| ==> catalog[i] == catalog[1..][i - 1];
    }
  }

  /** The category checkboxes: every category of the catalog once, in
      character (Unicode scalar value) order. */
  function CategoryOptions(catalog: seq<Location>): (r: seq<string>)
    ensures Collections.Distinct(r) && Collections.Sorted(r)
    ensures forall c :: c in r <==> exists i :: 0 <= i < |catalog| && catalog[i].category == c
  {
    var d := Collections.Dedup(Categories(catalog));
    var r := Collections.Sort(d);
    Collections.PermutationKeepsDistinct(d, r);
    forall c ensures c in r <==> c in d {
      assert c in r <==> c in multiset(r);
    }
    forall c ensures c in d <==> exists i :: 0 <= i < |catalog| && catalog[i].category == c {
      CategoriesCover(catalog, c);
    }
    r
  }

  /** The age-group checkboxes: every age group of the catalog once, in the
      order it first appears. */
  function AgeGroupOptions(catalog: seq<Location>): (r: seq<string>)
    ensures Collections.Distinct(r)
    ensures forall a :: a in r <==> exists i :: 0 <= i < |catalog| && a in catalog[i].ageGroups
  {
    var r := Collections.Dedup(AllAgeGroups(catalog));
    forall a ensures a in r <==> exists i :: 0 <= i < |catalog| && a in catalog[i].ageGroups {
      AgeGroupsCover(catalog, a);
    }
    r
  }

  const PriceOptions: seq<string> := ["Free", "$", "$$", "$$$"]

  /** The radio values of the drive-time choice. */
  const DriveTimeOptions: seq<string> := ["any", "15", "30", "60"]

  /** Every numeric drive-time choice reads as its number of minutes. */
  lemma DriveTimeOptionsParse()
    ensures |DriveTimeOptions| == 4 && DriveTimeOptions[0] == "any"
    ensures ParseInt(DriveTimeOptions[1]) == Some(15)
    ensures ParseInt(DriveTimeOptions[2]) == Some(30)
    ensures ParseInt(DriveTimeOptions[3]) == Some(60)
  {
    DriveChoiceParses(15, "15");
    DriveChoiceParses(30, "30");
    DriveChoiceParses(60, "60");
  }

  lemma DriveChoiceParses(n: nat, s: string)
    requires 10 <= n < 100 && s == [DigitChar(n / 10), DigitChar(n % 10)]
    ensures ParseInt(s) == Some(n)
  {
    assert NatToString(n / 10) == [DigitChar(n / 10)];
    assert NatToString(n) == s;
    ParseIntOfNatToString(n);
  }
}
