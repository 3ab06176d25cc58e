/** The server function that relays a multi-stop planning request to the
    text generator: when it takes the multi-stop branch, how it lists the
    candidate locations and the family's details in the request, and what
    it answers. The generator itself is a parameter. */
module ItineraryRelay {
  import opened Optional
  import opened Text

  /** What the relay reads of one location. */
  datatype SummaryLocation = SummaryLocation(name: string, category: string, price: string, ageGroups: seq<string>)

  datatype MultiStopOptions = MultiStopOptions(
    numAdults: nat,
    numKids: nat,
    timeAvailable: string,
    budget: string,
    mealPreference: string,
    preferences: string
  )

  /** The request body: `multiStopOptions` when present, and `locations`
      when it is an array. */
  datatype RelayRequest = RelayRequest(multiStopOptions: Option<MultiStopOptions>, locations: Option<seq<SummaryLocation>>)

  /** A success: status 200 and a JSON body holding the generated text. */
  datatype Response = Response(statusCode: nat, text: string)

  /** The most locations the request lists. */
  const MaxListed: nat := 10

  /** The multi-stop branch runs for options together with a non-empty
      array of locations. */
  predicate TakesMultiStopBranch(req: RelayRequest) {
    req.multiStopOptions.Some? && req.locations.Some? && |req.locations.value| > 0
  }

  // ---------------------------------------------------------------------
  // Location summary
  // ---------------------------------------------------------------------

  const LinePrefix: string := "- "
  const BestFor: string := ", Best for: "

  /** "- name (category, price, Best for: a, b)". */
  function LocationLine(loc: SummaryLocation): (r: string)
    ensures StartsWith(r, LinePrefix + loc.name + " (")
    ensures r[|r| - 1] == ')'
  {
    var r := LinePrefix + loc.name + " (" + loc.category + ", " + loc.price + BestFor + Join(loc.ageGroups, ", ") + ")";
    assert r[..|LinePrefix + loc.name + " ("|] == LinePrefix + loc.name + " (";
    r
  }

  /** The first ten locations at most, in the order given. */
  function Listed(locations: seq<SummaryLocation>): (r: seq<SummaryLocation>)
    ensures |r| == if |locations| < MaxListed then |locations| else MaxListed
    ensures r == locations[..|r|]
  {
    if |locations| < MaxListed then locations else locations[..MaxListed]
  }

  function LocationLines(locations: seq<SummaryLocation>): (r: seq<string>)
    ensures |r| == |Listed(locations)|
    ensures forall i :: 0 <= i < |r| ==> r[i] == LocationLine(locations[i])
  {
    var listed := Listed(locations);
    seq(|listed|, i requires 0 <= i < |listed| => LocationLine(listed[i]))
  }

  /** `locationSummary`: one line per listed location. */
  function LocationSummary(locations: seq<SummaryLocation>): string {
    Join(LocationLines(locations), "\n")
  }

  predicate NoBreak(s: string) {
    forall k :: 0 <= k < |s| ==> s[k] != '\n'
  }

  /** A location whose texts hold no line break. */
  predicate SingleLine(loc: SummaryLocation) {
    NoBreak(loc.name) && NoBreak(loc.category) && NoBreak(loc.price)
    && forall j :: 0 <= j < |loc.ageGroups| ==> NoBreak(loc.ageGroups[j])
  }

  /** Joining line-free texts with a line-free separator gives a line-free
      text. */
  lemma {:induction false} JoinNoBreak(parts: seq<string>, sep: string)
    requires NoBreak(sep)
    requires forall j :: 0 <= j < |parts| ==> NoBreak(parts[j])
    ensures NoBreak(Join(parts, sep))
  {
    if |parts| > 1 {
      JoinNoBreak(parts[1..], sep);
      var rest := Join(parts[1..], sep);
      assert Join(parts, sep) == parts[0] + sep + rest;
    }
  }

  lemma LocationLineNoBreak(loc: SummaryLocation)
    requires SingleLine(loc)
    ensures NoBreak(LocationLine(loc))
  {
    JoinNoBreak(loc.ageGroups, ", ");
  }

  /** Split at line breaks, the summary gives back one line per listed
      location, in order, when no location text holds a line break. */
  lemma SummaryLinesRoundTrip(locations: seq<SummaryLocation>)
    requires |locations| > 0
    requires forall i :: 0 <= i < |locations| ==> SingleLine(locations[i])
    ensures SplitOn(LocationSummary(locations), "\n") == LocationLines(locations)
    ensures |SplitOn(LocationSummary(locations), "\n")| <= MaxListed
  {
    var lines := LocationLines(locations);
    forall i, k | 0 <= i < |lines| && 0 <= k < |lines[i]| ensures lines[i][k] != '\n' {
      LocationLineNoBreak(locations[i]);
    }
    SplitJoinChar(lines, '\n');
  }

  // ---------------------------------------------------------------------
  // Family details
  // ---------------------------------------------------------------------

  const PreferencesLead: string := "- Special preferences: "

  /** The optional last detail line, present only for non-empty
      preferences. */
  function PreferencesLine(preferences: string): (r: string)
    ensures r == "" <==> preferences == ""
  {
    if preferences != "" then "\n" + PreferencesLead + preferences else ""
  }

  function DetailLines(o: MultiStopOptions): seq<string> {
    ["- " + NatToString(o.numAdults) + " adult(s) and " + NatToString(o.numKids) + " kid(s)",
     "- Time available: " + o.timeAvailable,
     "- Activity budget: $" + o.budget,
     "- Meal preference: " + o.mealPreference]
  }

  /** The family-details block of the request. */
  function FamilyDetails(o: MultiStopOptions): string {
    Join(DetailLines(o), "\n") + PreferencesLine(o.preferences)
  }

  predicate OptionsSingleLine(o: MultiStopOptions) {
    NoBreak(o.timeAvailable) && NoBreak(o.budget) && NoBreak(o.mealPreference) && NoBreak(o.preferences)
  }

  /** Split at line breaks, the block is the four fixed lines, then the
      preferences line exactly when preferences were given. */
  lemma FamilyDetailsLines(o: MultiStopOptions)
    requires OptionsSingleLine(o)
    ensures SplitOn(FamilyDetails(o), "\n") ==
              DetailLines(o) + (if o.preferences != "" then [PreferencesLead + o.preferences] else [])
  {
    var d := DetailLines(o);
    DetailLinesNoBreak(o);
    if o.preferences == "" {
      assert FamilyDetails(o) == Join(d, "\n") + "";
      assert Join(d, "\n") + "" == Join(d, "\n");
      assert d + [] == d;
      SplitJoinChar(d, '\n');
    } else {
      var p := PreferencesLead + o.preferences;
      assert NoBreak(p) by { NoBreakConcat(PreferencesLead, o.preferences); }
      JoinAppendLast(d, p);
      assert FamilyDetails(o) == Join(d + [p], "\n");
      assert forall i :: 0 <= i < |d + [p]| ==> NoBreak((d + [p])[i]);
      SplitJoinChar(d + [p], '\n');
    }
  }

  lemma NoBreakConcat(a: string, b: string)
    requires NoBreak(a) && NoBreak(b)
    ensures NoBreak(a + b)
  {
    assert forall k :: |a| <= k < |a + b| ==> (a + b)[k] == b[k - |a|];
  }

  lemma DetailLinesNoBreak(o: MultiStopOptions)
    requires OptionsSingleLine(o)
    ensures forall i :: 0 <= i < |DetailLines(o)| ==> NoBreak(DetailLines(o)[i])
  {
    var a, k := NatToString(o.numAdults), NatToString(o.numKids);
    assert NoBreak(a) && NoBreak(k);
    NoBreakConcat("- ", a);
    NoBreakConcat("- " + a, " adult(s) and ");
    NoBreakConcat("- " + a + " adult(s) and ", k);
    NoBreakConcat("- " + a + " adult(s) and " + k, " kid(s)");
    NoBreakConcat("- Time available: ", o.timeAvailable);
    NoBreakConcat("- Activity budget: $", o.budget);
    NoBreakConcat("- Meal preference: ", o.mealPreference);
  }

  /** Appending one part to a non-empty list adds the separator and the
      part to the end of the joined text. */
  lemma {:induction false} JoinAppendLast(parts: seq<string>, last: string)
    requires |parts| >= 1
    ensures Join(parts + [last], "\n") == Join(parts, "\n") + "\n" + last
  {
    if |parts| == 1 {
      assert (parts + [last])[1..] == [last];
    } else {
      assert (parts + [last])[1..] == parts[1..] + [last];
      JoinAppendLast(parts[1..], last);
    }
  }

  // ---------------------------------------------------------------------
  // The answer
  // ---------------------------------------------------------------------

  /** The multi-stop branch answers 200 with the generated text; any other
      request falls through to branches this model does not cover. */
  function Relay(req: RelayRequest, generated: string): (r: Option<Response>)
    ensures r.Some? <==> TakesMultiStopBranch(req)
    ensures r.Some? ==> r.value.statusCode == 200 && r.value.text == generated
  {
    if TakesMultiStopBranch(req) then Some(Response(200, generated)) else None
  }
}
