/** Post-processing of a generated multi-stop plan: the response is cut
    into sections at "###", each section gives a title and a body, the
    catalog locations it names are collected, and their ticket prices are
    summed into an activity-cost estimate for the party. Also the meal
    sentence of the request. */
module MultiStop {
  import opened Optional
  import opened Text
  import opened Types
  import Collections
  import Money

  const SectionMarker: string := "###"
  const DefaultTitle: string := "Suggested Itinerary"

  // ---------------------------------------------------------------------
  // Sections, title and body
  // ---------------------------------------------------------------------

  /** `text.split('###').slice(1)`: the pieces after each marker; the
      text before the first marker is dropped. */
  function Sections(text: string): (r: seq<string>)
    ensures |r| == |SplitOn(text, SectionMarker)| - 1
    ensures |r| == 0 <==> !Includes(text, SectionMarker)
    ensures forall i, j :: 0 <= i < |r| ==> !OccursAt(r[i], SectionMarker, j)
  {
    SplitOn(text, SectionMarker)[1..]
  }

  /** The dropped preamble and the sections, joined back with the marker,
      are the response. */
  lemma SectionsRoundTrip(text: string)
    ensures Join([SplitOn(text, SectionMarker)[0]] + Sections(text), SectionMarker) == text
  {
    var parts := SplitOn(text, SectionMarker);
    assert [parts[0]] + parts[1..] == parts;
  }

  function SectionLines(section: string): seq<string> {
    SplitOn(Trim(section), "\n")
  }

  /** `lines.shift()?.trim() || 'Suggested Itinerary'`: the first line of
      the trimmed section, trimmed, or the default when that is empty. */
  function Title(section: string): (t: string)
    ensures t != "" && '\n' !in t
    ensures AllWhitespace(section) ==> t == DefaultTitle
    ensures !AllWhitespace(section) ==> StartsWith(Trim(section), t)
  {
    var first := FirstLine(section);
    DefaultTitleFacts();
    if first == "" then DefaultTitle else first
  }

  lemma DefaultTitleFacts()
    ensures DefaultTitle != "" && '\n' !in DefaultTitle
  {
  }

  /** The first line of the trimmed section, trimmed. */
  function FirstLine(section: string): (l: string)
    ensures '\n' !in l
    ensures l == "" <==> AllWhitespace(section)
    ensures l != "" ==> StartsWith(Trim(section), l)
  {
    FirstLineFacts(section);
    Trim(SectionLines(section)[0])
  }

  /** The first line of the trimmed section holds no line break; it is
      blank exactly when the section is, and otherwise its trimmed text
      starts the trimmed section. */
  lemma FirstLineFacts(section: string)
    ensures var l := Trim(SectionLines(section)[0]);
            && '\n' !in l
            && (AllWhitespace(section) ==> l == "")
            && (!AllWhitespace(section) ==> l != "" && StartsWith(Trim(section), l))
  {
    var t := Trim(section);
    var lines := SectionLines(section);
    NoBreakInPiece(lines, 0);
    FirstPieceIsPrefix(lines, "\n");
    if !AllWhitespace(section) {
      FirstPieceStarts(t, lines);
      TrimOfPrefixed(lines[0]);
      PrefixOfPrefix(t, lines[0], Trim(lines[0]));
    }
    NoBreakInTrim(lines[0]);
  }

  /** No piece of a split at line breaks holds one. */
  lemma NoBreakInPiece(lines: seq<string>, k: nat)
    requires k < |lines|
    requires forall i, j :: 0 <= i < |lines| ==> !OccursAt(lines[i], "\n", j)
    ensures '\n' !in lines[k]
  {
    forall j | 0 <= j < |lines[k]| ensures lines[k][j] != '\n' {
      OccursAtChar(lines[k], '\n', j);
    }
  }

  /** Trimming a line without a line break leaves none. */
  lemma NoBreakInTrim(s: string)
    requires '\n' !in s
    ensures '\n' !in Trim(s)
  {
    var u := TrimStart(s);
    NoBreakInSlice(s, |s| - |u|, |s|);
    var r := TrimEnd(u);
    NoBreakInSlice(u, 0, |r|);
  }

  lemma NoBreakInSlice(s: string, i: nat, j: nat)
    requires i <= j <= |s| && '\n' !in s
    ensures '\n' !in s[i..j]
  {
    forall k | i <= k < j ensures s[k] != '\n' {
      assert s[k] in s;
    }
    assert forall k :: 0 <= k < j - i ==> s[i..j][k] == s[i + k];
  }

  /** The first piece of a text that starts with a non-blank character
      starts with that character. */
  lemma FirstPieceStarts(t: string, lines: seq<string>)
    requires |t| > 0 && !IsWhitespace(t[0])
    requires |lines| >= 1 && Join(lines, "\n") == t
    ensures |lines[0]| > 0 && lines[0][0] == t[0]
  {
    if |lines| > 1 {
      assert t == lines[0] + ("\n" + Join(lines[1..], "\n"));
    }
  }

  /** Trimming a text that starts with a non-blank character only cuts its
      end. */
  lemma TrimOfPrefixed(l: string)
    requires |l| > 0 && !IsWhitespace(l[0])
    ensures Trim(l) != "" && StartsWith(l, Trim(l))
  {
    assert TrimStart(l) == l;
    var r := TrimEnd(l);
  }

  lemma PrefixOfPrefix(a: string, b: string, c: string)
    requires StartsWith(a, b) && StartsWith(b, c)
    ensures StartsWith(a, c)
  {
    assert a[..|c|] == a[..|b|][..|c|];
  }

  /** The first piece of a joined list starts the joined text. */
  lemma FirstPieceIsPrefix(parts: seq<string>, sep: string)
    requires |parts| >= 1
    ensures StartsWith(Join(parts, sep), parts[0])
  {
    if |parts| > 1 {
      assert Join(parts, sep) == parts[0] + (sep + Join(parts[1..], sep));
    }
  }

  /** `lines.join('\n')` after the first line was taken off. */
  function Body(section: string): (b: string)
  {
    var lines := SectionLines(section);
    Join(lines[1..], "\n")
  }

  /** The first line, a line break and the body give back the trimmed
      section; a one-line section has an empty body. */
  lemma TitleBodyReassemble(section: string)
    ensures var lines := SectionLines(section);
            if |lines| == 1 then Body(section) == "" && lines[0] == Trim(section)
            else Trim(section) == lines[0] + "\n" + Body(section)
  {
    var lines := SectionLines(section);
    if |lines| > 1 {
      assert Join(lines, "\n") == lines[0] + "\n" + Join(lines[1..], "\n");
    }
  }

  // ---------------------------------------------------------------------
  // Mentioned locations
  // ---------------------------------------------------------------------

  predicate Mentions(section: string, l: Location) {
    Includes(section, l.name)
  }

  /** The names of the catalog locations whose exact name occurs in the
      (untrimmed) section, in catalog order. */
  function MentionedNames(section: string, locations: seq<Location>): (r: seq<string>)
    ensures |r| <= |locations|
  {
    var hits := Collections.Filter(locations, l => Mentions(section, l));
    seq(|hits|, i requires 0 <= i < |hits| => hits[i].name)
  }

  /** A name is collected exactly when some catalog location with that
      name is mentioned. Matching is case-sensitive. */
  lemma MentionedNamesIff(section: string, locations: seq<Location>, n: string)
    ensures n in MentionedNames(section, locations) <==>
              exists i :: 0 <= i < |locations| && locations[i].name == n && Includes(section, n)
  {
    var p := l => Mentions(section, l);
    var hits := Collections.Filter(locations, p);
    var r := MentionedNames(section, locations);
    if n in r {
      var i :| 0 <= i < |r| && r[i] == n;
      Collections.FilterMembership(locations, p, hits[i]);
      var k :| 0 <= k < |locations| && locations[k] == hits[i];
      assert locations[k].name == n;
    }
    if exists i :: 0 <= i < |locations| && locations[i].name == n && Includes(section, n) {
      var i :| 0 <= i < |locations| && locations[i].name == n && Includes(section, n);
      Collections.FilterMembership(locations, p, locations[i]);
      var j :| 0 <= j < |hits| && hits[j] == locations[i];
      assert r[j] == n;
    }
  }

  /** `locations.find(l => l.name === name)`: the first location so named. */
  function FindByName(locations: seq<Location>, name: string): (r: Option<Location>)
    ensures r.Some? <==> exists i :: 0 <= i < |locations| && locations[i].name == name
    ensures r.Some? ==> exists i :: 0 <= i < |locations| && locations[i] == r.value && r.value.name == name
                           && forall j :: 0 <= j < i ==> locations[j].name != name
  {
    if |locations| == 0 then None
    else if locations[0].name == name then Some(locations[0])
    else
      var r := FindByName(locations[1..], name);
      assert forall i :: 1 <= i < |locations| ==> locations[i] == locations[1..][i - 1];
      if r.Some? then
        var i :| 0 <= i < |locations[1..]| && locations[1..][i] == r.value && r.value.name == name
                 && forall j :: 0 <= j < i ==> locations[1..][j].name != name;
        assert locations[i + 1] == r.value;
        r
      else r
  }

  // ---------------------------------------------------------------------
  // Ticket cost
  // ---------------------------------------------------------------------

  /** A per-person price as a multiplication sees it, in cents: a number
      as it is, a text through `Number` (decimal digits read as whole
      dollars), or `NaN` (`None`). */
  function Rate(v: TicketValue): Option<int> {
    match v
    case Num(c) => Some(c)
    case Text(t) => match NumberOf(t) case Some(d) => Some(d * 100) case None => None
  }

  /** Addition and multiplication where `None` is `NaN` and absorbs. */
  function AddNaN(a: Option<int>, b: Option<int>): Option<int> {
    if a.Some? && b.Some? then Some(a.value + b.value) else None
  }

  function MulNaN(a: Option<int>, n: nat): Option<int> {
    if a.Some? then Some(a.value * n) else None
  }

  /** `if (ticketInfo[key]) cost += ticketInfo[key] * n`. */
  function AddPerHead(cost: Option<int>, info: TicketInfo, key: string, n: nat): Option<int> {
    var v := TicketField(info, key);
    if Truthy(v) then AddNaN(cost, MulNaN(Rate(v.value), n)) else cost
  }

  /** The child price: `Child || Youth`. */
  function ChildValue(info: TicketInfo): Option<TicketValue> {
    if Truthy(TicketField(info, "Child")) then TicketField(info, "Child") else TicketField(info, "Youth")
  }

  /** The cost of one location for `adults` adults and `kids` children:
      Adult per adult, Child (else Youth) per child, General, Admission and
      Maze per person, Park Entry once. Every price, Park Entry included,
      is read as a number, as the `as number` casts assume; the code as
      written adds a text Park Entry as a string (`LocationCostAsWritten`). */
  function LocationCost(info: TicketInfo, adults: nat, kids: nat): Option<int> {
    var c0 := AddPerHead(Some(0), info, "Adult", adults);
    var child := ChildValue(info);
    var c1 := if Truthy(child) then AddNaN(c0, MulNaN(Rate(child.value), kids)) else c0;
    var c2 := AddPerHead(c1, info, "General", adults + kids);
    var c3 := AddPerHead(c2, info, "Admission", adults + kids);
    var park := TicketField(info, "Park Entry");
    var c4 := if Truthy(park) then AddNaN(c3, Rate(park.value)) else c3;
    AddPerHead(c4, info, "Maze", adults + kids)
  }

  /** The amount stored under `key` when it is a number, else 0. */
  function Amount(info: TicketInfo, key: string): nat {
    match TicketField(info, key)
    case Some(Num(c)) => c
    case _ => 0
  }

  predicate AllNumeric(info: TicketInfo) {
    forall i :: 0 <= i < |info| ==> info[i].1.Num?
  }

  function ChildRate(info: TicketInfo): nat {
    if Amount(info, "Child") != 0 then Amount(info, "Child") else Amount(info, "Youth")
  }

  /** The estimate in closed form: Adult per adult, the child rate per
      child, General, Admission and Maze per person, Park Entry once. */
  function ClosedCost(info: TicketInfo, adults: nat, kids: nat): int {
    Amount(info, "Adult") * adults + ChildRate(info) * kids
    + Amount(info, "General") * (adults + kids) + Amount(info, "Admission") * (adults + kids)
    + Amount(info, "Park Entry") + Amount(info, "Maze") * (adults + kids)
  }

  /** With every price a number, the cost is the closed formula: missing
      and zero prices simply contribute nothing. */
  lemma CostFormula(info: TicketInfo, adults: nat, kids: nat)
    requires AllNumeric(info)
    ensures LocationCost(info, adults, kids) == Some(ClosedCost(info, adults, kids))
  {
    var n := adults + kids;
    var c0 := Amount(info, "Adult") * adults;
    PerHeadNumeric(info, "Adult", 0, adults);
    var c1 := c0 + ChildRate(info) * kids;
    ChildNumeric(info, c0, kids);
    var c2 := c1 + Amount(info, "General") * n;
    PerHeadNumeric(info, "General", c1, n);
    var c3 := c2 + Amount(info, "Admission") * n;
    PerHeadNumeric(info, "Admission", c2, n);
    var c4 := c3 + Amount(info, "Park Entry");
    PerHeadNumeric(info, "Park Entry", c3, 1);
    ParkIsOnePerHead(info, Some(c3));
    PerHeadNumeric(info, "Maze", c4, n);
  }

  /** One per-head field of an all-number table adds its amount per head. */
  lemma PerHeadNumeric(info: TicketInfo, key: string, c: int, n: nat)
    requires AllNumeric(info)
    ensures AddPerHead(Some(c), info, key, n) == Some(c + Amount(info, key) * n)
  {
    NumericField(info, key);
  }

  /** The child field of an all-number table adds the child rate per child. */
  lemma ChildNumeric(info: TicketInfo, c: int, kids: nat)
    requires AllNumeric(info)
    ensures var child := ChildValue(info);
            (if Truthy(child) then AddNaN(Some(c), MulNaN(Rate(child.value), kids)) else Some(c))
              == Some(c + ChildRate(info) * kids)
  {
    NumericField(info, "Child");
    NumericField(info, "Youth");
  }

  /** In an all-number table a present field is a number, and its
      truthiness is its being non-zero. */
  lemma NumericField(info: TicketInfo, key: string)
    requires AllNumeric(info)
    ensures TicketField(info, key).Some? ==> TicketField(info, key).value.Num?
    ensures Truthy(TicketField(info, key)) <==> Amount(info, key) != 0
  {
    if TicketField(info, key).Some? {
      var i :| 0 <= i < |info| && info[i] == (key, TicketField(info, key).value);
    }
  }

  /** A bigger party never costs less at an all-number location. */
  lemma CostMonotone(info: TicketInfo, a: nat, k: nat, a2: nat, k2: nat)
    requires AllNumeric(info) && a <= a2 && k <= k2
    ensures LocationCost(info, a, k).Some? && LocationCost(info, a2, k2).Some?
    ensures LocationCost(info, a, k).value <= LocationCost(info, a2, k2).value
  {
    CostFormula(info, a, k);
    CostFormula(info, a2, k2);
    MulMono(Amount(info, "Adult"), a, a2);
    MulMono(ChildRate(info), k, k2);
    MulMono(Amount(info, "General"), a + k, a2 + k2);
    MulMono(Amount(info, "Admission"), a + k, a2 + k2);
    MulMono(Amount(info, "Maze"), a + k, a2 + k2);
  }

  lemma MulMono(x: nat, y: nat, z: nat)
    requires y <= z
    ensures x * y <= x * z
  {
    assert x * z == x * y + x * (z - y);
  }

  /** A price as the number it reads as: a text of digits with a
      positive value becomes that many whole dollars. */
  function ReadPrice(v: TicketValue): TicketValue {
    match v
    case Num(_) => v
    case Text(t) => match NumberOf(t) case Some(d) => if d > 0 then Num(d * 100) else v case None => v
  }

  function ReadPrices(info: TicketInfo): (r: TicketInfo)
    ensures |r| == |info|
  {
    if |info| == 0 then [] else [(info[0].0, ReadPrice(info[0].1))] + ReadPrices(info[1..])
  }

  /** Every text price is a positive whole number of dollars. */
  predicate DigitPrices(info: TicketInfo) {
    forall i :: 0 <= i < |info| && info[i].1.Text? ==>
      NumberOf(info[i].1.text).Some? && NumberOf(info[i].1.text).value > 0
  }

  /** A price written as digits costs what the number would: the cost of
      such a table is the closed formula over its numbers. */
  lemma TextPricesReadAsNumbers(info: TicketInfo, adults: nat, kids: nat)
    requires DigitPrices(info)
    ensures AllNumeric(ReadPrices(info))
    ensures LocationCost(info, adults, kids) == LocationCost(ReadPrices(info), adults, kids)
    ensures LocationCost(info, adults, kids) == Some(ClosedCost(ReadPrices(info), adults, kids))
  {
    ReadPricesNumeric(info);
    SameCostAfterReading(info, adults, kids);
    CostFormula(ReadPrices(info), adults, kids);
  }

  lemma SameCostAfterReading(info: TicketInfo, adults: nat, kids: nat)
    requires DigitPrices(info)
    ensures LocationCost(info, adults, kids) == LocationCost(ReadPrices(info), adults, kids)
  {
    var n := adults + kids;
    var c0 := AddPerHead(Some(0), info, "Adult", adults);
    PerHeadAfterReading(info, "Adult", Some(0), adults);
    var child := ChildValue(info);
    var c1 := if Truthy(child) then AddNaN(c0, MulNaN(Rate(child.value), kids)) else c0;
    ChildAfterReading(info, c0, kids);
    var c2 := AddPerHead(c1, info, "General", n);
    PerHeadAfterReading(info, "General", c1, n);
    var c3 := AddPerHead(c2, info, "Admission", n);
    PerHeadAfterReading(info, "Admission", c2, n);
    var c4 := AddPerHead(c3, info, "Park Entry", 1);
    PerHeadAfterReading(info, "Park Entry", c3, 1);
    ParkIsOnePerHead(info, c3);
    ParkIsOnePerHead(ReadPrices(info), c3);
    PerHeadAfterReading(info, "Maze", c4, n);
  }

  /** Park Entry, added once, is a per-head price for a party of one. */
  lemma ParkIsOnePerHead(info: TicketInfo, c: Option<int>)
    ensures var park := TicketField(info, "Park Entry");
            (if Truthy(park) then AddNaN(c, Rate(park.value)) else c) == AddPerHead(c, info, "Park Entry", 1)
  {
  }

  lemma PerHeadAfterReading(info: TicketInfo, key: string, c: Option<int>, n: nat)
    requires DigitPrices(info)
    ensures AddPerHead(c, ReadPrices(info), key, n) == AddPerHead(c, info, key, n)
  {
    ReadPricesField(info, key);
  }

  lemma ChildAfterReading(info: TicketInfo, c: Option<int>, kids: nat)
    requires DigitPrices(info)
    ensures var child := ChildValue(info);
            var read := ChildValue(ReadPrices(info));
            (if Truthy(read) then AddNaN(c, MulNaN(Rate(read.value), kids)) else c)
              == (if Truthy(child) then AddNaN(c, MulNaN(Rate(child.value), kids)) else c)
  {
    ReadPricesField(info, "Child");
    ReadPricesField(info, "Youth");
  }

  lemma {:induction false} ReadPricesNumeric(info: TicketInfo)
    requires DigitPrices(info)
    ensures AllNumeric(ReadPrices(info))
  {
    if |info| > 0 {
      assert DigitPrices(info[1..]) by {
        forall i | 0 <= i < |info[1..]| ensures info[1..][i] == info[i + 1] { }
      }
      ReadPricesNumeric(info[1..]);
      var r := ReadPrices(info);
      forall i | 0 <= i < |r| ensures r[i].1.Num? {
        if i > 0 {
          assert r[i] == ReadPrices(info[1..])[i - 1];
        }
      }
    }
  }

  /** Reading the prices leaves every field's truthiness and rate alone. */
  lemma {:induction false} ReadPricesField(info: TicketInfo, key: string)
    requires DigitPrices(info)
    ensures TicketField(ReadPrices(info), key).Some? == TicketField(info, key).Some?
    ensures TicketField(info, key).Some? ==> TicketField(ReadPrices(info), key).value == ReadPrice(TicketField(info, key).value)
    ensures Truthy(TicketField(ReadPrices(info), key)) == Truthy(TicketField(info, key))
    ensures Truthy(TicketField(info, key)) ==> Rate(TicketField(ReadPrices(info), key).value) == Rate(TicketField(info, key).value)
  {
    if |info| > 0 {
      var r := ReadPrices(info);
      assert r[0] == (info[0].0, ReadPrice(info[0].1));
      assert r[1..] == ReadPrices(info[1..]);
      assert DigitPrices(info[1..]) by {
        forall i | 0 <= i < |info[1..]| ensures info[1..][i] == info[i + 1] { }
      }
      if info[0].0 != key {
        ReadPricesField(info[1..], key);
      }
    }
  }

  /** The cost one mentioned name adds: the first location so named, if
      it has a ticket table; nothing otherwise. */
  function NameCost(locations: seq<Location>, name: string, adults: nat, kids: nat): Option<int> {
    match FindByName(locations, name)
    case Some(l) => if l.ticketInfo.Some? then LocationCost(l.ticketInfo.value, adults, kids) else Some(0)
    case None => Some(0)
  }

  /** The cost of each name for one party. */
  function CostOf(locations: seq<Location>, adults: nat, kids: nat): string -> Option<int> {
    name => NameCost(locations, name, adults, kids)
  }

  /** The sum of `cost` over the first `n` names, `NaN` as soon as one
      term is. */
  function SumCosts(names: seq<string>, n: nat, cost: string -> Option<int>): Option<int>
    requires n <= |names|
  {
    if n == 0 then Some(0)
    else AddNaN(SumCosts(names, n - 1, cost), cost(names[n - 1]))
  }

  /** `totalPrice`: the running sum over the mentioned names. */
  method TotalPrice(section: string, locations: seq<Location>, adults: nat, kids: nat) returns (total: Option<int>)
    ensures var names := MentionedNames(section, locations);
            total == SumCosts(names, |names|, CostOf(locations, adults, kids))
  {
    var names := MentionedNames(section, locations);
    var cost := CostOf(locations, adults, kids);
    total := Some(0);
    for i := 0 to |names|
      invariant total == SumCosts(names, i, cost)
    {
      total := AddNaN(total, NameCost(locations, names[i], adults, kids));
    }
  }

  /** The sum is a number exactly when every term is: one `NaN` spoils it. */
  lemma {:induction false} SumCostsNaN(names: seq<string>, n: nat, cost: string -> Option<int>)
    requires n <= |names|
    ensures SumCosts(names, n, cost).Some? <==> forall j :: 0 <= j < n ==> cost(names[j]).Some?
  {
    if n > 0 {
      SumCostsNaN(names, n - 1, cost);
    }
  }

  /** When no catalog name occurs in the section, no name is collected
      and the estimate is zero. */
  lemma NothingMentionedIsFree(section: string, locations: seq<Location>, adults: nat, kids: nat)
    requires forall i :: 0 <= i < |locations| ==> !Includes(section, locations[i].name)
    ensures MentionedNames(section, locations) == []
    ensures var names := MentionedNames(section, locations);
            SumCosts(names, |names|, CostOf(locations, adults, kids)) == Some(0)
  {
    var p := l => Mentions(section, l);
    assert forall i :: 0 <= i < |locations| ==> !p(locations[i]);
    Collections.FilterNone(locations, p);
  }

  // ---------------------------------------------------------------------
  // The label
  // ---------------------------------------------------------------------

  /** The cost line's value: the amount when the total is a number above
      zero, "Free!" otherwise (including `NaN`). */
  function CostLabel(total: Option<int>): (r: string)
    ensures r == "Free!" <==> !(total.Some? && total.value > 0)
  {
    if total.Some? && total.value > 0 then "~$" + Money.Fixed2(total.value) else "Free!"
  }

  // ---------------------------------------------------------------------
  // The estimate as written
  // ---------------------------------------------------------------------

  /** A value the running cost can hold in JavaScript: a number (in
      cents, `None` for `NaN`) or a string. */
  datatype JsValue = JsNumber(amount: Option<int>) | JsString(text: string)

  /** `String(v)`. */
  function ToText(v: JsValue): string {
    match v
    case JsString(t) => t
    case JsNumber(None) => "NaN"
    case JsNumber(Some(c)) => if c >= 0 then Money.NumberText(c) else "-" + Money.NumberText(-c)
  }

  /** `a + b`: concatenation of the two texts as soon as one side is a string. */
  function Plus(a: JsValue, b: JsValue): JsValue {
    if a.JsNumber? && b.JsNumber? then JsNumber(AddNaN(a.amount, b.amount))
    else JsString(ToText(a) + ToText(b))
  }

  /** A ticket value as the running cost receives it: the `as number`
      casts change nothing at run time, so a text stays a string. */
  function Value(v: TicketValue): JsValue {
    match v
    case Num(c) => JsNumber(Some(c))
    case Text(t) => JsString(t)
  }

  /** `if (ticketInfo[key]) cost += ticketInfo[key] * n`: the product is
      always a number. */
  function AddPerHeadAsWritten(cost: JsValue, info: TicketInfo, key: string, n: nat): JsValue {
    var v := TicketField(info, key);
    if Truthy(v) then Plus(cost, JsNumber(MulNaN(Rate(v.value), n))) else cost
  }

  /** The cost of one location as the code computes it: `cost += park`
      adds a text Park Entry as a string, and every later `+=` then
      concatenates. */
  function LocationCostAsWritten(info: TicketInfo, adults: nat, kids: nat): JsValue {
    var c0 := AddPerHeadAsWritten(JsNumber(Some(0)), info, "Adult", adults);
    var child := ChildValue(info);
    var c1 := if Truthy(child) then Plus(c0, JsNumber(MulNaN(Rate(child.value), kids))) else c0;
    var c2 := AddPerHeadAsWritten(c1, info, "General", adults + kids);
    var c3 := AddPerHeadAsWritten(c2, info, "Admission", adults + kids);
    var park := TicketField(info, "Park Entry");
    var c4 := if Truthy(park) then Plus(c3, Value(park.value)) else c3;
    AddPerHeadAsWritten(c4, info, "Maze", adults + kids)
  }

  /** The table has a non-empty text Park Entry. */
  predicate TextParkEntry(info: TicketInfo) {
    var park := TicketField(info, "Park Entry");
    park.Some? && park.value.Text? && park.value.text != ""
  }

  /** As written, a location's cost becomes a string exactly when its
      Park Entry is a non-empty text; otherwise it is the corrected cost. */
  lemma CostAsWrittenIff(info: TicketInfo, adults: nat, kids: nat)
    ensures LocationCostAsWritten(info, adults, kids).JsString? <==> TextParkEntry(info)
    ensures !TextParkEntry(info) ==> LocationCostAsWritten(info, adults, kids) == JsNumber(LocationCost(info, adults, kids))
  {
    var n := adults + kids;
    var c0 := AddPerHeadAsWritten(JsNumber(Some(0)), info, "Adult", adults);
    var child := ChildValue(info);
    var c1 := if Truthy(child) then Plus(c0, JsNumber(MulNaN(Rate(child.value), kids))) else c0;
    var c2 := AddPerHeadAsWritten(c1, info, "General", n);
    var c3 := AddPerHeadAsWritten(c2, info, "Admission", n);
    assert c3.JsNumber?;
    var park := TicketField(info, "Park Entry");
    if TextParkEntry(info) {
      var c4 := Plus(c3, Value(park.value));
      assert c4.JsString?;
    }
  }

  /** The cost one mentioned name adds as written; `None` when the loop
      skips the name (no such location, or no ticket table). */
  function NameCostAsWritten(locations: seq<Location>, name: string, adults: nat, kids: nat): Option<JsValue> {
    match FindByName(locations, name)
    case Some(l) => if l.ticketInfo.Some? then Some(LocationCostAsWritten(l.ticketInfo.value, adults, kids)) else None
    case None => None
  }

  function CostAsWrittenOf(locations: seq<Location>, adults: nat, kids: nat): string -> Option<JsValue> {
    name => NameCostAsWritten(locations, name, adults, kids)
  }

  /** `totalPrice` as written, over the first `n` names: a skipped name
      adds nothing, any other adds its cost with `+`. */
  function SumCostsAsWritten(names: seq<string>, n: nat, cost: string -> Option<JsValue>): JsValue
    requires n <= |names|
  {
    if n == 0 then JsNumber(Some(0))
    else
      var prev := SumCostsAsWritten(names, n - 1, cost);
      match cost(names[n - 1])
      case None => prev
      case Some(c) => Plus(prev, c)
  }

  predicate IsText(c: Option<JsValue>) {
    c.Some? && c.value.JsString?
  }

  /** The location a name adds, when it has a text Park Entry. */
  predicate GluesText(locations: seq<Location>, name: string) {
    var l := FindByName(locations, name);
    l.Some? && l.value.ticketInfo.Some? && TextParkEntry(l.value.ticketInfo.value)
  }

  /** One name's term as written: a string exactly when its location has a
      text Park Entry; otherwise skipped where the corrected term is 0, or
      the corrected term itself. */
  lemma NameCostAsWrittenFacts(locations: seq<Location>, name: string, adults: nat, kids: nat)
    ensures var c := NameCostAsWritten(locations, name, adults, kids);
            c.Some? && c.value.JsString? <==> GluesText(locations, name)
    ensures var c := NameCostAsWritten(locations, name, adults, kids);
            !GluesText(locations, name) ==>
              (c.None? && NameCost(locations, name, adults, kids) == Some(0))
              || c == Some(JsNumber(NameCost(locations, name, adults, kids)))
  {
    var l := FindByName(locations, name);
    if l.Some? && l.value.ticketInfo.Some? {
      CostAsWrittenIff(l.value.ticketInfo.value, adults, kids);
    }
  }

  /** As written, the total is a string exactly when some term is. */
  lemma {:induction false} SumAsWrittenIsText(names: seq<string>, n: nat, cost: string -> Option<JsValue>)
    requires n <= |names|
    ensures SumCostsAsWritten(names, n, cost).JsString? <==> exists j :: 0 <= j < n && IsText(cost(names[j]))
  {
    if n > 0 {
      SumAsWrittenIsText(names, n - 1, cost);
      assert (exists j :: 0 <= j < n && IsText(cost(names[j]))) <==>
             (exists j :: 0 <= j < n - 1 && IsText(cost(names[j]))) || IsText(cost(names[n - 1]));
    }
  }

  /** Term by term agreement with the corrected costs (a skipped term being
      a corrected 0) gives agreement of the totals. */
  lemma {:induction false} SumAsWrittenMatches(names: seq<string>, n: nat, written: string -> Option<JsValue>, cost: string -> Option<int>)
    requires n <= |names|
    requires forall j :: 0 <= j < n ==>
               (written(names[j]).None? && cost(names[j]) == Some(0)) || written(names[j]) == Some(JsNumber(cost(names[j])))
    ensures SumCostsAsWritten(names, n, written) == JsNumber(SumCosts(names, n, cost))
  {
    if n > 0 {
      SumAsWrittenMatches(names, n - 1, written, cost);
    }
  }

  /** As written, the total over the mentioned names is a string exactly
      when one of their locations has a text Park Entry. */
  lemma TotalAsWrittenIsText(names: seq<string>, locations: seq<Location>, adults: nat, kids: nat)
    ensures SumCostsAsWritten(names, |names|, CostAsWrittenOf(locations, adults, kids)).JsString? <==>
              exists j :: 0 <= j < |names| && GluesText(locations, names[j])
  {
    var written := CostAsWrittenOf(locations, adults, kids);
    forall j | 0 <= j < |names|
      ensures IsText(written(names[j])) <==> GluesText(locations, names[j])
    {
      NameCostAsWrittenFacts(locations, names[j], adults, kids);
    }
    SumAsWrittenIsText(names, |names|, written);
  }

  /** Without a text Park Entry among them, the total as written is the
      corrected total. */
  lemma TotalAsWrittenIsCorrected(names: seq<string>, locations: seq<Location>, adults: nat, kids: nat)
    requires forall j :: 0 <= j < |names| ==> !GluesText(locations, names[j])
    ensures SumCostsAsWritten(names, |names|, CostAsWrittenOf(locations, adults, kids))
              == JsNumber(SumCosts(names, |names|, CostOf(locations, adults, kids)))
  {
    var written := CostAsWrittenOf(locations, adults, kids);
    var cost := CostOf(locations, adults, kids);
    forall j | 0 <= j < |names|
      ensures (written(names[j]).None? && cost(names[j]) == Some(0)) || written(names[j]) == Some(JsNumber(cost(names[j])))
    {
      NameCostAsWrittenFacts(locations, names[j], adults, kids);
    }
    SumAsWrittenMatches(names, |names|, written, cost);
  }

  /** What the cost line shows, or that rendering fails. */
  datatype CostView = Shown(line: string) | Throws

  /** The cost line as written. A number total is labelled as by
      `CostLabel`. A string total is compared with 0 through `Number`; when
      it reads above zero, `toFixed` is called on the string, which has no
      such method, and the view throws. */
  function CostLabelAsWritten(total: JsValue): (v: CostView)
    ensures total.JsNumber? ==> v == Shown(CostLabel(total.amount))
    ensures total.JsString? ==> (v == Throws <==> NumberAboveZero(total.text))
    ensures total.JsString? && v.Shown? ==> v.line == "Free!"
  {
    match total
    case JsNumber(a) => Shown(CostLabel(a))
    case JsString(t) => if NumberAboveZero(t) then Throws else Shown("Free!")
  }

  const ExampleTable: TicketInfo := [("Adult", Num(2500)), ("Park Entry", Text("10"))]
  const ExampleLocation: Location := Location(1, "Splash Pad", 0.0, 0.0, "Parks", "", [], "$", None, Some(ExampleTable))

  /** A one-location example: Adult $25 and Park Entry "10" for one adult.
      As written the cost is the string "2510", the total "02510", and the
      cost line throws; the corrected estimate is $35.00. */
  lemma ParkEntryTextThrows()
    ensures LocationCostAsWritten(ExampleTable, 1, 0) == JsString("2510")
    ensures SumCostsAsWritten(["Splash Pad"], 1, CostAsWrittenOf([ExampleLocation], 1, 0)) == JsString("02510")
    ensures CostLabelAsWritten(SumCostsAsWritten(["Splash Pad"], 1, CostAsWrittenOf([ExampleLocation], 1, 0))) == Throws
    ensures CostLabel(SumCosts(["Splash Pad"], 1, CostOf([ExampleLocation], 1, 0))) == "~$35.00"
  {
    ExampleCostAsWritten();
    ExampleSumAsWritten();
    ExampleTextAboveZero();
    assert CostLabelAsWritten(JsString("02510")) == Throws;
    ExampleCorrected();
  }

  lemma ExampleSumAsWritten()
    ensures SumCostsAsWritten(["Splash Pad"], 1, CostAsWrittenOf([ExampleLocation], 1, 0)) == JsString("02510")
  {
    ExampleCostAsWritten();
    assert Money.NumberText(0) == "0";
    ExampleFound();
    assert NameCostAsWritten([ExampleLocation], "Splash Pad", 1, 0) == Some(JsString("2510"));
  }

  lemma ExampleFields()
    ensures TicketField(ExampleTable, "Adult") == Some(Num(2500))
    ensures TicketField(ExampleTable, "Park Entry") == Some(Text("10"))
    ensures TicketField(ExampleTable, "Child") == None && TicketField(ExampleTable, "Youth") == None
    ensures TicketField(ExampleTable, "General") == None && TicketField(ExampleTable, "Admission") == None
    ensures TicketField(ExampleTable, "Maze") == None
  {
  }

  lemma ExampleCostAsWritten()
    ensures LocationCostAsWritten(ExampleTable, 1, 0) == JsString("2510")
  {
    ExampleFields();
    assert NatToString(25) == "25";
    assert Money.NumberText(2500) == "25";
  }

  lemma ExampleTextAboveZero()
    ensures NumberAboveZero("02510")
  {
    var t := "02510";
    assert t[0] == '0' && t[1] == '2' && t[2] == '5' && t[3] == '1' && t[4] == '0';
    assert AllDigits(t);
    TrimDigits(t);
    assert DecimalText(t);
    assert '1' <= t[2] <= '9';
  }

  lemma ExampleCorrected()
    ensures CostLabel(SumCosts(["Splash Pad"], 1, CostOf([ExampleLocation], 1, 0))) == "~$35.00"
  {
    ExampleSum();
    ExampleLabel();
  }

  lemma ExampleLabel()
    ensures CostLabel(Some(3500)) == "~$35.00"
  {
    ExampleFixed2();
  }

  lemma ExampleSum()
    ensures SumCosts(["Splash Pad"], 1, CostOf([ExampleLocation], 1, 0)) == Some(3500)
  {
    ExampleNameCost();
  }

  lemma ExampleNameCost()
    ensures NameCost([ExampleLocation], "Splash Pad", 1, 0) == Some(3500)
  {
    ExampleFound();
    assert ExampleLocation.ticketInfo == Some(ExampleTable);
    ExampleLocationCost();
  }

  lemma ExampleFound()
    ensures FindByName([ExampleLocation], "Splash Pad") == Some(ExampleLocation)
  {
  }

  lemma ExampleLocationCost()
    ensures LocationCost(ExampleTable, 1, 0) == Some(3500)
  {
    ExampleFields();
    var c0 := AddPerHead(Some(0), ExampleTable, "Adult", 1);
    assert c0 == Some(2500);
    assert ChildValue(ExampleTable) == None;
    assert AddPerHead(c0, ExampleTable, "General", 1) == c0;
    assert AddPerHead(c0, ExampleTable, "Admission", 1) == c0;
    ExampleParkStep();
    assert AddPerHead(Some(3500), ExampleTable, "Maze", 1) == Some(3500);
  }

  lemma ExampleParkStep()
    ensures var park := TicketField(ExampleTable, "Park Entry");
            Truthy(park) && AddNaN(Some(2500), Rate(park.value)) == Some(3500)
  {
    ExampleFields();
    ExampleRate();
  }

  lemma ExampleRate()
    ensures Rate(Text("10")) == Some(1000)
  {
    var t := "10";
    assert t[0] == '1' && t[1] == '0';
    assert AllDigits(t);
    NumberOfDigitRun(t);
    DigitsOfTen(t);
  }

  lemma DigitsOfTen(t: string)
    requires |t| == 2 && t[0] == '1' && t[1] == '0'
    ensures AllDigits(t) && DigitsValue(t) == 10
  {
    assert AllDigits(t);
    var p := t[..1];
    assert |p| == 1 && p[0] == '1' && AllDigits(p);
    assert p[..0] == [] && DigitsValue(p[..0]) == 0;
    assert DigitsValue(p) == 1;
    assert t[..|t| - 1] == p;
  }

  lemma ExampleFixed2()
    ensures Money.Fixed2(3500) == "35.00"
  {
    assert NatToString(35) == "35";
    assert PadTwo(0) == "00";
  }

  // ---------------------------------------------------------------------
  // Meal sentence
  // ---------------------------------------------------------------------

  const NoMealSentence: string := "No specific meal stop is needed."
  const MealLead: string := "Please include a stop for a "
  const MealMiddle: string := " meal with a price range of "

  /** The meal line of the request. */
  function MealPreference(mealType: string, mealPrice: string): (r: string)
    ensures mealType == "none" ==> r == NoMealSentence
    ensures mealType != "none" ==> OccursAt(r, mealType, |MealLead|)
    ensures mealType != "none" ==> OccursAt(r, mealPrice, |MealLead| + |mealType| + |MealMiddle|)
  {
    if mealType == "none" then NoMealSentence
    else
      var r := MealLead + mealType + MealMiddle + mealPrice + ".";
      assert r[|MealLead|..|MealLead| + |mealType|] == mealType;
      assert r[|MealLead| + |mealType| + |MealMiddle|..|MealLead| + |mealType| + |MealMiddle| + |mealPrice|] == mealPrice;
      r
  }

  /** The sentence names both the meal type and the price range. */
  lemma MealPreferenceMentionsBoth(mealType: string, mealPrice: string)
    requires mealType != "none"
    ensures Includes(MealPreference(mealType, mealPrice), mealType)
    ensures Includes(MealPreference(mealType, mealPrice), mealPrice)
  {
    var r := MealPreference(mealType, mealPrice);
    IncludesIff(r, mealType);
    IncludesIff(r, mealPrice);
  }

  /** For a fixed price range, different meal types give different
      sentences. */
  lemma MealPreferenceInjective(a: string, b: string, price: string)
    requires a != "none" && b != "none"
    requires MealPreference(a, price) == MealPreference(b, price)
    ensures a == b
  {
    var r := MealPreference(a, price);
    assert |a| == |b|;
    assert r[|MealLead|..|MealLead| + |a|] == a;
    assert r[|MealLead|..|MealLead| + |b|] == b;
  }
}
