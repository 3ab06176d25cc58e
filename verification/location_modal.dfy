/** The location detail view: the ticket line built from a location's
    price table, and the colour classes of its price badge. */
module LocationModal {
  import opened Optional
  import opened Text
  import opened Types
  import Collections
  import Money
  import FilterPanel

  // ---------------------------------------------------------------------
  // Ticket line
  // ---------------------------------------------------------------------

  const NoteKey: string := "note"
  const Separator: string := " &nbsp;•&nbsp; "
  const LabelOpen: string := "<b class=\"capitalize\">"
  const LabelClose: string := ":</b> "
  const NoteOpen: string := " <span class=\"text-gray-500 " + "dark:text-gray-400 text-sm\">("
  const NoteClose: string := ")</span>"

  /** A price as a template literal shows it. */
  function ValueText(v: TicketValue): string {
    match v
    case Num(c) => Money.NumberText(c)
    case Text(t) => t
  }

  /** One price: the key in bold, then the value, numbers with a dollar
      sign in front. */
  function EntryText(key: string, v: TicketValue): (r: string)
    ensures StartsWith(r, LabelOpen + key + LabelClose)
    ensures v.Text? ==> r == LabelOpen + key + LabelClose + v.text
    ensures v.Num? ==> r == LabelOpen + key + LabelClose + "$" + Money.NumberText(v.cents)
  {
    var r := LabelOpen + key + LabelClose + (if v.Num? then "$" + ValueText(v) else ValueText(v));
    assert r[..|LabelOpen + key + LabelClose|] == LabelOpen + key + LabelClose;
    r
  }

  /** The table without its note, in table order. */
  function PricedEntries(info: TicketInfo): (r: TicketInfo)
    ensures forall i :: 0 <= i < |r| ==> r[i].0 != NoteKey
  {
    Collections.Filter(info, (e: (string, TicketValue)) => e.0 != NoteKey)
  }

  function EntryTexts(entries: TicketInfo): (r: seq<string>)
    ensures |r| == |entries|
  {
    seq(|entries|, i requires 0 <= i < |entries| => EntryText(entries[i].0, entries[i].1))
  }

  /** The note in parentheses, present only when the note is truthy. */
  function NoteSuffix(info: TicketInfo): (r: string)
    ensures Truthy(TicketField(info, NoteKey)) <==> r != ""
  {
    var note := TicketField(info, NoteKey);
    if Truthy(note) then NoteOpen + ValueText(note.value) + NoteClose else ""
  }

  /** `getTicketInfoHTML`'s content: nothing without a price table;
      otherwise the non-note prices joined by a bullet, then the note. */
  function TicketSummary(info: Option<TicketInfo>): (r: Option<string>)
    ensures r.None? <==> info.None?
  {
    if info.None? then None
    else Some(Join(EntryTexts(PricedEntries(info.value)), Separator) + NoteSuffix(info.value))
  }

  /** The priced entries are exactly the non-note rows of the table, in
      order. */
  lemma PricedEntriesInOrder(info: TicketInfo) returns (idx: seq<nat>)
    ensures |idx| == |PricedEntries(info)| && Collections.StrictlyIncreasing(idx)
    ensures forall i :: 0 <= i < |idx| ==> idx[i] < |info| && PricedEntries(info)[i] == info[idx[i]]
    ensures forall k :: 0 <= k < |info| ==> (k in idx <==> info[k].0 != NoteKey)
  {
    idx := Collections.FilterIsKeptSubsequence(info, (e: (string, TicketValue)) => e.0 != NoteKey);
  }

  /** A table with a single price and no note shows just that price. */
  lemma SinglePriceSummary(key: string, v: TicketValue)
    requires key != NoteKey
    ensures TicketSummary(Some([(key, v)])) == Some(EntryText(key, v))
  {
    var info := [(key, v)];
    assert PricedEntries(info) == info by {
      assert info[1..] == [];
    }
    assert TicketField(info, NoteKey) == None;
    assert NoteSuffix(info) == "";
    var texts := EntryTexts(PricedEntries(info));
    assert texts == [EntryText(key, v)];
    assert Join(texts, Separator) + "" == EntryText(key, v);
  }

  /** A table holding only a note shows no prices, only the note. */
  lemma NoteOnlySummary(note: TicketValue)
    ensures TicketSummary(Some([(NoteKey, note)])) == Some(NoteSuffix([(NoteKey, note)]))
    ensures Truthy(Some(note)) ==> NoteSuffix([(NoteKey, note)]) == NoteOpen + ValueText(note) + NoteClose
  {
    var info := [(NoteKey, note)];
    assert PricedEntries(info) == [] by {
      assert info[1..] == [];
    }
    assert "" + NoteSuffix(info) == NoteSuffix(info);
  }

  /** Two tables with the same non-note rows and the same note give the
      same line. */
  lemma SummaryDependsOnRowsAndNote(a: TicketInfo, b: TicketInfo)
    requires PricedEntries(a) == PricedEntries(b)
    requires TicketField(a, NoteKey) == TicketField(b, NoteKey)
    ensures TicketSummary(Some(a)) == TicketSummary(Some(b))
  {
  }

  // ---------------------------------------------------------------------
  // Price badge
  // ---------------------------------------------------------------------

  const PriceColors: map<string, string> := map[
    "Free" := "bg-green-100 text-green-800",
    "$" := "bg-blue-100 text-blue-800",
    "$$" := "bg-yellow-100 text-yellow-800",
    "$$$" := "bg-red-100 text-red-800"
  ]

  const DarkPriceColors: map<string, string> := map[
    "Free" := "dark:bg-green-900/50 dark:text-green-300",
    "$" := "dark:bg-blue-900/50 dark:text-blue-300",
    "$$" := "dark:bg-yellow-900/50 dark:text-yellow-300",
    "$$$" := "dark:bg-red-900/50 dark:text-red-300"
  ]

  const GrayBadge: string := "bg-gray-100 text-gray-800 " + "dark:bg-gray-600 dark:text-gray-300"

  /** The names every plain object inherits from `Object.prototype`. A
      lookup under one of them finds the inherited member, not `undefined`. */
  const InheritedKeys: set<string> := {
    "constructor", "__defineGetter__", "__defineSetter__", "hasOwnProperty",
    "__lookupGetter__", "__lookupSetter__", "isPrototypeOf", "propertyIsEnumerable",
    "toString", "valueOf", "__proto__", "toLocaleString"
  }

  /** How an inherited member prints inside a template: `__proto__` is the
      prototype itself, `constructor` is `Object`, and every other name is
      a built-in method (printed in the V8 form). */
  function InheritedText(key: string): string {
    if key == "__proto__" then "[object Object]"
    else if key == "constructor" then "function Object() { [native code] }"
    else "function " + key + "() { [native code] }"
  }

  /** A lookup in a string-keyed object, interpolated: an own key prints
      its value, an inherited one the member it finds, and a missing key
      prints as "undefined". */
  function Interpolated(m: map<string, string>, key: string): string {
    if key in m then m[key]
    else if key in InheritedKeys then InheritedText(key)
    else "undefined"
  }

  /** `getPriceColor` as written: the light and dark classes joined by a
      space. The template is never empty, so the gray alternative after
      `||` is never taken. */
  function PriceColorAsWritten(price: string): (r: string)
    ensures price in PriceColors ==> r == PriceColors[price] + " " + DarkPriceColors[price]
    ensures price !in PriceColors && price !in InheritedKeys ==> r == "undefined undefined"
    ensures price in InheritedKeys ==> r == InheritedText(price) + " " + InheritedText(price)
  {
    assert InheritedKeys !! PriceColors.Keys;
    Interpolated(PriceColors, price) + " " + Interpolated(DarkPriceColors, price)
  }

  /** An unknown price gets the class text "undefined undefined", not the
      gray badge. */
  lemma UnknownPriceIsUndefined()
    ensures PriceColorAsWritten("$$$$") == "undefined undefined"
    ensures PriceColorAsWritten("$$$$") != GrayBadge
  {
    assert "$$$$" !in PriceColors;
    assert |"undefined undefined"| != |GrayBadge|;
  }

  /** The evident intent: the two class lists for a known price, the gray
      badge for any other. */
  function PriceColor(price: string): (r: string)
    ensures price in PriceColors ==> r == PriceColorAsWritten(price)
    ensures price !in PriceColors ==> r == GrayBadge
  {
    if price in PriceColors && price in DarkPriceColors then PriceColors[price] + " " + DarkPriceColors[price]
    else GrayBadge
  }

  /** The intended badge never shows "undefined". */
  lemma PriceColorNeverUndefined(price: string)
    ensures PriceColor(price) != "undefined undefined"
  {
    if price !in PriceColors {
      assert |GrayBadge| != |"undefined undefined"|;
    } else {
      assert |PriceColor(price)| != |"undefined undefined"|;
    }
  }

  /** The prices the filter panel offers are exactly the tiers both class
      tables know, so a location carrying a filterable price never shows
      "undefined", and as written it gets the intended badge. */
  lemma FilterablePricesHaveBadges(price: string)
    ensures price in FilterPanel.PriceOptions <==> price in PriceColors
    ensures price in FilterPanel.PriceOptions <==> price in DarkPriceColors
    ensures price in FilterPanel.PriceOptions ==> PriceColorAsWritten(price) == PriceColor(price)
    ensures price in FilterPanel.PriceOptions ==> PriceColorAsWritten(price) != "undefined undefined"
  {
    if price in FilterPanel.PriceOptions {
      PriceColorNeverUndefined(price);
    }
  }
}
