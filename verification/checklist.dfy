/** The activity checklist of a saved itinerary: the items are read off
    the itinerary text line by line, and the i-th item's tick is stored
    under the key "item-i". */
module Checklist {
  import opened Optional
  import opened Text
  import Collections
  import opened SavedItineraries

  /** U+2022, the bullet character. */
  const Bullet: char := '\U{2022}'

  /** Items shorter than this many characters, plus one, are dropped. */
  const MinItemLength: nat := 5

  // ---------------------------------------------------------------------
  // One line
  // ---------------------------------------------------------------------

  /** `/^\d+\./`: a run of decimal digits followed by a full stop. */
  predicate StartsWithNumbering(t: string) {
    var n := DigitPrefixLength(t);
    0 < n < |t| && t[n] == '.'
  }

  /** `startsWith('-') || startsWith('•')`: a one-character marker. */
  predicate StartsWithBullet(t: string) {
    |t| > 0 && (t[0] == '-' || t[0] == Bullet)
  }

  /** The three list markers a checklist line may start with. */
  predicate HasMarker(t: string) {
    StartsWithBullet(t) || StartsWithNumbering(t)
  }

  predicate IsSuffix(r: string, t: string) {
    |r| <= |t| && r == t[|t| - |r|..]
  }

  /** `replace(/^[-•]\s*\/, '')`: a leading dash or bullet and the
      whitespace after it. */
  function StripBullet(t: string): (r: string)
    ensures IsSuffix(r, t)
    ensures StartsWithBullet(t) ==> |r| < |t| && (r == [] || !IsWhitespace(r[0]))
    ensures !StartsWithBullet(t) ==> r == t
  {
    if StartsWithBullet(t) then
      var r := TrimStart(t[1..]);
      assert t[1..][|t| - 1 - |r|..] == t[|t| - |r|..];
      r
    else t
  }

  /** Exactly the marker and the whitespace after it are removed: a dash
      or bullet, then whitespace, then the rest is the rest. */
  lemma StripBulletOf(marker: char, gap: string, rest: string)
    requires marker == '-' || marker == Bullet
    requires AllWhitespace(gap)
    requires |rest| > 0 && !IsWhitespace(rest[0])
    ensures StripBullet([marker] + gap + rest) == rest
  {
    var t := [marker] + gap + rest;
    assert t[1..] == gap + rest;
    TrimStartPadded(gap, rest);
  }

  /** `replace(/^\d+\.\s*\/, '')`: a leading "N." and the whitespace after
      it. */
  function StripNumbering(t: string): (r: string)
    ensures IsSuffix(r, t)
    ensures StartsWithNumbering(t) ==> |r| < |t| && (r == [] || !IsWhitespace(r[0]))
    ensures !StartsWithNumbering(t) ==> r == t
  {
    if StartsWithNumbering(t) then
      var k := DigitPrefixLength(t) + 1;
      var r := TrimStart(t[k..]);
      assert t[k..][|t| - k - |r|..] == t[|t| - |r|..];
      r
    else t
  }

  /** The two strippings, one after the other: "- 2. Picnic" loses both
      the dash and the number. */
  function Clean(t: string): (r: string)
    ensures IsSuffix(r, t)
    ensures HasMarker(t) ==> |r| < |t|
  {
    var b := StripBullet(t);
    var r := StripNumbering(b);
    SuffixOfSuffix(r, b, t);
    r
  }

  lemma SuffixOfSuffix(r: string, b: string, t: string)
    requires IsSuffix(r, b) && IsSuffix(b, t)
    ensures IsSuffix(r, t)
  {
    assert t[|t| - |b|..][|b| - |r|..] == t[|t| - |r|..];
  }

  /** The item a line contributes: its trimmed text must start with a
      marker, and what is left after stripping must be longer than five
      characters. */
  function ItemOf(line: string): (r: Option<string>)
    ensures r.Some? ==> |r.value| > MinItemLength
  {
    var t := Trim(line);
    if !HasMarker(t) then None
    else
      var c := Clean(t);
      if |c| > MinItemLength then Some(c) else None
  }

  /** A line yields an item exactly when its trimmed text has a marker and
      the stripped rest is long enough; the item is that rest. */
  lemma ItemOfIff(line: string)
    ensures ItemOf(line).Some? <==> HasMarker(Trim(line)) && |Clean(Trim(line))| > MinItemLength
    ensures ItemOf(line).Some? ==> ItemOf(line).value == Clean(Trim(line))
  {
  }

  /** Every item is the tail of its trimmed line, with the marker gone. */
  lemma ItemIsTailOfLine(line: string)
    requires ItemOf(line).Some?
    ensures var t, x := Trim(line), ItemOf(line).value;
            |x| > MinItemLength && |x| < |t| && x == t[|t| - |x|..]
  {
    ItemOfIff(line);
  }

  // ---------------------------------------------------------------------
  // The whole text
  // ---------------------------------------------------------------------

  function Lines(content: string): seq<string> {
    SplitOn(content, "\n")
  }

  /** The values `f` picks from the first `n` elements, in order. */
  function PickUpTo<T>(s: seq<T>, f: T -> Option<string>, n: nat): seq<string>
    requires n <= |s|
  {
    if n == 0 then []
    else
      match f(s[n - 1])
      case Some(x) => PickUpTo(s, f, n - 1) + [x]
      case None => PickUpTo(s, f, n - 1)
  }

  /** The items of a text, in line order. */
  function Items(content: string): seq<string> {
    PickUpTo(Lines(content), ItemOf, |Lines(content)|)
  }

  /** One pass over `s`, keeping what `f` picks. When everything `f`
      picks is longer than `m`, so is everything kept. */
  method PickAll<T>(s: seq<T>, f: T -> Option<string>, m: nat) returns (r: seq<string>)
    requires forall x :: f(x).Some? ==> |f(x).value| > m
    ensures r == PickUpTo(s, f, |s|)
    ensures |r| <= |s|
    ensures forall j :: 0 <= j < |r| ==> |r[j]| > m
  {
    r := [];
    for i := 0 to |s|
      invariant r == PickUpTo(s, f, i)
      invariant |r| <= i
      invariant forall j :: 0 <= j < |r| ==> |r[j]| > m
    {
      var picked := f(s[i]);
      if picked.Some? {
        r := r + [picked.value];
      }
    }
  }

  /** `extractChecklistItems`: the items of the text, none longer than its
      lines are many, each longer than five characters. */
  method ExtractChecklistItems(content: string) returns (items: seq<string>)
    ensures items == Items(content)
    ensures |items| <= |Lines(content)|
    ensures forall i :: 0 <= i < |items| ==> |items[i]| > MinItemLength
  {
    items := PickAll(Lines(content), ItemOf, MinItemLength);
  }

  /** The picked values come from distinct elements in increasing order,
      and an element contributes exactly when `f` picks something from it. */
  lemma {:induction false} PickPositions<T>(s: seq<T>, f: T -> Option<string>, n: nat) returns (idx: seq<nat>)
    requires n <= |s|
    ensures |idx| == |PickUpTo(s, f, n)|
    ensures Collections.StrictlyIncreasing(idx)
    ensures forall i :: 0 <= i < |idx| ==> idx[i] < n && f(s[idx[i]]) == Some(PickUpTo(s, f, n)[i])
    ensures forall k :: 0 <= k < n ==> (k in idx <==> f(s[k]).Some?)
  {
    if n == 0 {
      idx := [];
    } else {
      var prev := PickPositions(s, f, n - 1);
      assert n - 1 !in prev;
      if f(s[n - 1]).Some? {
        idx := prev + [n - 1];
      } else {
        idx := prev;
      }
    }
  }

  /** The items come from distinct lines in increasing line order, and a
      line contributes exactly when it yields an item. */
  lemma ItemPositions(content: string) returns (idx: seq<nat>)
    ensures |idx| == |Items(content)|
    ensures Collections.StrictlyIncreasing(idx)
    ensures forall i :: 0 <= i < |idx| ==>
              idx[i] < |Lines(content)| && ItemOf(Lines(content)[idx[i]]) == Some(Items(content)[i])
    ensures forall k :: 0 <= k < |Lines(content)| ==> (k in idx <==> ItemOf(Lines(content)[k]).Some?)
  {
    idx := PickPositions(Lines(content), ItemOf, |Lines(content)|);
  }

  /** A line whose trimmed text is `t`, where `t` starts with a dash or
      bullet followed by whitespace `gap` and then `rest`, yields `rest`
      when `rest` has no numbering and is long enough. */
  lemma BulletItem(pre: string, t: string, gap: string, rest: string, post: string)
    requires AllWhitespace(pre) && AllWhitespace(post) && AllWhitespace(gap)
    requires |t| > 0 && (t[0] == '-' || t[0] == Bullet) && t[1..] == gap + rest
    requires |rest| > 0 && !IsWhitespace(rest[0]) && !IsWhitespace(rest[|rest| - 1]) && !IsDigit(rest[0])
    ensures ItemOf(pre + t + post) == if |rest| > MinItemLength then Some(rest) else None
  {
    TrimPadded(pre, t, post);
    TrimStartPadded(gap, rest);
    assert StripBullet(t) == rest;
    assert !StartsWithNumbering(rest);
    assert Clean(t) == rest;
    ItemOfTrimmed(pre + t + post, t, rest);
  }

  /** A dash item, with the whitespace around the line and after the dash
      removed. */
  lemma DashItemExample()
    ensures ItemOf("  - Visit the museum ") == Some("Visit the museum")
  {
    assert "  - Visit the museum " == "  " + "- Visit the museum" + " ";
    BulletItem("  ", "- Visit the museum", " ", "Visit the museum", " ");
  }

  /** A marked line whose text is five characters or fewer yields nothing. */
  lemma ShortItemExample()
    ensures ItemOf("- Zoo") == None
  {
    assert "- Zoo" == "" + "- Zoo" + "";
    BulletItem("", "- Zoo", " ", "Zoo", "");
  }

  lemma {:induction false} DigitPrefixOf(digits: string, rest: string)
    requires AllDigits(digits)
    requires |rest| > 0 && !IsDigit(rest[0])
    ensures DigitPrefixLength(digits + rest) == |digits|
  {
    if |digits| > 0 {
      assert (digits + rest)[1..] == digits[1..] + rest;
      DigitPrefixOf(digits[1..], rest);
    } else {
      assert digits + rest == rest;
    }
  }

  /** "N." followed by whitespace `gap` and then `rest` strips to `rest`. */
  lemma StripNumberingOf(digits: string, gap: string, rest: string)
    requires |digits| > 0 && AllDigits(digits) && AllWhitespace(gap)
    requires |rest| > 0 && !IsWhitespace(rest[0])
    ensures StripNumbering(digits + "." + gap + rest) == rest
  {
    var u := digits + "." + gap + rest;
    assert u == digits + ("." + gap + rest);
    DigitPrefixOf(digits, "." + gap + rest);
    assert u[|digits| + 1..] == gap + rest;
    TrimStartPadded(gap, rest);
  }

  /** A numbered line keeps the text after its number. */
  lemma NumberedItem(pre: string, digits: string, gap: string, rest: string, post: string)
    requires AllWhitespace(pre) && AllWhitespace(post)
    requires |digits| > 0 && AllDigits(digits) && AllWhitespace(gap)
    requires |rest| > 0 && !IsWhitespace(rest[0]) && !IsWhitespace(rest[|rest| - 1])
    ensures ItemOf(pre + (digits + "." + gap + rest) + post) == if |rest| > MinItemLength then Some(rest) else None
  {
    var t := digits + "." + gap + rest;
    NumberedText(digits, gap, rest);
    TrimPadded(pre, t, post);
    ItemOfTrimmed(pre + t + post, t, rest);
  }

  /** "N." and whitespace before a text: a numbered marker that cleans to
      the text. */
  lemma NumberedText(digits: string, gap: string, rest: string)
    requires |digits| > 0 && AllDigits(digits) && AllWhitespace(gap)
    requires |rest| > 0 && !IsWhitespace(rest[0]) && !IsWhitespace(rest[|rest| - 1])
    ensures var t := digits + "." + gap + rest;
            && !IsWhitespace(t[0]) && !IsWhitespace(t[|t| - 1])
            && HasMarker(t) && Clean(t) == rest
  {
    var tail := "." + gap + rest;
    var t := digits + "." + gap + rest;
    assert t == digits + tail;
    assert t[|t| - 1] == rest[|rest| - 1];
    NumberedMarker(digits, tail);
    StripNumberingOf(digits, gap, rest);
    CleanUnbulleted(t);
  }

  /** Digits and then a full stop: a numbering marker, not a bullet. */
  lemma NumberedMarker(digits: string, tail: string)
    requires |digits| > 0 && AllDigits(digits)
    requires |tail| > 0 && tail[0] == '.'
    ensures var t := digits + tail;
            !IsWhitespace(t[0]) && !StartsWithBullet(t) && StartsWithNumbering(t)
  {
    var t := digits + tail;
    assert t[0] == digits[0];
    DigitPrefixOf(digits, tail);
    assert t[|digits|] == '.';
  }

  /** Without a dash or bullet, cleaning only strips the numbering. */
  lemma CleanUnbulleted(t: string)
    requires !StartsWithBullet(t)
    ensures Clean(t) == StripNumbering(t)
  {
  }

  /** A numbered line behind a dash or bullet keeps the text after both. */
  lemma BulletNumberedItem(marker: char, gap1: string, digits: string, gap2: string, rest: string)
    requires marker == '-' || marker == Bullet
    requires AllWhitespace(gap1) && AllWhitespace(gap2)
    requires |digits| > 0 && AllDigits(digits)
    requires |rest| > 0 && !IsWhitespace(rest[0]) && !IsWhitespace(rest[|rest| - 1])
    ensures ItemOf([marker] + gap1 + (digits + "." + gap2 + rest)) == if |rest| > MinItemLength then Some(rest) else None
  {
    var t := [marker] + gap1 + (digits + "." + gap2 + rest);
    assert t == ([marker] + gap1 + digits + "." + gap2) + rest;
    assert t[|t| - 1] == rest[|rest| - 1];
    assert "" + t + "" == t;
    TrimPadded("", t, "");
    CleanBulletNumbered(marker, gap1, digits, gap2, rest);
    ItemOfTrimmed(t, t, rest);
  }

  /** What a line yields, given its trimmed text and what stripping that
      text leaves. */
  lemma ItemOfTrimmed(line: string, t: string, c: string)
    requires Trim(line) == t && HasMarker(t) && Clean(t) == c
    ensures ItemOf(line) == if |c| > MinItemLength then Some(c) else None
  {
  }

  lemma CleanBulletNumbered(marker: char, gap1: string, digits: string, gap2: string, rest: string)
    requires marker == '-' || marker == Bullet
    requires AllWhitespace(gap1) && AllWhitespace(gap2)
    requires |digits| > 0 && AllDigits(digits)
    requires |rest| > 0 && !IsWhitespace(rest[0])
    ensures Clean([marker] + gap1 + (digits + "." + gap2 + rest)) == rest
  {
    var u := digits + "." + gap2 + rest;
    var t := [marker] + gap1 + u;
    assert t[1..] == gap1 + u;
    assert u[0] == digits[0];
    TrimStartPadded(gap1, u);
    assert StripBullet(t) == u;
    StripNumberingOf(digits, gap2, rest);
  }

  /** A line that starts with neither marker yields nothing. */
  lemma UnmarkedLine(t: string)
    requires |t| > 0 && !IsWhitespace(t[0]) && !IsWhitespace(t[|t| - 1])
    requires t[0] != '-' && t[0] != Bullet && !IsDigit(t[0])
    ensures ItemOf(t) == None
  {
    assert t == "" + t + "";
    TrimPadded("", t, "");
  }

  /** A numbered item loses its number. */
  lemma NumberedItemExample()
    ensures ItemOf("1. Lunch at cafe") == Some("Lunch at cafe")
  {
    assert "1. Lunch at cafe" == "" + ("1" + "." + " " + "Lunch at cafe") + "";
    NumberedItem("", "1", " ", "Lunch at cafe", "");
  }

  /** A dash followed by a number loses both. */
  lemma DashAndNumberExample()
    ensures ItemOf("- 2. Picnic time") == Some("Picnic time")
  {
    assert "- 2. Picnic time" == ['-'] + " " + ("2" + "." + " " + "Picnic time");
    BulletNumberedItem('-', " ", "2", " ", "Picnic time");
  }

  /** A line without a marker yields nothing, however long it is. */
  lemma UnmarkedLineExample()
    ensures ItemOf("Walk around the lake") == None
  {
    UnmarkedLine("Walk around the lake");
  }

  // ---------------------------------------------------------------------
  // Item keys and ticks
  // ---------------------------------------------------------------------

  /** `item-${idx}`: the checklist key of the item at position `i`. */
  function ItemKey(i: nat): string {
    "item-" + NatToString(i)
  }

  /** Different positions have different keys. */
  lemma ItemKeyInjective(i: nat, j: nat)
    requires ItemKey(i) == ItemKey(j)
    ensures i == j
  {
    assert ItemKey(i)[5..] == NatToString(i);
    assert ItemKey(j)[5..] == NatToString(j);
    NatToStringInjective(i, j);
  }

  /** Whether the item at position `i` of an itinerary shows as ticked. */
  predicate ItemChecked(it: SavedItinerary, i: nat) {
    IsChecked(it.checklist, ItemKey(i))
  }

  /** Ticking item `i` of the open itinerary flips that item and no other. */
  lemma ToggleItemFlipsOnlyIt(m: SavedModal, i: nat, j: nat)
    requires m.selected.Some?
    ensures var r := ToggleChecklistItem(m, ItemKey(i));
            && ItemChecked(r.selected.value, i) == !ItemChecked(m.selected.value, i)
            && (j != i ==> ItemChecked(r.selected.value, j) == ItemChecked(m.selected.value, j))
  {
    if j != i && ItemKey(j) == ItemKey(i) {
      ItemKeyInjective(i, j);
    }
  }

  /** A freshly saved itinerary shows every item unticked. */
  lemma SavedStartsUnticked(stored: Option<seq<SavedItinerary>>, id: string, title: string, content: string, savedAt: string, i: nat)
    ensures var r := SaveItinerary(stored, id, title, content, savedAt);
            !ItemChecked(r[|r| - 1], i)
  {
  }
}
