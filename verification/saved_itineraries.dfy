/** The saved-itinerary store behind "My Itineraries": the persisted list,
    the open itinerary, and the three edits made to them (save from the
    planner, delete, checklist tick), plus the file name an export gets. */
module SavedItineraries {
  import opened Optional
  import opened Text
  import Collections

  /** One saved plan. `checklist` maps an item key to its tick; a key that
      was never ticked is simply absent. */
  datatype SavedItinerary = SavedItinerary(
    id: string,
    title: string,
    content: string,
    savedAt: string,
    checklist: map<string, bool>
  )

  /** The modal's state: the list as loaded and the itinerary being viewed. */
  datatype SavedModal = SavedModal(saved: seq<SavedItinerary>, selected: Option<SavedItinerary>)

  /** `checklist[key] || false`: an absent key reads as unticked. */
  predicate IsChecked(checklist: map<string, bool>, key: string) {
    key in checklist && checklist[key]
  }

  /** The list read back from storage: the stored list if there is one,
      otherwise empty. */
  function Existing(stored: Option<seq<SavedItinerary>>): seq<SavedItinerary> {
    stored.GetOr([])
  }

  // ---------------------------------------------------------------------
  // Save (from the planner)
  // ---------------------------------------------------------------------

  /** `saveItinerary`: the stored list with one new entry at the end, under
      the given id (the current time in milliseconds, as text) and save
      time, with nothing ticked yet. */
  function SaveItinerary(stored: Option<seq<SavedItinerary>>, id: string, title: string, content: string, savedAt: string)
    : (r: seq<SavedItinerary>)
    ensures |r| == |Existing(stored)| + 1
    ensures r[..|r| - 1] == Existing(stored)
    ensures r[|r| - 1].title == title && r[|r| - 1].content == content
    ensures r[|r| - 1].id == id && r[|r| - 1].checklist == map[]
  {
    Existing(stored) + [SavedItinerary(id, title, content, savedAt, map[])]
  }

  // ---------------------------------------------------------------------
  // Delete
  // ---------------------------------------------------------------------

  /** `deleteItinerary`: every entry with that id goes; the open itinerary
      is closed when it is the one deleted. */
  function DeleteItinerary(m: SavedModal, id: string): (r: SavedModal)
    ensures forall i :: 0 <= i < |r.saved| ==> r.saved[i].id != id
    ensures |r.saved| <= |m.saved|
    ensures r.selected.None? <==> m.selected.None? || m.selected.value.id == id
    ensures r.selected.Some? ==> r.selected == m.selected
  {
    var kept := Collections.Filter(m.saved, (it: SavedItinerary) => it.id != id);
    var sel := if m.selected.Some? && m.selected.value.id == id then None else m.selected;
    SavedModal(kept, sel)
  }

  /** Deleting keeps exactly the entries with other ids, in their order. */
  lemma DeleteKeepsOthersInOrder(m: SavedModal, id: string) returns (idx: seq<nat>)
    ensures |idx| == |DeleteItinerary(m, id).saved|
    ensures Collections.StrictlyIncreasing(idx)
    ensures forall i :: 0 <= i < |idx| ==>
              idx[i] < |m.saved| && DeleteItinerary(m, id).saved[i] == m.saved[idx[i]]
    ensures forall k :: 0 <= k < |m.saved| ==> (k in idx <==> m.saved[k].id != id)
  {
    idx := Collections.FilterIsKeptSubsequence(m.saved, (it: SavedItinerary) => it.id != id);
  }

  /** Deleting an id that is not stored changes nothing in the list. */
  lemma DeleteAbsentId(m: SavedModal, id: string)
    requires forall i :: 0 <= i < |m.saved| ==> m.saved[i].id != id
    ensures DeleteItinerary(m, id).saved == m.saved
  {
    Collections.FilterKeepsAll(m.saved, (it: SavedItinerary) => it.id != id);
  }

  /** Saving under a fresh id and then deleting that id gives back the
      stored list. */
  lemma DeleteUndoesSave(stored: Option<seq<SavedItinerary>>, id: string, title: string, content: string, savedAt: string)
    requires forall i :: 0 <= i < |Existing(stored)| ==> Existing(stored)[i].id != id
    ensures DeleteItinerary(SavedModal(SaveItinerary(stored, id, title, content, savedAt), None), id).saved
            == Existing(stored)
  {
    var e := Existing(stored);
    var s := SaveItinerary(stored, id, title, content, savedAt);
    var p := (it: SavedItinerary) => it.id != id;
    FilterAppendRejected(e, s[|s| - 1], p);
    assert s == e + [s[|s| - 1]];
    Collections.FilterKeepsAll(e, p);
  }

  /** Filtering a sequence with one rejected element at the end is
      filtering the rest. */
  lemma {:induction false} FilterAppendRejected<T>(s: seq<T>, x: T, p: T -> bool)
    requires !p(x)
    ensures Collections.Filter(s + [x], p) == Collections.Filter(s, p)
  {
    if |s| == 0 {
      assert [x][1..] == [];
    } else {
      assert (s + [x])[1..] == s[1..] + [x];
      FilterAppendRejected(s[1..], x, p);
    }
  }

  // ---------------------------------------------------------------------
  // Checklist tick
  // ---------------------------------------------------------------------

  /** `toggleChecklistItem`: with an itinerary open, flip the tick under
      `key` (absent counting as unticked) and write the updated itinerary
      over every stored entry with its id. With nothing open, nothing
      happens. */
  function ToggleChecklistItem(m: SavedModal, key: string): (r: SavedModal)
    ensures m.selected.None? ==> r == m
    ensures m.selected.Some? ==> r.selected.Some?
    ensures m.selected.Some? ==>
              IsChecked(r.selected.value.checklist, key) == !IsChecked(m.selected.value.checklist, key)
    ensures m.selected.Some? ==>
              forall k :: k != key ==>
                (k in r.selected.value.checklist <==> k in m.selected.value.checklist) &&
                (k in m.selected.value.checklist ==> r.selected.value.checklist[k] == m.selected.value.checklist[k])
    ensures m.selected.Some? ==>
              r.selected.value.(checklist := m.selected.value.checklist) == m.selected.value
    ensures |r.saved| == |m.saved|
    ensures m.selected.Some? ==> forall i :: 0 <= i < |m.saved| ==>
              r.saved[i] == (if m.saved[i].id == m.selected.value.id then r.selected.value else m.saved[i])
  {
    if m.selected.None? then m
    else
      var it := m.selected.value;
      var updated := it.(checklist := it.checklist[key := !IsChecked(it.checklist, key)]);
      var all := seq(|m.saved|, i requires 0 <= i < |m.saved| =>
                   if m.saved[i].id == updated.id then updated else m.saved[i]);
      SavedModal(all, Some(updated))
  }

  /** Two ticks of the same item restore every tick of the open
      itinerary, and leave the stored entries with other ids alone. */
  lemma ToggleTwice(m: SavedModal, key: string)
    requires m.selected.Some?
    ensures var r := ToggleChecklistItem(ToggleChecklistItem(m, key), key);
            && r.selected.Some?
            && (forall k :: IsChecked(r.selected.value.checklist, k) == IsChecked(m.selected.value.checklist, k))
            && (forall i :: 0 <= i < |m.saved| && m.saved[i].id != m.selected.value.id ==> r.saved[i] == m.saved[i])
  {
    var once := ToggleChecklistItem(m, key);
    var r := ToggleChecklistItem(once, key);
    forall k ensures IsChecked(r.selected.value.checklist, k) == IsChecked(m.selected.value.checklist, k) {
      if k != key {
        assert IsChecked(once.selected.value.checklist, k) == IsChecked(m.selected.value.checklist, k);
      }
    }
  }

  // ---------------------------------------------------------------------
  // Export file name
  // ---------------------------------------------------------------------

  /** One title character of the export name: letters and digits
      lowercased, everything else '_'. */
  function FileNameChar(c: char): (d: char)
    ensures IsAsciiLower(d) || IsDigit(d) || d == '_'
    ensures IsAsciiAlnum(c) ==> d == LowerChar(c)
  {
    if IsAsciiAlnum(c) then LowerChar(c) else '_'
  }

  predicate IsFileNameStem(s: string) {
    forall i :: 0 <= i < |s| ==> IsAsciiLower(s[i]) || IsDigit(s[i]) || s[i] == '_'
  }

  /** `title.replace(/[^a-z0-9]/gi, '_').toLowerCase() + '.jpg'`. After the
      replacement only ASCII letters, digits and '_' remain, so lowering
      only ASCII letters is exact. */
  function ExportFileName(title: string): (r: string)
    ensures |r| == |title| + 4
    ensures r[|title|..] == ".jpg"
    ensures IsFileNameStem(r[..|title|])
    ensures forall i :: 0 <= i < |title| ==> (r[i] == '_' <==> !IsAsciiAlnum(title[i]))
    ensures forall i :: 0 <= i < |title| && IsAsciiAlnum(title[i]) ==> r[i] == LowerChar(title[i])
  {
    seq(|title|, i requires 0 <= i < |title| => FileNameChar(title[i])) + ".jpg"
  }

  /** A title that is already a stem keeps its characters. */
  lemma ExportFileNameStemFixed(stem: string)
    requires IsFileNameStem(stem)
    ensures ExportFileName(stem) == stem + ".jpg"
  {
    var r := ExportFileName(stem);
    forall i | 0 <= i < |stem| ensures r[i] == stem[i] {
      assert FileNameChar(stem[i]) == stem[i];
    }
  }

  /** Sanitising the sanitised stem again changes nothing. */
  lemma ExportFileNameIdempotent(title: string)
    ensures var r := ExportFileName(title);
            ExportFileName(r[..|title|]) == r
  {
    var r := ExportFileName(title);
    ExportFileNameStemFixed(r[..|title|]);
  }

  /** Letter case in the title makes no difference to the name. */
  lemma ExportFileNameIgnoresCase(title: string)
    ensures ExportFileName(Lower(title)) == ExportFileName(title)
  {
    var a, b := ExportFileName(Lower(title)), ExportFileName(title);
    forall i | 0 <= i < |title| ensures a[i] == b[i] {
      var c := title[i];
      assert Lower(title)[i] == LowerChar(c);
      assert IsAsciiAlnum(LowerChar(c)) == IsAsciiAlnum(c);
      assert LowerChar(LowerChar(c)) == LowerChar(c);
    }
  }
}
