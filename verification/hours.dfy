/** The "open now" test of the location filter: today's entry of a weekly
    hours table is read as "H:MM-H:MM", both times are placed on the
    current calendar day, and a close time earlier than the open time is
    moved to the next day. Every malformed or missing entry reads as
    closed; the evaluator never fails. */
module OpeningHours {
  import opened Optional
  import opened Text
  import opened Types

  const MsPerMinute: nat := 60000
  const MsPerHour: nat := 3600000
  const MsPerDay: nat := 86400000

  /** Milliseconds since local midnight on the current day. */
  type MsOfDay = m: nat | m < 86400000

  /** The current local moment: the weekday and the time of day. */
  datatype Clock = Clock(day: Weekday, ms: MsOfDay)

  /** Opening and closing times, in milliseconds after today's midnight,
      exactly as `setHours(h, m, 0, 0)` places them (an hour past 23
      lands on a later day). */
  datatype Window = Window(open: nat, close: nat)

  function TimeOfDay(h: nat, m: nat): nat {
    h * MsPerHour + m * MsPerMinute
  }

  /** `hours.all || hours[day]`: a non-empty all-days entry wins,
      otherwise the weekday entry (possibly missing or empty). */
  function TodaysEntry(h: Hours, day: Weekday): Option<string> {
    if h.all.Some? && h.all.value != "" then h.all
    else if day in h.days then Some(h.days[day])
    else None
  }

  /** One side of the range: `s.split(':')`, the first two pieces
      through `Number`. A missing minute piece is `undefined`, which
      makes the date invalid, as does a piece that is not a number. */
  function ParseTime(s: string): Option<nat> {
    var parts := SplitOn(s, ":");
    if |parts| < 2 then None
    else
      match (NumberOf(parts[0]), NumberOf(parts[1]))
      case (Some(h), Some(m)) => Some(TimeOfDay(h, m))
      case _ => None
  }

  /** The whole entry: `entry.split('-')`, the first two pieces. With no
      '-' the close side is `undefined` and reading it throws, which the
      evaluator catches. */
  function ParseWindow(entry: string): Option<Window> {
    var halves := SplitOn(entry, "-");
    if |halves| < 2 then None
    else
      match (ParseTime(halves[0]), ParseTime(halves[1]))
      case (Some(o), Some(c)) => Some(Window(o, c))
      case _ => None
  }

  /** Entries that name no time range at all. */
  predicate NoTimes(entry: string) {
    entry == "" || Lower(entry) == "closed" || Lower(entry) == "varies"
  }

  /** `isLocationOpen`: whether `now` falls inside today's window, the
      close end moved to the next day when it precedes the open end.
      Being open always needs a readable time range for today whose
      opening time has passed. */
  function IsLocationOpen(hours: Option<Hours>, now: Clock): (r: bool)
    ensures r ==> hours.Some?
    ensures r ==> var e := TodaysEntry(hours.value, now.day);
                  && e.Some? && !NoTimes(e.value)
                  && ParseWindow(e.value).Some?
                  && ParseWindow(e.value).value.open <= now.ms
  {
    if hours.None? then false
    else
      match TodaysEntry(hours.value, now.day)
      case None => false
      case Some(entry) =>
        if NoTimes(entry) then false
        else
          match ParseWindow(entry)
          case None => false
          case Some(w) => InWindow(w, now.ms)
  }

  /** The window test: the close end moves to the next day when it
      precedes the open end, and both ends count as open. */
  predicate InWindow(w: Window, t: nat) {
    var close := if w.close < w.open then w.close + MsPerDay else w.close;
    w.open <= t <= close
  }

  // ---------------------------------------------------------------------
  // The entry format, and what the evaluator makes of it
  // ---------------------------------------------------------------------

  /** "H:MM": the hour in decimal, the minute with two digits when below 10. */
  function TimeText(h: nat, m: nat): string {
    NatToString(h) + ":" + PadTwo(m)
  }

  /** "H:MM-H:MM". */
  function WindowText(oh: nat, om: nat, ch: nat, cm: nat): string {
    TimeText(oh, om) + "-" + TimeText(ch, cm)
  }

  /** The time parser reads back every "H:MM" text. */
  lemma ParseTimeText(h: nat, m: nat)
    ensures ParseTime(TimeText(h, m)) == Some(TimeOfDay(h, m))
  {
    var hs := NatToString(h);
    var ms := PadTwo(m);
    assert TimeText(h, m) == hs + ":" + ms;
    JoinTwo(hs, ms, ":");
    assert AllDigits(ms);
    SplitJoinChar([hs, ms], ':');
    NumberOfNat(h);
    NumberOfPadTwo(m);
  }

  /** The range parser reads back every "H:MM-H:MM" text. */
  lemma ParseWindowText(oh: nat, om: nat, ch: nat, cm: nat)
    ensures ParseWindow(WindowText(oh, om, ch, cm)) == Some(Window(TimeOfDay(oh, om), TimeOfDay(ch, cm)))
  {
    var a := TimeText(oh, om);
    var b := TimeText(ch, cm);
    JoinTwo(a, b, "-");
    assert forall k :: 0 <= k < |a| ==> a[k] != '-';
    assert forall k :: 0 <= k < |b| ==> b[k] != '-';
    SplitJoinChar([a, b], '-');
    ParseTimeText(oh, om);
    ParseTimeText(ch, cm);
  }

  /** A time range is not one of the "closed"/"varies" words. */
  lemma WindowTextHasTimes(oh: nat, om: nat, ch: nat, cm: nat)
    ensures !NoTimes(WindowText(oh, om, ch, cm))
  {
    var e := WindowText(oh, om, ch, cm);
    assert IsDigit(e[0]);
    assert Lower(e)[0] == e[0];
  }

  /** Same-day range: open from the opening minute through the closing
      minute, both ends included. */
  lemma {:induction false} OpenWithinSameDayRange(h: Hours, now: Clock, oh: nat, om: nat, ch: nat, cm: nat)
    requires TodaysEntry(h, now.day) == Some(WindowText(oh, om, ch, cm))
    requires TimeOfDay(oh, om) <= TimeOfDay(ch, cm)
    ensures IsLocationOpen(Some(h), now) <==> TimeOfDay(oh, om) <= now.ms <= TimeOfDay(ch, cm)
  {
    WindowTextHasTimes(oh, om, ch, cm);
    ParseWindowText(oh, om, ch, cm);
    OpenOnWindow(h, now, WindowText(oh, om, ch, cm), Window(TimeOfDay(oh, om), TimeOfDay(ch, cm)));
  }

  /** Overnight range (closing before opening): the close moves to the
      next day, so the place reads as open from the opening time until
      midnight and closed in the small hours before the closing time. */
  lemma {:induction false} OpenAcrossMidnight(h: Hours, now: Clock, oh: nat, om: nat, ch: nat, cm: nat)
    requires TodaysEntry(h, now.day) == Some(WindowText(oh, om, ch, cm))
    requires TimeOfDay(ch, cm) < TimeOfDay(oh, om)
    ensures IsLocationOpen(Some(h), now) <==> TimeOfDay(oh, om) <= now.ms
    ensures now.ms <= TimeOfDay(ch, cm) ==> !IsLocationOpen(Some(h), now)
  {
    var o := TimeOfDay(oh, om);
    var c := TimeOfDay(ch, cm);
    var e := WindowText(oh, om, ch, cm);
    WindowTextHasTimes(oh, om, ch, cm);
    ParseWindowText(oh, om, ch, cm);
    OpenOnWindow(h, now, e, Window(o, c));
    assert now.ms < c + MsPerDay;
  }

  /** Once today's entry parses, the answer is the window test alone. */
  lemma OpenOnWindow(h: Hours, now: Clock, e: string, w: Window)
    requires TodaysEntry(h, now.day) == Some(e) && !NoTimes(e) && ParseWindow(e) == Some(w)
    ensures IsLocationOpen(Some(h), now) == InWindow(w, now.ms)
  {
  }

  /** "9:00-17:00" for every day: open at 10:00, closed at 18:00; and
      "22:00-2:00": closed at 1:00, open at 23:00. */
  lemma ExampleEntries(day: Weekday)
    ensures IsLocationOpen(Some(Hours(Some(WindowText(9, 0, 17, 0)), map[])), Clock(day, TimeOfDay(10, 0)))
    ensures !IsLocationOpen(Some(Hours(Some(WindowText(9, 0, 17, 0)), map[])), Clock(day, TimeOfDay(18, 0)))
    ensures !IsLocationOpen(Some(Hours(Some(WindowText(22, 0, 2, 0)), map[])), Clock(day, TimeOfDay(1, 0)))
    ensures IsLocationOpen(Some(Hours(Some(WindowText(22, 0, 2, 0)), map[])), Clock(day, TimeOfDay(23, 0)))
  {
    var day9 := Hours(Some(WindowText(9, 0, 17, 0)), map[]);
    var late := Hours(Some(WindowText(22, 0, 2, 0)), map[]);
    assert WindowText(9, 0, 17, 0) != "";
    assert WindowText(22, 0, 2, 0) != "";
    OpenWithinSameDayRange(day9, Clock(day, TimeOfDay(10, 0)), 9, 0, 17, 0);
    OpenWithinSameDayRange(day9, Clock(day, TimeOfDay(18, 0)), 9, 0, 17, 0);
    OpenAcrossMidnight(late, Clock(day, TimeOfDay(1, 0)), 22, 0, 2, 0);
    OpenAcrossMidnight(late, Clock(day, TimeOfDay(23, 0)), 22, 0, 2, 0);
  }

  /** With a non-empty all-days entry the weekday makes no difference. */
  lemma AllDaysEntryIgnoresWeekday(h: Hours, d1: Weekday, d2: Weekday, t: MsOfDay)
    requires h.all.Some? && h.all.value != ""
    ensures IsLocationOpen(Some(h), Clock(d1, t)) == IsLocationOpen(Some(h), Clock(d2, t))
  {
    assert TodaysEntry(h, d1) == TodaysEntry(h, d2);
  }

  /** Without a usable all-days entry only today's weekday entry matters:
      the other weekdays' entries can be anything. */
  lemma WeekdayEntryDecides(h: Hours, g: Hours, now: Clock)
    requires h.all.None? || h.all == Some("")
    requires g.all.None? || g.all == Some("")
    requires now.day in h.days && now.day in g.days && h.days[now.day] == g.days[now.day]
    ensures IsLocationOpen(Some(h), now) == IsLocationOpen(Some(g), now)
  {
    assert TodaysEntry(h, now.day) == TodaysEntry(g, now.day);
  }
}
