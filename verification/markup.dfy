/** The itinerary text-to-HTML formatting used in three places (the saved
    itinerary view, the planner results and the single-stop itinerary):
    `**bold**` spans become headings, then every non-blank line becomes one
    fragment, a heading as it is and anything else wrapped in a paragraph.
    The three places differ only in the heading's class list. */
module Markup {
  import opened Optional
  import opened Text
  import Collections

  /** The characters a regular-expression `.` does not match. */
  predicate IsLineTerminator(c: char) {
    c == '\n' || c == '\r' || c == '\U{2028}' || c == '\U{2029}'
  }

  const HeadingClose: string := "</h4>"
  const ParagraphOpen: string := "<p class=\"mb-2\">"
  const ParagraphClose: string := "</p>"

  /** The heading opening tags of the three call sites, one class at a
      time. */
  const SavedHeading: string :=
    "<h4 class=\"" + "text-base " + "font-bold " + "text-indigo-600 " + "dark:text-indigo-400 " + "mt-4 mb-2" + "\">"
  const PlannerHeading: string :=
    "<h4 class=\"" + "text-lg " + "font-bold " + "text-indigo-600 " + "dark:text-indigo-400 " + "my-3" + "\">"
  const ModalHeading: string :=
    "<h4 class=\"" + "text-base " + "font-bold " + "text-teal-600 " + "dark:text-teal-400 " + "mt-4 mb-2" + "\">"

  // ---------------------------------------------------------------------
  // Bold spans
  // ---------------------------------------------------------------------

  /** For a span opened by "**" at the start of `s`, where the lazy group
      `(.*?)` stops when tried from position `j`: at the first "**" from
      `j` on, unless a line terminator comes first. */
  function BoldEnd(s: string, j: nat): (r: Option<nat>)
    ensures r.Some? ==> j <= r.value && OccursAt(s, "**", r.value)
    ensures r.Some? ==> forall k :: j <= k < r.value ==> !IsLineTerminator(s[k]) && !OccursAt(s, "**", k)
    decreases |s| - j
  {
    if j + 2 > |s| then None
    else if s[j] == '*' && s[j + 1] == '*' then
      assert s[j..j + 2] == "**";
      Some(j)
    else if IsLineTerminator(s[j]) then None
    else
      StarPair(s, j);
      BoldEnd(s, j + 1)
  }

  /** `s.replace(/\*\*(.*?)\*\*\/g, open + '$1' + '</h4>')`: scanning left to
      right, each "**...**" span within one line becomes a heading around
      its inner text; the scan resumes after the closing "**". */
  function ReplaceBold(s: string, open: string): string
    decreases |s|
  {
    if |s| == 0 then ""
    else if |s| >= 2 && s[0] == '*' && s[1] == '*' && BoldEnd(s, 2).Some? then
      var j := BoldEnd(s, 2).value;
      open + s[2..j] + HeadingClose + ReplaceBold(s[j + 2..], open)
    else [s[0]] + ReplaceBold(s[1..], open)
  }

  /** "**" occurs at `k` exactly when two asterisks sit there. */
  lemma StarPair(s: string, k: nat)
    ensures OccursAt(s, "**", k) <==> k + 2 <= |s| && s[k] == '*' && s[k + 1] == '*'
  {
    if k + 2 <= |s| && s[k] == '*' && s[k + 1] == '*' {
      assert s[k..k + 2] == "**";
    }
  }

  /** Text without "**" is left alone. */
  lemma {:induction false} ReplaceBoldNoMarker(s: string, open: string)
    requires forall k :: !OccursAt(s, "**", k)
    ensures ReplaceBold(s, open) == s
    decreases |s|
  {
    if |s| > 0 {
      StarPair(s, 0);
      forall k: nat ensures !OccursAt(s[1..], "**", k) {
        StarPair(s[1..], k);
        StarPair(s, k + 1);
      }
      ReplaceBoldNoMarker(s[1..], open);
      assert s == [s[0]] + s[1..];
    }
  }

  lemma {:induction false} BoldEndAt(s: string, j: nat, e: nat)
    requires j <= e && e + 2 <= |s| && s[e] == '*' && s[e + 1] == '*'
    requires forall k :: j <= k < e ==> s[k] != '*' && !IsLineTerminator(s[k])
    ensures BoldEnd(s, j) == Some(e)
    decreases e - j
  {
    if j < e {
      BoldEndAt(s, j + 1, e);
    }
  }

  /** A span whose inner text stays on one line and has no '*' becomes a
      heading around exactly that text. */
  lemma BoldSpan(inner: string, rest: string, open: string)
    requires forall k :: 0 <= k < |inner| ==> inner[k] != '*' && !IsLineTerminator(inner[k])
    ensures ReplaceBold("**" + inner + "**" + rest, open) == open + inner + HeadingClose + ReplaceBold(rest, open)
  {
    var s := "**" + inner + "**" + rest;
    var e := 2 + |inner|;
    forall k | 2 <= k < e ensures s[k] != '*' && !IsLineTerminator(s[k]) {
      assert s[k] == inner[k - 2];
    }
    BoldEndAt(s, 2, e);
    assert s[2..e] == inner;
    assert s[e + 2..] == rest;
  }

  function CountChar(s: string, c: char): nat {
    if |s| == 0 then 0 else (if s[0] == c then 1 else 0) + CountChar(s[1..], c)
  }

  lemma {:induction false} CountCharAppend(a: string, b: string, c: char)
    ensures CountChar(a + b, c) == CountChar(a, c) + CountChar(b, c)
  {
    if |a| > 0 {
      assert (a + b)[1..] == a[1..] + b;
      CountCharAppend(a[1..], b, c);
    } else {
      assert a + b == b;
    }
  }

  lemma {:induction false} CountCharNone(s: string, c: char)
    requires forall k :: 0 <= k < |s| ==> s[k] != c
    ensures CountChar(s, c) == 0
  {
    if |s| > 0 {
      CountCharNone(s[1..], c);
    }
  }

  /** A bold replacement never adds or removes a line break, so the text
      has as many lines after it as before. */
  lemma {:induction false} ReplaceBoldKeepsLineBreaks(s: string, open: string)
    requires '\n' !in open
    ensures CountChar(ReplaceBold(s, open), '\n') == CountChar(s, '\n')
    decreases |s|
  {
    if |s| == 0 {
    } else if |s| >= 2 && s[0] == '*' && s[1] == '*' && BoldEnd(s, 2).Some? {
      var j := BoldEnd(s, 2).value;
      ReplaceBoldKeepsLineBreaks(s[j + 2..], open);
      BoldSpanLineBreaks(s, j, open, ReplaceBold(s[j + 2..], open));
    } else {
      ReplaceBoldKeepsLineBreaks(s[1..], open);
      CountCharAppend([s[0]], ReplaceBold(s[1..], open), '\n');
      assert s == [s[0]] + s[1..];
      CountCharAppend([s[0]], s[1..], '\n');
    }
  }

  /** The line breaks around one replaced span: none inside the span or
      the tags, so the count is the count of what follows. */
  lemma BoldSpanLineBreaks(s: string, j: nat, open: string, rest: string)
    requires '\n' !in open
    requires 2 <= j && j + 2 <= |s| && s[..2] == "**" && s[j..j + 2] == "**"
    requires forall k :: 2 <= k < j ==> !IsLineTerminator(s[k])
    ensures CountChar(open + s[2..j] + HeadingClose + rest, '\n') == CountChar(rest, '\n')
    ensures CountChar(s, '\n') == CountChar(s[j + 2..], '\n')
  {
    var inner := s[2..j];
    var tail := s[j + 2..];
    forall k | 0 <= k < |inner| ensures inner[k] != '\n' {
      assert !IsLineTerminator(s[k + 2]);
    }
    CountCharNone(inner, '\n');
    CountCharNone(open, '\n');
    CountCharNone(HeadingClose, '\n');
    CountCharNone(s[..2], '\n');
    CountCharNone(s[j..j + 2], '\n');
    CountCharAppend(open, inner, '\n');
    CountCharAppend(open + inner, HeadingClose, '\n');
    CountCharAppend(open + inner + HeadingClose, rest, '\n');
    assert s == s[..2] + inner + s[j..j + 2] + tail;
    CountCharAppend(s[..2], inner, '\n');
    CountCharAppend(s[..2] + inner, s[j..j + 2], '\n');
    CountCharAppend(s[..2] + inner + s[j..j + 2], tail, '\n');
  }

  /** Splitting on a character gives one piece more than there are
      occurrences of it. */
  lemma {:induction false} SplitCount(s: string, c: char)
    ensures |SplitOn(s, [c])| == CountChar(s, c) + 1
    decreases |s|
  {
    match IndexOf(s, [c], 0)
    case None =>
      forall k | 0 <= k < |s| ensures s[k] != c {
        OccursAtChar(s, c, k);
      }
      CountCharNone(s, c);
    case Some(i) =>
      var head := s[..i];
      var tail := s[i + 1..];
      OccursAtChar(s, c, i);
      forall k | 0 <= k < |head| ensures head[k] != c {
        OccursAtChar(s, c, k);
      }
      CountCharNone(head, c);
      SplitCount(tail, c);
      SplitOnFirst(s, [c], i);
      assert s == head + [c] + tail;
      CountCharAppend(head, [c], c);
      CountCharAppend(head + [c], tail, c);
  }

  // ---------------------------------------------------------------------
  // Lines to fragments
  // ---------------------------------------------------------------------

  /** A heading line is kept as it is; any other line becomes a paragraph. */
  function Wrap(line: string): string {
    if StartsWith(line, "<h4") then line else ParagraphOpen + line + ParagraphClose
  }

  /** Recovers the line a fragment was made from. */
  function Unwrap(frag: string): string {
    if StartsWith(frag, "<h4") then frag
    else if |frag| >= |ParagraphOpen| + |ParagraphClose| then frag[|ParagraphOpen|..|frag| - |ParagraphClose|]
    else frag
  }

  lemma UnwrapWrap(line: string)
    ensures Unwrap(Wrap(line)) == line
  {
    if !StartsWith(line, "<h4") {
      var w := ParagraphOpen + line + ParagraphClose;
      assert w[..3] == "<p ";
      assert w[|ParagraphOpen|..|w| - |ParagraphClose|] == line;
    }
  }

  function Lines(text: string): seq<string> {
    SplitOn(text, "\n")
  }

  function TrimmedLines(text: string): (r: seq<string>)
    ensures |r| == |Lines(text)|
    ensures forall i :: 0 <= i < |r| ==> r[i] == Trim(Lines(text)[i])
  {
    var lines := Lines(text);
    seq(|lines|, i requires 0 <= i < |lines| => Trim(lines[i]))
  }

  /** The fragments of an already bold-replaced text: the trimmed
      non-blank lines, each wrapped. */
  function Fragments(text: string): (r: seq<string>)
  {
    var kept := Collections.Filter(TrimmedLines(text), (l: string) => l != "");
    seq(|kept|, i requires 0 <= i < |kept| => Wrap(kept[i]))
  }

  /** The formatting pipeline with a given heading tag. */
  function FormatLines(content: string, open: string): string {
    Join(Fragments(ReplaceBold(content, open)), "")
  }

  /** `formatContent` of the saved-itinerary view. */
  function FormatContent(content: string): string {
    FormatLines(content, SavedHeading)
  }

  /** `formattedBody` of the planner results. */
  function FormattedBody(body: string): string {
    FormatLines(body, PlannerHeading)
  }

  /** `ItineraryContent` of the single-stop view. */
  function ItineraryContent(html: string): string {
    FormatLines(html, ModalHeading)
  }

  /** Exactly one fragment per non-blank line, in line order: fragment i
      unwraps to the trimmed text of the i-th non-blank line. */
  lemma FragmentsPerLine(text: string) returns (idx: seq<nat>)
    ensures |idx| == |Fragments(text)|
    ensures Collections.StrictlyIncreasing(idx)
    ensures forall i :: 0 <= i < |idx| ==>
              idx[i] < |Lines(text)| && Unwrap(Fragments(text)[i]) == Trim(Lines(text)[idx[i]])
              && Trim(Lines(text)[idx[i]]) != ""
    ensures forall k :: 0 <= k < |Lines(text)| ==> (k in idx <==> Trim(Lines(text)[k]) != "")
  {
    var t := TrimmedLines(text);
    var p := (l: string) => l != "";
    var kept := Collections.Filter(t, p);
    idx := Collections.FilterIsKeptSubsequence(t, p);
    forall i | 0 <= i < |idx|
      ensures Unwrap(Fragments(text)[i]) == Trim(Lines(text)[idx[i]])
    {
      UnwrapWrap(kept[i]);
    }
  }

  /** The bold replacement leaves the text with as many lines as it had. */
  lemma FormattingKeepsLineCount(content: string, open: string)
    requires '\n' !in open
    ensures |Lines(ReplaceBold(content, open))| == |Lines(content)|
  {
    ReplaceBoldKeepsLineBreaks(content, open);
    SplitCount(content, '\n');
    SplitCount(ReplaceBold(content, open), '\n');
  }

  /** The three heading tags are single-line, so none of the three
      formatters changes the number of lines. */
  lemma HeadingTagsSingleLine(content: string)
    ensures '\n' !in SavedHeading && '\n' !in PlannerHeading && '\n' !in ModalHeading
    ensures |Lines(ReplaceBold(content, SavedHeading))| == |Lines(content)|
    ensures |Lines(ReplaceBold(content, PlannerHeading))| == |Lines(content)|
    ensures |Lines(ReplaceBold(content, ModalHeading))| == |Lines(content)|
  {
    FormattingKeepsLineCount(content, SavedHeading);
    FormattingKeepsLineCount(content, PlannerHeading);
    FormattingKeepsLineCount(content, ModalHeading);
  }
}
