/** JavaScript string primitives used throughout the application, over
    strings as sequences of characters (one per Unicode scalar value, not per
    UTF-16 code unit): `trim`, `toLowerCase`,
    `includes`, `indexOf`, `split`, `join`, `startsWith`, and the decimal
    conversions between numbers and strings. */
module Text {
  import opened Optional

  // ---------------------------------------------------------------------
  // Whitespace and trimming
  // ---------------------------------------------------------------------

  /** The ECMAScript WhiteSpace and LineTerminator code points: what
      `String.prototype.trim` removes and what the regular-expression
      class `\s` matches. */
  predicate IsWhitespace(c: char) {
    || c == '\t' || c == '\n' || c == '\U{000B}' || c == '\U{000C}' || c == '\r'
    || c == ' ' || c == '\U{00A0}' || c == '\U{1680}'
    || ('\U{2000}' <= c <= '\U{200A}')
    || c == '\U{2028}' || c == '\U{2029}' || c == '\U{202F}' || c == '\U{205F}'
    || c == '\U{3000}' || c == '\U{FEFF}'
  }

  predicate AllWhitespace(s: string) {
    forall i :: 0 <= i < |s| ==> IsWhitespace(s[i])
  }

  /** Drops the longest whitespace prefix. */
  function TrimStart(s: string): (r: string)
    ensures |r| <= |s| && r == s[|s| - |r|..]
    ensures AllWhitespace(s[..|s| - |r|])
    ensures r == [] || !IsWhitespace(r[0])
  {
    if |s| > 0 && IsWhitespace(s[0]) then
      var r := TrimStart(s[1..]);
      assert s[..|s| - |r|] == [s[0]] + s[1..][..|s[1..]| - |r|];
      r
    else s
  }

  /** Drops the longest whitespace suffix. */
  function TrimEnd(s: string): (r: string)
    ensures |r| <= |s| && r == s[..|r|]
    ensures AllWhitespace(s[|r|..])
    ensures r == [] || !IsWhitespace(r[|r| - 1])
  {
    if |s| > 0 && IsWhitespace(s[|s| - 1]) then
      var r := TrimEnd(s[..|s| - 1]);
      assert s[|r|..] == s[..|s| - 1][|r|..] + [s[|s| - 1]];
      r
    else s
  }

  /** `s.trim()`: the part of `s` between its leading and trailing whitespace. */
  function Trim(s: string): (r: string)
    ensures |r| <= |s|
    ensures r == [] || (!IsWhitespace(r[0]) && !IsWhitespace(r[|r| - 1]))
    ensures r == [] <==> AllWhitespace(s)
  {
    var t := TrimStart(s);
    var r := TrimEnd(t);
    assert r == [] ==> AllWhitespace(s) by {
      if r == [] {
        assert s == s[..|s| - |t|] + t;
        assert t == t[0..];
      }
    }
    r
  }

  /** Trimming twice is trimming once. */
  lemma TrimIdempotent(s: string)
    ensures Trim(Trim(s)) == Trim(s)
  {
    var t := Trim(s);
    assert TrimStart(t) == t;
    assert TrimEnd(t) == t;
  }

  lemma {:induction false} TrimStartPadded(pre: string, rest: string)
    requires AllWhitespace(pre)
    requires |rest| > 0 && !IsWhitespace(rest[0])
    ensures TrimStart(pre + rest) == rest
  {
    if |pre| > 0 {
      assert (pre + rest)[1..] == pre[1..] + rest;
      TrimStartPadded(pre[1..], rest);
    } else {
      assert pre + rest == rest;
    }
  }

  lemma {:induction false} TrimEndPadded(rest: string, post: string)
    requires AllWhitespace(post)
    requires |rest| > 0 && !IsWhitespace(rest[|rest| - 1])
    ensures TrimEnd(rest + post) == rest
  {
    if |post| > 0 {
      var all := rest + post;
      assert all[..|all| - 1] == rest + post[..|post| - 1];
      TrimEndPadded(rest, post[..|post| - 1]);
    } else {
      assert rest + post == rest;
    }
  }

  /** Trimming removes exactly the whitespace padding around a text that
      neither starts nor ends with whitespace. */
  lemma TrimPadded(pre: string, s: string, post: string)
    requires AllWhitespace(pre) && AllWhitespace(post)
    requires |s| > 0 && !IsWhitespace(s[0]) && !IsWhitespace(s[|s| - 1])
    ensures Trim(pre + s + post) == s
  {
    assert pre + s + post == pre + (s + post);
    TrimStartPadded(pre, s + post);
    TrimEndPadded(s, post);
  }

  // ---------------------------------------------------------------------
  // Case
  // ---------------------------------------------------------------------

  function LowerChar(c: char): char {
    if 'A' <= c <= 'Z' then (c as int + 32) as char else c
  }

  /** `s.toLowerCase()` restricted to the ASCII letters. */
  function Lower(s: string): (r: string)
    ensures |r| == |s|
    ensures forall i :: 0 <= i < |s| ==> r[i] == LowerChar(s[i])
  {
    if |s| == 0 then [] else [LowerChar(s[0])] + Lower(s[1..])
  }

  predicate IsAsciiUpper(c: char) { 'A' <= c <= 'Z' }
  predicate IsAsciiLower(c: char) { 'a' <= c <= 'z' }
  predicate IsDigit(c: char) { '0' <= c <= '9' }
  predicate IsAsciiAlnum(c: char) { IsAsciiUpper(c) || IsAsciiLower(c) || IsDigit(c) }

  // ---------------------------------------------------------------------
  // Prefixes and occurrences
  // ---------------------------------------------------------------------

  predicate StartsWith(s: string, prefix: string) {
    |prefix| <= |s| && s[..|prefix|] == prefix
  }

  /** `sub` occurs in `s` starting at index `i`. */
  predicate OccursAt(s: string, sub: string, i: nat) {
    i + |sub| <= |s| && s[i..i + |sub|] == sub
  }

  /** `s.indexOf(sub, from)`: the first occurrence at or after `from`. */
  function IndexOf(s: string, sub: string, from: nat): (r: Option<nat>)
    requires from <= |s|
    ensures r.Some? ==> from <= r.value && OccursAt(s, sub, r.value)
    ensures r.Some? ==> forall j :: from <= j < r.value ==> !OccursAt(s, sub, j)
    ensures r.None? ==> forall j :: from <= j ==> !OccursAt(s, sub, j)
    decreases |s| - from
  {
    if OccursAt(s, sub, from) then Some(from)
    else if from == |s| then None
    else IndexOf(s, sub, from + 1)
  }

  /** `s.includes(sub)`: some occurrence exists. */
  predicate Includes(s: string, sub: string)
  {
    IndexOf(s, sub, 0).Some?
  }

  /** `includes` agrees with the existence of an occurrence, in both directions. */
  lemma IncludesIff(s: string, sub: string)
    ensures Includes(s, sub) <==> exists i: nat :: OccursAt(s, sub, i)
  {
    if Includes(s, sub) {
      assert OccursAt(s, sub, IndexOf(s, sub, 0).value);
    }
  }

  /** Every string includes the empty string. */
  lemma IncludesEmpty(s: string)
    ensures Includes(s, "")
  {
    assert OccursAt(s, "", 0);
  }

  /** An occurrence inside a prefix is an occurrence in the whole string. */
  lemma OccursInPrefix(s: string, sub: string, k: nat, j: nat)
    requires k <= |s|
    requires OccursAt(s[..k], sub, j)
    ensures OccursAt(s, sub, j)
  {
    assert s[..k][j..j + |sub|] == s[j..j + |sub|];
  }

  /** A one-character string occurs exactly where that character sits. */
  lemma OccursAtChar(s: string, c: char, j: nat)
    ensures OccursAt(s, [c], j) <==> j < |s| && s[j] == c
  {
    if j < |s| {
      assert s[j..j + 1] == [s[j]];
    }
  }

  // ---------------------------------------------------------------------
  // Split and join
  // ---------------------------------------------------------------------

  /** `parts.join(sep)`. */
  function Join(parts: seq<string>, sep: string): string
  {
    if |parts| == 0 then ""
    else if |parts| == 1 then parts[0]
    else parts[0] + sep + Join(parts[1..], sep)
  }

  /** `s.split(sep)` for a non-empty separator: the pieces between
      successive leftmost non-overlapping occurrences of `sep`. Joining
      the pieces back with `sep` gives `s`, no piece contains `sep`, and
      the first piece ends at the leftmost occurrence. */
  function SplitOn(s: string, sep: string): (r: seq<string>)
    requires |sep| > 0
    ensures |r| >= 1
    ensures forall i, j :: 0 <= i < |r| ==> !OccursAt(r[i], sep, j)
    ensures Join(r, sep) == s
    ensures |r| == 1 <==> IndexOf(s, sep, 0).None?
    ensures |r| > 1 ==> IndexOf(s, sep, 0) == Some(|r[0]|)
    decreases |s|
  {
    match IndexOf(s, sep, 0)
    case None => [s]
    case Some(i) =>
      var rest := SplitOn(s[i + |sep|..], sep);
      SplitStep(s, sep, i);
      SplitCons(s[..i], rest, sep);
      [s[..i]] + rest
  }

  /** The text before the leftmost occurrence holds no occurrence, and the
      text is that prefix, the separator and the remainder. */
  lemma SplitStep(s: string, sep: string, i: nat)
    requires |sep| > 0 && IndexOf(s, sep, 0) == Some(i)
    ensures i + |sep| <= |s|
    ensures forall j: nat :: !OccursAt(s[..i], sep, j)
    ensures s == s[..i] + sep + s[i + |sep|..]
  {
    forall j: nat | OccursAt(s[..i], sep, j)
      ensures false
    {
      assert j < i;
      OccursInPrefix(s, sep, i, j);
    }
    CutAround(s, i, i + |sep|);
  }

  lemma CutAround(s: string, i: nat, k: nat)
    requires i <= k <= |s|
    ensures s == s[..i] + s[i..k] + s[k..]
  {
  }

  lemma SplitCons(head: string, rest: seq<string>, sep: string)
    requires |rest| >= 1
    ensures var r := [head] + rest;
            |r| > 1 && r[0] == head && r[1..] == rest && Join(r, sep) == head + sep + Join(rest, sep)
  {
    var r := [head] + rest;
    assert r[1..] == rest;
  }

  /** The first piece ends at the leftmost occurrence, and the rest of the
      pieces are those of the text after it. */
  lemma SplitOnFirst(s: string, sep: string, i: nat)
    requires |sep| > 0 && IndexOf(s, sep, 0) == Some(i)
    ensures i + |sep| <= |s|
    ensures SplitOn(s, sep) == [s[..i]] + SplitOn(s[i + |sep|..], sep)
  {
  }

  /** Every piece but the last ends where the leftmost occurrence of `sep`
      in the text that remains begins. */
  lemma {:induction false} SplitOnLeftmost(s: string, sep: string)
    requires |sep| > 0
    ensures var r := SplitOn(s, sep);
            forall k :: 0 <= k < |r| - 1 ==> IndexOf(Join(r[k..], sep), sep, 0) == Some(|r[k]|)
    decreases |s|
  {
    var r := SplitOn(s, sep);
    if |r| > 1 {
      var i := |r[0]|;
      var rest := s[i + |sep|..];
      SplitOnFirst(s, sep, i);
      SplitOnLeftmost(rest, sep);
      forall k | 0 <= k < |r| - 1
        ensures IndexOf(Join(r[k..], sep), sep, 0) == Some(|r[k]|)
      {
        if k > 0 {
          assert r[k..] == SplitOn(rest, sep)[k - 1..];
        } else {
          assert r[k..] == r;
        }
      }
    }
  }

  /** Splitting on a one-character separator undoes joining, provided no
      part contains the separator. */
  lemma {:induction false} SplitJoinChar(parts: seq<string>, c: char)
    requires |parts| >= 1
    requires forall i, k :: 0 <= i < |parts| && 0 <= k < |parts[i]| ==> parts[i][k] != c
    ensures SplitOn(Join(parts, [c]), [c]) == parts
    decreases |parts|
  {
    var s := Join(parts, [c]);
    var p := parts[0];
    if |parts| == 1 {
      assert s == p;
      forall j ensures !OccursAt(s, [c], j) {
        OccursAtChar(s, c, j);
      }
      assert IndexOf(s, [c], 0).None?;
    } else {
      var rest := Join(parts[1..], [c]);
      assert s == p + [c] + rest;
      OccursAtChar(s, c, |p|);
      forall j: nat | j < |p| ensures !OccursAt(s, [c], j) {
        OccursAtChar(s, c, j);
      }
      assert IndexOf(s, [c], 0) == Some(|p|);
      assert s[..|p|] == p;
      assert s[|p| + 1..] == rest;
      SplitJoinChar(parts[1..], c);
      assert [p] + parts[1..] == parts;
    }
  }

  // ---------------------------------------------------------------------
  // Decimal numerals
  // ---------------------------------------------------------------------

  predicate AllDigits(s: string) {
    forall i :: 0 <= i < |s| ==> IsDigit(s[i])
  }

  function DigitChar(d: nat): (c: char)
    requires d < 10
    ensures IsDigit(c) && c as int - '0' as int == d
  {
    ('0' as int + d) as char
  }

  function DigitValue(c: char): nat
    requires IsDigit(c)
  {
    c as int - '0' as int
  }

  /** The value of a run of decimal digits (0 for the empty run). */
  function DigitsValue(s: string): nat
    requires AllDigits(s)
  {
    if |s| == 0 then 0 else DigitsValue(s[..|s| - 1]) * 10 + DigitValue(s[|s| - 1])
  }

  /** `String(n)` for a natural number. */
  function NatToString(n: nat): (r: string)
    ensures |r| >= 1 && AllDigits(r)
  {
    if n < 10 then [DigitChar(n)] else NatToString(n / 10) + [DigitChar(n % 10)]
  }

  /** Reading back the decimal form of `n` gives `n`. */
  lemma {:induction false} NatToStringRoundTrip(n: nat)
    ensures DigitsValue(NatToString(n)) == n
  {
    var r := NatToString(n);
    if n < 10 {
      assert r[..|r| - 1] == [];
    } else {
      assert r[..|r| - 1] == NatToString(n / 10);
      NatToStringRoundTrip(n / 10);
    }
  }

  /** Distinct numbers have distinct decimal forms. */
  lemma NatToStringInjective(m: nat, n: nat)
    requires NatToString(m) == NatToString(n)
    ensures m == n
  {
    NatToStringRoundTrip(m);
    NatToStringRoundTrip(n);
  }

  /** `Number(s)` for the digit-only inputs this application feeds it:
      surrounding whitespace is ignored, a blank string is 0, a run of
      decimal digits is its value, anything else is `NaN` (`None`). */
  function NumberOf(s: string): (r: Option<nat>)
    ensures r.Some? <==> AllDigits(Trim(s))
  {
    var t := Trim(s);
    if AllDigits(t) then Some(DigitsValue(t)) else None
  }

  /** Digits and at most one decimal point. */
  predicate DecimalText(t: string) {
    && (forall i :: 0 <= i < |t| ==> IsDigit(t[i]) || t[i] == '.')
    && (forall i, j :: 0 <= i < j < |t| && t[i] == '.' ==> t[j] != '.')
  }

  predicate HasNonZeroDigit(t: string) {
    exists i :: 0 <= i < |t| && '1' <= t[i] <= '9'
  }

  /** `Number(s) > 0` for text that trims to digits with at most one
      decimal point: it holds exactly when some digit is not zero. Any
      other text reads as `NaN` here, and `NaN` is not above zero. */
  predicate NumberAboveZero(s: string) {
    var t := Trim(s);
    DecimalText(t) && HasNonZeroDigit(t)
  }

  /** On whole numbers the test agrees with `NumberOf`. */
  lemma NumberAboveZeroOfDigits(s: string)
    requires AllDigits(Trim(s))
    ensures NumberAboveZero(s) <==> NumberOf(s).value > 0
  {
    var t := Trim(s);
    assert DecimalText(t);
    DigitsValuePositive(t);
  }

  /** A run of digits has a positive value iff one of its digits is not zero. */
  lemma {:induction false} DigitsValuePositive(t: string)
    requires AllDigits(t)
    ensures DigitsValue(t) > 0 <==> HasNonZeroDigit(t)
    decreases |t|
  {
    if |t| > 0 {
      var p := t[..|t| - 1];
      assert AllDigits(p);
      DigitsValuePositive(p);
      if HasNonZeroDigit(p) {
        var i :| 0 <= i < |p| && '1' <= p[i] <= '9';
        assert t[i] == p[i];
      }
      if HasNonZeroDigit(t) && t[|t| - 1] == '0' {
        var i :| 0 <= i < |t| && '1' <= t[i] <= '9';
        assert i < |p| && p[i] == t[i];
      }
    }
  }

  /** `parseInt(s, 10)`: leading whitespace, an optional sign, then the
      longest run of decimal digits; `NaN` (`None`) when there is none. */
  function ParseInt(s: string): (r: Option<int>)
  {
    var t := TrimStart(s);
    var neg := |t| > 0 && t[0] == '-';
    var body := if |t| > 0 && (t[0] == '-' || t[0] == '+') then t[1..] else t;
    var n := DigitPrefixLength(body);
    if n == 0 then None
    else
      var v := DigitsValue(body[..n]);
      var x: int := if neg then 0 - v else v;
      Some(x)
  }

  /** Length of the longest all-digit prefix of `s`. */
  function DigitPrefixLength(s: string): (n: nat)
    ensures n <= |s| && AllDigits(s[..n])
    ensures n < |s| ==> !IsDigit(s[n])
  {
    if |s| > 0 && IsDigit(s[0]) then
      var k := DigitPrefixLength(s[1..]);
      assert s[..1 + k] == [s[0]] + s[1..][..k];
      1 + k
    else 0
  }

  /** `parseInt` reads back what `String` wrote for every natural number. */
  lemma ParseIntOfNatToString(n: nat)
    ensures ParseInt(NatToString(n)) == Some(n)
  {
    ParseIntOfDigitRun(NatToString(n));
    NatToStringRoundTrip(n);
  }

  /** `parseInt` reads a run of digits as its value. */
  lemma ParseIntOfDigitRun(s: string)
    requires |s| > 0 && AllDigits(s)
    ensures ParseInt(s) == Some(DigitsValue(s))
  {
    assert IsDigit(s[0]);
    TrimStartNonBlank(s);
    DigitPrefixOfDigits(s);
    assert s[..|s|] == s;
  }

  lemma {:induction false} DigitPrefixOfDigits(s: string)
    requires AllDigits(s)
    ensures DigitPrefixLength(s) == |s|
  {
    if |s| > 0 {
      assert AllDigits(s[1..]);
      DigitPrefixOfDigits(s[1..]);
    }
  }


  /** A run of digits has nothing to trim. */
  lemma TrimDigits(s: string)
    requires AllDigits(s)
    ensures Trim(s) == s
  {
    if |s| > 0 {
      assert IsDigit(s[0]) && IsDigit(s[|s| - 1]);
    }
    TrimStartNonBlank(s);
    TrimEndNonBlank(s);
  }

  lemma TrimStartNonBlank(s: string)
    requires |s| == 0 || !IsWhitespace(s[0])
    ensures TrimStart(s) == s
  {
  }

  lemma TrimEndNonBlank(s: string)
    requires |s| == 0 || !IsWhitespace(s[|s| - 1])
    ensures TrimEnd(s) == s
  {
  }

  /** `Number` of a run of digits is its decimal value. */
  lemma NumberOfDigitRun(s: string)
    requires AllDigits(s)
    ensures NumberOf(s) == Some(DigitsValue(s))
  {
    TrimDigits(s);
  }

  /** A leading zero does not change the value of a digit run. */
  lemma {:induction false} LeadingZero(s: string)
    requires AllDigits(s)
    ensures AllDigits("0" + s) && DigitsValue("0" + s) == DigitsValue(s)
    decreases |s|
  {
    if |s| > 0 {
      var z := "0" + s;
      assert z[..|z| - 1] == "0" + s[..|s| - 1];
      LeadingZero(s[..|s| - 1]);
    }
  }

  /** `Number` reads back what `String` wrote for every natural number. */
  lemma NumberOfNat(n: nat)
    ensures NumberOf(NatToString(n)) == Some(n)
  {
    TrimDigits(NatToString(n));
    NatToStringRoundTrip(n);
  }

  /** The digits of `m`, with a leading zero when `m` is a single digit
      (minutes, cents). */
  function PadTwo(m: nat): (r: string)
    ensures AllDigits(r) && |r| >= 2
  {
    if m < 10 then "0" + NatToString(m) else NatToString(m)
  }

  /** A padded number reads back as the number. */
  lemma NumberOfPadTwo(m: nat)
    ensures NumberOf(PadTwo(m)) == Some(m)
  {
    var d := NatToString(m);
    if m < 10 {
      LeadingZero(d);
      TrimDigits("0" + d);
      NatToStringRoundTrip(m);
    } else {
      NumberOfNat(m);
    }
  }

  /** Joining two parts with a separator places it between them. */
  lemma JoinTwo(a: string, b: string, sep: string)
    ensures Join([a, b], sep) == a + sep + b
  {
    assert [a, b][1..] == [b];
  }
}
