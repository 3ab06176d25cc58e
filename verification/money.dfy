/** Amounts of money as the pages print them. Amounts are held in whole
    cents; the two printers are JavaScript's `toFixed(2)` and `String` of
    a number. */
module Money {
  import opened Optional
  import opened Text

  /** `toFixed(2)`: whole units, a point, two digits of cents. */
  function Fixed2(cents: nat): (r: string)
    ensures '.' in r
  {
    var r := NatToString(cents / 100) + "." + PadTwo(cents % 100);
    assert r[|NatToString(cents / 100)|] == '.';
    r
  }

  /** Units before the point and cents after it read back as the amount. */
  lemma Fixed2ReadsBack(cents: nat)
    ensures var parts := SplitOn(Fixed2(cents), ".");
            |parts| == 2 && NumberOf(parts[0]) == Some(cents / 100) && NumberOf(parts[1]) == Some(cents % 100)
  {
    SplitAtPoint(NatToString(cents / 100), PadTwo(cents % 100));
    NumberOfNat(cents / 100);
    NumberOfPadTwo(cents % 100);
  }

  /** `String(x)` of an amount: the whole part, then, only when there are
      cents, a point and the cents without a trailing zero. */
  function NumberText(cents: nat): string {
    var w := NatToString(cents / 100);
    var f := cents % 100;
    if f == 0 then w
    else if f % 10 == 0 then w + "." + [DigitChar(f / 10)]
    else w + "." + PadTwo(f)
  }

  /** The printed amount reads back: the whole part, and the fraction (a
      single digit standing for tens of cents); a point appears exactly
      when there are cents, and the fraction never ends in a zero. */
  lemma NumberTextReadsBack(cents: nat)
    ensures var parts := SplitOn(NumberText(cents), ".");
            && |parts| <= 2
            && NumberOf(parts[0]) == Some(cents / 100)
            && (|parts| == 1 <==> cents % 100 == 0)
            && (|parts| == 2 ==> |parts[1]| > 0 && parts[1][|parts[1]| - 1] != '0')
            && (|parts| == 2 ==> NumberOf(if |parts[1]| == 1 then parts[1] + "0" else parts[1]) == Some(cents % 100))
  {
    NumberOfNat(cents / 100);
    var w := NatToString(cents / 100);
    var parts := SplitOn(NumberText(cents), ".");
    var f := cents % 100;
    if f == 0 {
      WholeParts(cents);
      assert parts == [w];
    } else if f % 10 == 0 {
      TensParts(cents);
      var d := [DigitChar(f / 10)];
      assert parts == [w, d] && |parts[1]| == 1;
    } else {
      CentsParts(cents);
      var d := PadTwo(f);
      assert parts == [w, d] && |parts[1]| == 2;
    }
  }

  lemma WholeParts(cents: nat)
    requires cents % 100 == 0
    ensures SplitOn(NumberText(cents), ".") == [NatToString(cents / 100)]
  {
    SplitJoinChar([NatToString(cents / 100)], '.');
  }

  lemma TensParts(cents: nat)
    requires cents % 100 != 0 && cents % 100 % 10 == 0
    ensures var d := [DigitChar(cents % 100 / 10)];
            && SplitOn(NumberText(cents), ".") == [NatToString(cents / 100), d]
            && NumberOf(d + "0") == Some(cents % 100)
            && d[0] != '0'
  {
    var w := NatToString(cents / 100);
    var d := [DigitChar(cents % 100 / 10)];
    assert AllDigits(d);
    SplitAtPoint(w, d);
    assert NumberText(cents) == w + "." + d;
    TensDigit(cents % 100 / 10);
  }

  lemma CentsParts(cents: nat)
    requires cents % 100 % 10 != 0
    ensures var d := PadTwo(cents % 100);
            && SplitOn(NumberText(cents), ".") == [NatToString(cents / 100), d]
            && NumberOf(d) == Some(cents % 100)
            && |d| == 2 && d[1] != '0'
  {
    var w := NatToString(cents / 100);
    var f := cents % 100;
    var d := PadTwo(f);
    SplitAtPoint(w, d);
    assert NumberText(cents) == w + "." + d;
    NumberOfPadTwo(f);
    LastDigit(f);
  }

  /** Two runs of digits joined by a point split back into the two. */
  lemma SplitAtPoint(w: string, d: string)
    requires AllDigits(w) && AllDigits(d)
    ensures SplitOn(w + "." + d, ".") == [w, d]
  {
    JoinTwo(w, d, ".");
    assert forall i, k :: 0 <= i < |[w, d]| && 0 <= k < |[w, d][i]| ==> [w, d][i][k] != '.' by {
      forall i, k | 0 <= i < |[w, d]| && 0 <= k < |[w, d][i]| ensures [w, d][i][k] != '.' {
        assert IsDigit([w, d][i][k]);
      }
    }
    SplitJoinChar([w, d], '.');
  }

  /** A digit followed by a zero reads as ten times the digit. */
  lemma TensDigit(t: nat)
    requires t < 10
    ensures NumberOf([DigitChar(t)] + "0") == Some(t * 10)
  {
    var c := DigitChar(t);
    var s := [c] + "0";
    assert AllDigits(s);
    NumberOfDigitRun(s);
    assert s[..1] == [c] && [c][..0] == [];
    assert DigitsValue([c]) == t;
  }

  /** The last digit printed is the number's last decimal digit. */
  lemma LastDigit(f: nat)
    requires f < 100
    ensures |PadTwo(f)| == 2 && PadTwo(f)[1] == DigitChar(f % 10)
  {
    if f >= 10 {
      assert NatToString(f / 10) == [DigitChar(f / 10)];
      assert NatToString(f) == NatToString(f / 10) + [DigitChar(f % 10)];
    } else {
      assert NatToString(f) == [DigitChar(f)];
    }
  }
}
