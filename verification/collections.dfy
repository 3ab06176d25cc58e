/** Sequence operations behind `Array.prototype.filter`, `[...new Set(xs)]`
    and the default `Array.prototype.sort` on strings. */
module Collections {

  // ---------------------------------------------------------------------
  // Filter
  // ---------------------------------------------------------------------

  /** `s.filter(p)`. */
  function Filter<T>(s: seq<T>, p: T -> bool): (r: seq<T>)
    ensures |r| <= |s|
    ensures forall i :: 0 <= i < |r| ==> p(r[i])
  {
    if |s| == 0 then []
    else if p(s[0]) then [s[0]] + Filter(s[1..], p)
    else Filter(s[1..], p)
  }

  /** Nothing passing the test, nothing is kept. */
  lemma {:induction false} FilterNone<T>(s: seq<T>, p: T -> bool)
    requires forall i :: 0 <= i < |s| ==> !p(s[i])
    ensures Filter(s, p) == []
  {
    if |s| > 0 {
      assert forall i :: 0 <= i < |s[1..]| ==> s[1..][i] == s[i + 1];
      FilterNone(s[1..], p);
    }
  }

  predicate StrictlyIncreasing(idx: seq<nat>) {
    forall i, j :: 0 <= i < j < |idx| ==> idx[i] < idx[j]
  }

  /** The positions at or after `from` kept by `Filter(s[from..], p)`. */
  lemma {:induction false} KeptPositionsFrom<T>(s: seq<T>, p: T -> bool, from: nat) returns (idx: seq<nat>)
    requires from <= |s|
    ensures |idx| == |Filter(s[from..], p)|
    ensures StrictlyIncreasing(idx)
    ensures forall i :: 0 <= i < |idx| ==> from <= idx[i] < |s| && Filter(s[from..], p)[i] == s[idx[i]]
    ensures forall k :: from <= k < |s| ==> (k in idx <==> p(s[k]))
    decreases |s| - from
  {
    if from == |s| {
      idx := [];
      return;
    }
    var tail := KeptPositionsFrom(s, p, from + 1);
    assert s[from..][1..] == s[from + 1..];
    assert from !in tail;
    if p(s[from]) {
      idx := [from] + tail;
    } else {
      idx := tail;
    }
  }

  /** The filtered sequence is exactly the subsequence of `s` at the
      positions whose element satisfies `p`: in the original order, with
      nothing reordered, duplicated or invented. */
  lemma FilterIsKeptSubsequence<T>(s: seq<T>, p: T -> bool) returns (idx: seq<nat>)
    ensures |idx| == |Filter(s, p)|
    ensures StrictlyIncreasing(idx)
    ensures forall i :: 0 <= i < |idx| ==> idx[i] < |s| && Filter(s, p)[i] == s[idx[i]]
    ensures forall k :: 0 <= k < |s| ==> (k in idx <==> p(s[k]))
  {
    assert s[0..] == s;
    idx := KeptPositionsFrom(s, p, 0);
  }

  /** An element is kept exactly when it is in `s` and satisfies `p`. */
  lemma FilterMembership<T>(s: seq<T>, p: T -> bool, x: T)
    ensures x in Filter(s, p) <==> x in s && p(x)
  {
    var idx := FilterIsKeptSubsequence(s, p);
    var r := Filter(s, p);
    if x in r {
      var i :| 0 <= i < |r| && r[i] == x;
      assert s[idx[i]] == x;
    }
    if x in s && p(x) {
      var k :| 0 <= k < |s| && s[k] == x;
      assert k in idx;
      var i :| 0 <= i < |idx| && idx[i] == k;
      assert r[i] == x;
    }
  }

  /** A filter that keeps everything is the identity. */
  lemma {:induction false} FilterKeepsAll<T>(s: seq<T>, p: T -> bool)
    requires forall i :: 0 <= i < |s| ==> p(s[i])
    ensures Filter(s, p) == s
  {
    if |s| > 0 {
      FilterKeepsAll(s[1..], p);
    }
  }

  // ---------------------------------------------------------------------
  // Distinct elements in first-occurrence order
  // ---------------------------------------------------------------------

  predicate Distinct<T(==)>(s: seq<T>) {
    forall i, j :: 0 <= i < j < |s| ==> s[i] != s[j]
  }

  /** Index of the first occurrence of `x` in `s`. */
  function FirstIndex<T(==)>(s: seq<T>, x: T): (k: nat)
    requires x in s
    ensures k < |s| && s[k] == x && x !in s[..k]
  {
    if s[0] == x then 0 else 1 + FirstIndex(s[1..], x)
  }

  lemma FirstIndexInPrefix<T>(s: seq<T>, n: nat, x: T)
    requires n <= |s| && x in s[..n]
    ensures FirstIndex(s[..n], x) == FirstIndex(s, x)
  {
    var a := FirstIndex(s[..n], x);
    var b := FirstIndex(s, x);
    assert s[..n][..a] == s[..a];
  }

  /** `[...new Set(s)]`: each distinct element once, ordered by where it
      first occurs in `s`. */
  function Dedup(s: seq<string>): (r: seq<string>)
    ensures Distinct(r)
    ensures forall x :: x in r <==> x in s
    ensures |r| <= |s|
    ensures forall i, j :: 0 <= i < j < |r| ==> FirstIndex(s, r[i]) < FirstIndex(s, r[j])
  {
    if |s| == 0 then []
    else
      var init := s[..|s| - 1];
      var last := s[|s| - 1];
      var d := Dedup(init);
      assert forall x :: x in init ==> FirstIndex(init, x) == FirstIndex(s, x) by {
        forall x | x in init ensures FirstIndex(init, x) == FirstIndex(s, x) {
          FirstIndexInPrefix(s, |s| - 1, x);
        }
      }
      assert s == init + [last];
      if last in d then d
      else
        assert FirstIndex(s, last) == |s| - 1;
        d + [last]
  }

  // ---------------------------------------------------------------------
  // Character order on strings
  // ---------------------------------------------------------------------

  /** The order JavaScript's default `sort` uses, taken character by
      character (Unicode scalar values; the code compares UTF-16 code
      units, which differs only above U+FFFF): lexicographic, a proper
      prefix before its extensions. */
  predicate LexLe(a: string, b: string) {
    |a| == 0 || (|b| > 0 && (a[0] < b[0] || (a[0] == b[0] && LexLe(a[1..], b[1..]))))
  }

  lemma {:induction false} LexLeTotal(a: string, b: string)
    ensures LexLe(a, b) || LexLe(b, a)
  {
    if |a| > 0 && |b| > 0 && a[0] == b[0] {
      LexLeTotal(a[1..], b[1..]);
    }
  }

  lemma {:induction false} LexLeAntisymmetric(a: string, b: string)
    requires LexLe(a, b) && LexLe(b, a)
    ensures a == b
  {
    if |a| > 0 && |b| > 0 {
      LexLeAntisymmetric(a[1..], b[1..]);
      assert a == [a[0]] + a[1..];
      assert b == [b[0]] + b[1..];
    }
  }

  lemma {:induction false} LexLeTransitive(a: string, b: string, c: string)
    requires LexLe(a, b) && LexLe(b, c)
    ensures LexLe(a, c)
  {
    if |a| > 0 && a[0] == b[0] && b[0] == c[0] {
      LexLeTransitive(a[1..], b[1..], c[1..]);
    }
  }

  predicate Sorted(s: seq<string>) {
    forall i, j :: 0 <= i < j < |s| ==> LexLe(s[i], s[j])
  }

  function Insert(x: string, s: seq<string>): (r: seq<string>)
    requires Sorted(s)
    ensures Sorted(r)
    ensures multiset(r) == multiset(s) + multiset{x}
  {
    if |s| == 0 then [x]
    else if LexLe(x, s[0]) then
      assert forall j :: 0 <= j < |s| ==> LexLe(x, s[j]) by {
        forall j | 0 <= j < |s| ensures LexLe(x, s[j]) {
          if j > 0 { LexLeTransitive(x, s[0], s[j]); }
        }
      }
      [x] + s
    else
      LexLeTotal(x, s[0]);
      var t := Insert(x, s[1..]);
      assert s == [s[0]] + s[1..];
      assert forall y :: y in multiset(t) ==> LexLe(s[0], y);
      assert forall j :: 0 <= j < |t| ==> LexLe(s[0], t[j]) by {
        forall j | 0 <= j < |t| ensures LexLe(s[0], t[j]) {
          assert t[j] in multiset(t);
        }
      }
      [s[0]] + t
  }

  /** `[...s].sort()` on strings: an ordered permutation of `s`. */
  function Sort(s: seq<string>): (r: seq<string>)
    ensures Sorted(r)
    ensures multiset(r) == multiset(s)
  {
    if |s| == 0 then []
    else
      assert s == [s[0]] + s[1..];
      Insert(s[0], Sort(s[1..]))
  }

  /** A sequence without repeats has each element once in its multiset. */
  lemma {:induction false} DistinctMultiplicity<T>(s: seq<T>, x: T)
    requires Distinct(s)
    ensures multiset(s)[x] <= 1
  {
    if |s| > 0 {
      assert s == [s[0]] + s[1..];
      DistinctMultiplicity(s[1..], x);
      if s[0] == x {
        assert x !in s[1..];
      }
    }
  }

  /** A permutation of a sequence without repeats has no repeats. */
  lemma PermutationKeepsDistinct<T>(s: seq<T>, r: seq<T>)
    requires Distinct(s) && multiset(r) == multiset(s)
    ensures Distinct(r)
  {
    forall i, j | 0 <= i < j < |r|
      ensures r[i] != r[j]
    {
      if r[i] == r[j] {
        var x := r[i];
        assert r == r[..i] + [x] + r[i + 1..j] + [x] + r[j + 1..];
        assert multiset(r)[x] >= 2;
        DistinctMultiplicity(s, x);
      }
    }
  }
}
