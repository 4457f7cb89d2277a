/** Small building blocks shared by the rest of the model: optional values,
    results, counting over sequences, order-preserving removal and the
    string operations JavaScript provides built in (number to text,
    ASCII case mapping, substring search, split and join). */
module Util {

  datatype Option<+T> = None | Some(value: T) {
    function GetOr(default: T): T {
      match this
      case Some(v) => v
      case None => default
    }
  }

  datatype Result<+R, +E> = Success(value: R) | Failure(error: E)

  // ---------------------------------------------------------------------------
  // Counting and filtering

  /** Number of positions of `s` holding `x`. */
  function Count<T(==)>(s: seq<T>, x: T): (n: nat)
    ensures n <= |s|
    ensures n == 0 <==> x !in s
  {
    if |s| == 0 then 0 else Count(s[..|s| - 1], x) + (if s[|s| - 1] == x then 1 else 0)
  }

  lemma CountAppend<T>(a: seq<T>, b: seq<T>, x: T)
    ensures Count(a + b, x) == Count(a, x) + Count(b, x)
  {
    if |b| == 0 {
      assert a + b == a;
    } else {
      assert (a + b)[..|a + b| - 1] == a + b[..|b| - 1];
      CountAppend(a, b[..|b| - 1], x);
    }
  }

  /** Every position holds `x` exactly when all of them are counted. */
  lemma {:induction false} CountAll<T>(s: seq<T>, x: T)
    ensures Count(s, x) == |s| <==> forall y | y in s :: y == x
  {
    if |s| > 0 {
      var init, last := s[..|s| - 1], s[|s| - 1];
      CountAll(init, x);
      assert s == init + [last];
      assert forall y :: y in s <==> y in init || y == last;
      if Count(s, x) == |s| {
        assert Count(init, x) == |init|;
      } else if last != x {
        assert last in s;
      } else {
        var y :| y in init && y != x;
        assert y in s;
      }
    }
  }

  /** Three distinct values are counted at no more than `|s|` positions in
      all, and at exactly `|s|` when no other value occurs. */
  lemma {:induction false} CountThree<T>(s: seq<T>, a: T, b: T, c: T)
    requires a != b && a != c && b != c
    ensures Count(s, a) + Count(s, b) + Count(s, c) <= |s|
    ensures (forall y | y in s :: y == a || y == b || y == c) ==>
      Count(s, a) + Count(s, b) + Count(s, c) == |s|
  {
    if |s| > 0 {
      var init, last := s[..|s| - 1], s[|s| - 1];
      CountThree(init, a, b, c);
      assert s == init + [last];
      assert forall y :: y in s <==> y in init || y == last;
      assert last in s;
    }
  }

  /** `sub` is obtained from `s` by deleting some positions, keeping order. */
  ghost predicate IsSubsequence<T>(sub: seq<T>, s: seq<T>)
  {
    exists idx: seq<nat> ::
      |idx| == |sub|
      && (forall i :: 0 <= i < |idx| ==> idx[i] < |s| && s[idx[i]] == sub[i])
      && (forall i, j :: 0 <= i < j < |idx| ==> idx[i] < idx[j])
  }

  lemma SubsequenceExtend<T>(sub: seq<T>, s: seq<T>, x: T, keep: bool)
    requires IsSubsequence(sub, s)
    ensures IsSubsequence(if keep then sub + [x] else sub, s + [x])
  {
    var idx: seq<nat> :| |idx| == |sub|
      && (forall i :: 0 <= i < |idx| ==> idx[i] < |s| && s[idx[i]] == sub[i])
      && (forall i, j :: 0 <= i < j < |idx| ==> idx[i] < idx[j]);
    if keep {
      var idx' := idx + [|s|];
      assert forall i :: 0 <= i < |idx'| ==> idx'[i] < |s + [x]| && (s + [x])[idx'[i]] == (sub + [x])[i];
      assert forall i, j :: 0 <= i < j < |idx'| ==> idx'[i] < idx'[j];
    } else {
      assert forall i :: 0 <= i < |idx| ==> idx[i] < |s + [x]| && (s + [x])[idx[i]] == sub[i];
    }
  }

  /** The elements of `s` that differ from `x`, in their original order
      (JavaScript's `array.filter(item => item !== x)`). */
  function RemoveAll<T(==)>(s: seq<T>, x: T): (r: seq<T>)
    ensures x !in r
    ensures multiset(r) == multiset(s)[x := 0]
    ensures IsSubsequence(r, s)
  {
    if |s| == 0 then
      assert IsSubsequence([], s) by {
        var idx: seq<nat> := [];
      }
      []
    else
      var init := RemoveAll(s[..|s| - 1], x);
      var last := s[|s| - 1];
      assert s == s[..|s| - 1] + [last];
      SubsequenceExtend(init, s[..|s| - 1], last, last != x);
      if last != x then init + [last] else init
  }

  /** The elements of `s` that satisfy `keep`, in their original order
      (JavaScript's `array.filter(keep)`). */
  function Filter<T(==,!new)>(s: seq<T>, keep: T -> bool): (r: seq<T>)
    ensures forall x :: x in r <==> x in s && keep(x)
    ensures IsSubsequence(r, s)
    ensures (forall x | x in s :: keep(x)) ==> r == s
  {
    if |s| == 0 then
      assert IsSubsequence([], s) by {
        var idx: seq<nat> := [];
      }
      []
    else
      var init := Filter(s[..|s| - 1], keep);
      var last := s[|s| - 1];
      assert s == s[..|s| - 1] + [last];
      SubsequenceExtend(init, s[..|s| - 1], last, keep(last));
      if keep(last) then init + [last] else init
  }

  /** Filtering a list extended by one element filters the list and then
      keeps or drops the element. */
  lemma FilterAppend<T(!new)>(s: seq<T>, x: T, keep: T -> bool)
    ensures Filter(s + [x], keep) == Filter(s, keep) + (if keep(x) then [x] else [])
  {
    assert (s + [x])[..|s|] == s;
  }

  /** Filtering keeps each kept value as many times as it occurs and drops
      every occurrence of the others. */
  lemma {:induction false} FilterCount<T(!new)>(s: seq<T>, keep: T -> bool)
    ensures forall x :: Count(Filter(s, keep), x) == if keep(x) then Count(s, x) else 0
  {
    if |s| > 0 {
      var init := s[..|s| - 1];
      var last := s[|s| - 1];
      assert s == init + [last];
      FilterAppend(init, last, keep);
      FilterCount(init, keep);
      forall x ensures Count(Filter(s, keep), x) == if keep(x) then Count(s, x) else 0 {
        CountAppend(Filter(init, keep), if keep(last) then [last] else [], x);
        assert [last][..0] == [];
      }
    }
  }

  /** A value absent from a list comes back unchanged after it is appended
      and then removed again. */
  lemma {:induction false} RemoveAllAfterAppend<T>(s: seq<T>, x: T)
    requires x !in s
    ensures RemoveAll(s + [x], x) == s
  {
    assert (s + [x])[..|s + [x]| - 1] == s;
    RemoveAllAbsent(s, x);
  }

  lemma {:induction false} RemoveAllAbsent<T>(s: seq<T>, x: T)
    requires x !in s
    ensures RemoveAll(s, x) == s
  {
    if |s| > 0 {
      assert s == s[..|s| - 1] + [s[|s| - 1]];
      RemoveAllAbsent(s[..|s| - 1], x);
    }
  }

  // ---------------------------------------------------------------------------
  // Number to text (JavaScript template-literal interpolation of integers)

  function DigitChar(d: nat): (c: char)
    requires d < 10
    ensures '0' <= c <= '9'
  {
    "0123456789"[d]
  }

  /** Decimal digits of `n`, most significant first, with no leading zero. */
  function NatText(n: nat): (t: string)
    ensures |t| >= 1
    ensures forall i :: 0 <= i < |t| ==> '0' <= t[i] <= '9'
    ensures |t| > 1 ==> t[0] != '0'
    decreases n
  {
    if n < 10 then [DigitChar(n)] else NatText(n / 10) + [DigitChar(n % 10)]
  }

  /** Value of a string of decimal digits; the inverse of `NatText`. */
  function DigitsValue(t: string): int
  {
    if |t| == 0 then 0 else DigitsValue(t[..|t| - 1]) * 10 + (t[|t| - 1] as int - '0' as int)
  }

  lemma {:induction false} NatTextRoundTrip(n: nat)
    ensures DigitsValue(NatText(n)) == n
  {
    var t := NatText(n);
    if n < 10 {
      assert t[..0] == [];
      DigitCharValue(n);
    } else {
      assert t[..|t| - 1] == NatText(n / 10);
      NatTextRoundTrip(n / 10);
      DigitCharValue(n % 10);
      var q, d := n / 10, n % 10;
      assert DigitsValue(t) == q * 10 + d;
    }
  }

  lemma DigitCharValue(d: nat)
    requires d < 10
    ensures DigitChar(d) as int - '0' as int == d
  {
  }

  lemma NatTextInjective(a: nat, b: nat)
    requires NatText(a) == NatText(b)
    ensures a == b
  {
    NatTextRoundTrip(a);
    NatTextRoundTrip(b);
  }

  function IntText(n: int): (t: string)
    ensures |t| >= 1
    ensures n >= 0 ==> t == NatText(n)
    ensures n < 0 ==> t == "-" + NatText(-n)
  {
    if n >= 0 then NatText(n) else "-" + NatText(-n)
  }

  // ---------------------------------------------------------------------------
  // ASCII case mapping

  function LowerChar(c: char): char
  {
    if 'A' <= c <= 'Z' then (c as int - 'A' as int + 'a' as int) as char else c
  }

  function UpperChar(c: char): char
  {
    if 'a' <= c <= 'z' then (c as int - 'a' as int + 'A' as int) as char else c
  }

  /** `String.prototype.toLowerCase` restricted to the ASCII letters. */
  function ToLower(s: string): (r: string)
    ensures |r| == |s|
    ensures forall i :: 0 <= i < |s| ==> r[i] == LowerChar(s[i])
  {
    seq(|s|, i requires 0 <= i < |s| => LowerChar(s[i]))
  }

  lemma ToLowerIdempotent(s: string)
    ensures ToLower(ToLower(s)) == ToLower(s)
  {
  }

  // ---------------------------------------------------------------------------
  // Substring search, split and join

  /** `s` contains `pat` at position `i`. */
  predicate OccursAt(s: string, pat: string, i: nat)
  {
    i + |pat| <= |s| && s[i..i + |pat|] == pat
  }

  /** `String.prototype.includes`. */
  function Includes(s: string, pat: string): (b: bool)
    ensures b <==> exists i: nat :: OccursAt(s, pat, i)
  {
    IncludesFrom(s, pat, 0)
  }

  function IncludesFrom(s: string, pat: string, from: nat): (b: bool)
    ensures b <==> exists i: nat :: from <= i && OccursAt(s, pat, i)
    decreases |s| - from
  {
    if from + |pat| > |s| then
      assert forall i: nat :: from <= i ==> !OccursAt(s, pat, i);
      false
    else if s[from..from + |pat|] == pat then
      assert OccursAt(s, pat, from);
      true
    else
      var rest := IncludesFrom(s, pat, from + 1);
      assert (exists i: nat :: from <= i && OccursAt(s, pat, i)) ==> exists i: nat :: from + 1 <= i && OccursAt(s, pat, i);
      rest
  }

  /** Index of the first `c` in `s`, or `|s|` when there is none. */
  function IndexOf(s: string, c: char): (k: nat)
    ensures k <= |s|
    ensures c !in s[..k]
    ensures k < |s| ==> s[k] == c
  {
    if |s| == 0 then 0
    else if s[0] == c then 0
    else 1 + IndexOf(s[1..], c)
  }

  /** `s.split(c)[0]`: the text before the first `c`, or all of `s`. */
  function BeforeFirst(s: string, c: char): (r: string)
    ensures r <= s
    ensures c !in r
    ensures c !in s ==> r == s
    ensures |r| < |s| ==> s[|r|] == c
  {
    s[..IndexOf(s, c)]
  }

  /** `parts.join(sep)`. */
  function Join(parts: seq<string>, sep: string): (r: string)
    ensures |parts| == 0 ==> r == ""
    ensures |parts| == 1 ==> r == parts[0]
  {
    if |parts| == 0 then ""
    else if |parts| == 1 then parts[0]
    else Join(parts[..|parts| - 1], sep) + sep + parts[|parts| - 1]
  }

  /** Lexicographic order on strings, by character code (how ISO-8601
      date strings of one format compare chronologically). */
  predicate LexLe(a: string, b: string)
  {
    if |a| == 0 then true
    else if |b| == 0 then false
    else if a[0] != b[0] then a[0] < b[0]
    else LexLe(a[1..], b[1..])
  }

  lemma LexLeReflexive(a: string)
    ensures LexLe(a, a)
  {
  }
}
