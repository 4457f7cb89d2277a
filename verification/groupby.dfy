/** Counting occurrences with a JavaScript object used as a counter
    (`counts[key] = (counts[key] || 0) + 1`), then listing its entries in
    insertion order (`Object.entries`). */
module GroupBy {
  import opened Util

  /** The sum of a sequence of counts. */
  function Sum(xs: seq<nat>): nat
  {
    if |xs| == 0 then 0 else Sum(xs[..|xs| - 1]) + xs[|xs| - 1]
  }

  /** The column of counts of a list of entries, one per entry, in order. */
  function CountColumn<T>(entries: seq<T>, count: T -> nat): (cs: seq<nat>)
    ensures |cs| == |entries|
    ensures forall i | 0 <= i < |entries| :: cs[i] == count(entries[i])
  {
    seq(|entries|, i requires 0 <= i < |entries| => count(entries[i]))
  }

  /** Raising one count by one raises the sum by one. */
  lemma {:induction false} SumIncrement(xs: seq<nat>, i: nat)
    requires i < |xs|
    ensures Sum(xs[i := xs[i] + 1]) == Sum(xs) + 1
  {
    var ys := xs[i := xs[i] + 1];
    var n := |xs| - 1;
    if i < n {
      assert ys[..n] == xs[..n][i := xs[i] + 1];
      SumIncrement(xs[..n], i);
    } else {
      assert ys[..n] == xs[..n];
    }
  }

  predicate Distinct(ks: seq<string>)
  {
    forall i, j | 0 <= i < j < |ks| :: ks[i] != ks[j]
  }

  /** A counter object: its keys in insertion order and the count under each
      key. */
  datatype Counter = Counter(order: seq<string>, counts: map<string, nat>)

  /** Each key is listed once, and the listed keys are the keys with a count. */
  predicate WellFormed(c: Counter)
  {
    Distinct(c.order) && c.counts.Keys == set k | k in c.order
  }

  /** The counts in insertion order. */
  function CountsOf(c: Counter): (xs: seq<nat>)
    requires WellFormed(c)
    ensures |xs| == |c.order|
    ensures forall i | 0 <= i < |c.order| :: xs[i] == c.counts[c.order[i]]
  {
    seq(|c.order|, i requires 0 <= i < |c.order| => c.counts[c.order[i]])
  }

  /** The keys of `s` in order of first occurrence, each once. */
  function FirstOccurrences(s: seq<string>): (r: seq<string>)
    ensures forall x :: x in r <==> x in s
    ensures Distinct(r)
  {
    if |s| == 0 then []
    else
      var init := FirstOccurrences(s[..|s| - 1]);
      var last := s[|s| - 1];
      assert forall x :: x in s <==> x in s[..|s| - 1] || x == last;
      if last in init then init else init + [last]
  }

  /** `counts[k] = (counts[k] || 0) + 1`: an existing entry goes up by one, a
      new key is added at the end with count 1. */
  function Bump(c: Counter, k: string): (r: Counter)
    requires WellFormed(c)
    ensures WellFormed(r)
    ensures r.order == if k in c.order then c.order else c.order + [k]
    ensures k in r.counts && r.counts[k] == (if k in c.counts then c.counts[k] else 0) + 1
    ensures forall x | x in c.counts && x != k :: r.counts[x] == c.counts[x]
  {
    if k in c.counts then Counter(c.order, c.counts[k := c.counts[k] + 1])
    else Counter(c.order + [k], c.counts[k := 1])
  }

  /** Counting one more key adds one to the total. */
  lemma BumpTotal(c: Counter, k: string)
    requires WellFormed(c)
    ensures Sum(CountsOf(Bump(c, k))) == Sum(CountsOf(c)) + 1
  {
    if k in c.counts {
      var i :| 0 <= i < |c.order| && c.order[i] == k;
      BumpExisting(c, k, i);
    } else {
      BumpNew(c, k);
    }
  }

  lemma BumpExisting(c: Counter, k: string, i: nat)
    requires WellFormed(c) && i < |c.order| && c.order[i] == k
    ensures CountsOf(Bump(c, k)) == CountsOf(c)[i := CountsOf(c)[i] + 1]
    ensures Sum(CountsOf(Bump(c, k))) == Sum(CountsOf(c)) + 1
  {
    var before, after := CountsOf(c), CountsOf(Bump(c, k));
    forall j | 0 <= j < |after| ensures after[j] == before[i := before[i] + 1][j] {
      if j != i {
        assert c.order[j] != k;
      }
    }
    assert after == before[i := before[i] + 1];
    SumIncrement(before, i);
  }

  lemma BumpNew(c: Counter, k: string)
    requires WellFormed(c) && k !in c.counts
    ensures CountsOf(Bump(c, k)) == CountsOf(c) + [1]
    ensures Sum(CountsOf(Bump(c, k))) == Sum(CountsOf(c)) + 1
  {
    var before, after := CountsOf(c), CountsOf(Bump(c, k));
    forall j | 0 <= j < |before| ensures after[j] == before[j] {
      assert c.order[j] != k;
    }
    assert after == before + [1];
    assert after[..|before|] == before;
  }

  /** The counter after counting every key of `keys` in turn. */
  function CountKeys(keys: seq<string>): (c: Counter)
    ensures WellFormed(c)
    ensures c.order == FirstOccurrences(keys)
    ensures forall k :: k in c.counts <==> k in keys
    ensures forall k | k in c.counts :: c.counts[k] == Count(keys, k)
  {
    if |keys| == 0 then Counter([], map[])
    else
      var init := keys[..|keys| - 1];
      var last := keys[|keys| - 1];
      assert forall x :: x in keys <==> x in init || x == last;
      Bump(CountKeys(init), last)
  }

  /** Every entry counts at least one occurrence, and the counts add up to
      the number of keys counted. */
  lemma {:induction false} CountKeysTotal(keys: seq<string>)
    ensures var c := CountKeys(keys);
      && (forall k | k in c.counts :: c.counts[k] >= 1)
      && Sum(CountsOf(c)) == |keys|
  {
    if |keys| > 0 {
      CountKeysTotal(keys[..|keys| - 1]);
      BumpTotal(CountKeys(keys[..|keys| - 1]), keys[|keys| - 1]);
    }
  }
}
