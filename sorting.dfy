/** Python's ordering of `str` values and the `sorted` built on it. */
module Sorting {

  /** Python's `a < b` on `str`: lexicographic on code points, a proper prefix first. */
  predicate Below(a: string, b: string)
  {
    BelowFrom(a, b, 0)
  }

  /** `a < b` decided from position `k` on, the characters before `k` being equal. */
  predicate BelowFrom(a: string, b: string, k: nat)
    decreases |b| - k
  {
    |b| > k && (|a| == k || (|a| > k && (a[k] < b[k] || (a[k] == b[k] && BelowFrom(a, b, k + 1)))))
  }

  /** Python's `a <= b` on `str`. */
  predicate AtMost(a: string, b: string)
  {
    a == b || Below(a, b)
  }

  lemma {:induction false} BelowFromIrreflexive(a: string, k: nat)
    ensures !BelowFrom(a, a, k)
    decreases |a| - k
  {
    if |a| > k { BelowFromIrreflexive(a, k + 1); }
  }

  lemma BelowIrreflexive(a: string)
    ensures !Below(a, a)
  {
    BelowFromIrreflexive(a, 0);
  }

  lemma {:induction false} BelowFromTransitive(a: string, b: string, c: string, k: nat)
    requires BelowFrom(a, b, k) && BelowFrom(b, c, k)
    ensures BelowFrom(a, c, k)
    decreases |b| - k
  {
    if |a| > k && a[k] == b[k] && b[k] == c[k] {
      BelowFromTransitive(a, b, c, k + 1);
    }
  }

  lemma BelowTransitive(a: string, b: string, c: string)
    requires Below(a, b) && Below(b, c)
    ensures Below(a, c)
  {
    BelowFromTransitive(a, b, c, 0);
  }

  lemma {:induction false} BelowFromTotal(a: string, b: string, k: nat)
    requires k <= |a| && k <= |b| && a[..k] == b[..k]
    ensures a == b || BelowFrom(a, b, k) || BelowFrom(b, a, k)
    decreases |a| - k
  {
    if |a| > k && |b| > k && a[k] == b[k] {
      assert a[..k + 1] == a[..k] + [a[k]] && b[..k + 1] == b[..k] + [b[k]];
      BelowFromTotal(a, b, k + 1);
    } else if |a| == k && |b| == k {
      assert a == a[..k] && b == b[..k];
    }
  }

  lemma BelowTotal(a: string, b: string)
    ensures a == b || Below(a, b) || Below(b, a)
  {
    BelowFromTotal(a, b, 0);
  }

  lemma BelowAsymmetric(a: string, b: string)
    requires Below(a, b)
    ensures !Below(b, a) && a != b
  {
    BelowIrreflexive(a);
    if Below(b, a) { BelowTransitive(a, b, a); }
  }

  lemma AtMostTransitive(a: string, b: string, c: string)
    requires AtMost(a, b) && AtMost(b, c)
    ensures AtMost(a, c)
  {
    if a != b && b != c { BelowTransitive(a, b, c); }
  }

  /** Ordered by `key` under Python's `<=`. */
  predicate SortedBy<T>(s: seq<T>, key: T -> string)
  {
    forall i, j :: 0 <= i < j < |s| ==> AtMost(key(s[i]), key(s[j]))
  }

  /** Strictly increasing under Python's `<`: sorted with no repeats. */
  predicate Increasing(s: seq<string>)
  {
    forall i, j :: 0 <= i < j < |s| ==> Below(s[i], s[j])
  }

  /** Insert `x` after every element whose key is at most its own: the step of insertion sort. */
  function InsertBy<T>(x: T, s: seq<T>, key: T -> string): (r: seq<T>)
    requires SortedBy(s, key)
    ensures SortedBy(r, key)
    ensures multiset(r) == multiset(s) + multiset{x}
  {
    if |s| == 0 then [x]
    else if AtMost(key(s[0]), key(x)) then
      var rest := InsertBy(x, s[1..], key);
      assert s == [s[0]] + s[1..];
      InsertHeadBelow(s[0], x, s[1..], rest, key);
      [s[0]] + rest
    else
      BelowTotal(key(s[0]), key(x));
      InsertBelowHead(x, s, key);
      [x] + s
  }

  lemma InsertHeadBelow<T>(h: T, x: T, t: seq<T>, rest: seq<T>, key: T -> string)
    requires SortedBy([h] + t, key) && SortedBy(rest, key) && AtMost(key(h), key(x))
    requires multiset(rest) == multiset(t) + multiset{x}
    ensures SortedBy([h] + rest, key)
  {
    forall j | 0 <= j < |rest| ensures AtMost(key(h), key(rest[j])) {
      assert rest[j] in multiset(rest);
      if rest[j] != x {
        assert rest[j] in multiset(t);
        var m :| 0 <= m < |t| && t[m] == rest[j];
        assert ([h] + t)[0] == h && ([h] + t)[m + 1] == t[m];
      }
    }
  }

  lemma InsertBelowHead<T>(x: T, s: seq<T>, key: T -> string)
    requires |s| > 0 && SortedBy(s, key) && Below(key(x), key(s[0]))
    ensures SortedBy([x] + s, key)
  {
    forall j | 0 <= j < |s| ensures AtMost(key(x), key(s[j])) {
      if j > 0 && key(s[0]) != key(s[j]) { BelowTransitive(key(x), key(s[0]), key(s[j])); }
    }
  }

  /** Python's `sorted(s, key=key)`: ordered by key, and a permutation of `s`. */
  function SortBy<T>(s: seq<T>, key: T -> string): (r: seq<T>)
    ensures SortedBy(r, key)
    ensures multiset(r) == multiset(s)
    ensures |r| == |s|
  {
    if |s| == 0 then []
    else
      var init, last := s[..|s| - 1], s[|s| - 1];
      assert s == init + [last];
      var r := InsertBy(last, SortBy(init, key), key);
      assert multiset(r) == multiset(init) + multiset{last} == multiset(s);
      assert |r| == |multiset(r)| == |multiset(s)| == |s|;
      r
  }

  function Id(s: string): string { s }

  /** Ordered under Python's `<=` on the strings themselves. */
  predicate Sorted(s: seq<string>)
  {
    forall i, j :: 0 <= i < j < |s| ==> AtMost(s[i], s[j])
  }

  /** `sorted(s)` for a list of strings. */
  function Sort(s: seq<string>): (r: seq<string>)
    ensures Sorted(r)
    ensures multiset(r) == multiset(s)
  {
    var r := SortBy(s, Id);
    assert forall i, j :: 0 <= i < j < |r| ==> AtMost(Id(r[i]), Id(r[j]));
    r
  }

  lemma SortedLeast(a: seq<string>, x: string)
    requires Sorted(a) && x in multiset(a)
    ensures AtMost(a[0], x)
  {
    var i :| 0 <= i < |a| && a[i] == x;
  }

  /** Two sorted lists of strings holding the same elements are equal: `sorted` has one answer. */
  lemma {:induction false} SortedUnique(a: seq<string>, b: seq<string>)
    requires Sorted(a) && Sorted(b)
    requires multiset(a) == multiset(b)
    ensures a == b
  {
    if |a| == 0 {
      assert |b| == |multiset(b)| == 0;
    } else {
      SortedHeads(a, b);
      TailMultiset(a);
      TailMultiset(b);
      SortedTail(a);
      SortedTail(b);
      SortedUnique(a[1..], b[1..]);
      assert a == [a[0]] + a[1..] && b == [b[0]] + b[1..];
    }
  }

  /** Two sorted lists with the same elements start with the same element. */
  lemma SortedHeads(a: seq<string>, b: seq<string>)
    requires Sorted(a) && Sorted(b) && |a| > 0
    requires multiset(a) == multiset(b)
    ensures |b| > 0 && a[0] == b[0]
  {
    assert |b| == |multiset(b)| == |multiset(a)| == |a|;
    var x, y := a[0], b[0];
    assert x in multiset(a) && y in multiset(b);
    SortedLeast(b, x);
    SortedLeast(a, y);
    if x != y { BelowAsymmetric(x, y); }
  }

  lemma TailMultiset<T>(a: seq<T>)
    requires |a| > 0
    ensures multiset(a[1..]) == multiset(a) - multiset{a[0]}
  {
    assert a == [a[0]] + a[1..];
  }

  lemma SortedTail(a: seq<string>)
    requires Sorted(a) && |a| > 0
    ensures Sorted(a[1..])
  {
    forall i, j | 0 <= i < j < |a| - 1 ensures AtMost(a[1..][i], a[1..][j]) {
      assert a[1..][i] == a[i + 1] && a[1..][j] == a[j + 1];
    }
  }

  lemma IncreasingIsSorted(s: seq<string>)
    requires Increasing(s)
    ensures Sorted(s)
  {
  }

  /** A strictly increasing list of strings has no repeated element. */
  lemma IncreasingDistinct(s: seq<string>, i: int, j: int)
    requires Increasing(s) && 0 <= i < |s| && 0 <= j < |s| && s[i] == s[j]
    ensures i == j
  {
    if i < j { BelowIrreflexive(s[i]); }
    if j < i { BelowIrreflexive(s[j]); }
  }

  /** `s` is strictly increasing from position `k` on, checked one neighbour pair at a time. */
  predicate ChainFrom(s: seq<string>, k: nat)
    decreases |s| - k
  {
    k + 1 >= |s| || (Below(s[k], s[k + 1]) && ChainFrom(s, k + 1))
  }

  lemma {:induction false} ChainIncreasing(s: seq<string>, k: nat)
    requires ChainFrom(s, k)
    ensures forall i, j :: k <= i < j < |s| ==> Below(s[i], s[j])
    decreases |s| - k
  {
    if k + 1 < |s| {
      ChainIncreasing(s, k + 1);
      forall j | k + 1 < j < |s| ensures Below(s[k], s[j]) {
        BelowTransitive(s[k], s[k + 1], s[j]);
      }
    }
  }

  lemma {:induction false} ChainAdjacent(s: seq<string>, k: nat)
    ensures ChainFrom(s, k) <==> forall i :: k <= i && i + 1 < |s| ==> Below(s[i], s[i + 1])
    decreases |s| - k
  {
    if k + 1 < |s| { ChainAdjacent(s, k + 1); }
  }
}
