/** Python dictionaries built by comprehension: the last value for a key wins, the first occurrence fixes its position. */
module Dicts {

  /** `list.index`: the first position holding `x`. */
  function IndexOf<T(==)>(s: seq<T>, x: T): (i: nat)
    requires x in s
    ensures i < |s| && s[i] == x
    ensures forall j :: 0 <= j < i ==> s[j] != x
  {
    if s[0] == x then 0 else 1 + IndexOf(s[1..], x)
  }

  /** `{key(x): x for x in items}`. */
  function DictFrom<T>(items: seq<T>, key: T -> string): (m: map<string, T>)
    ensures forall x :: x in items ==> key(x) in m
    ensures forall k :: k in m ==> m[k] in items && key(m[k]) == k
  {
    if |items| == 0 then map[]
    else
      var last := items[|items| - 1];
      var m := DictFrom(items[..|items| - 1], key)[key(last) := last];
      assert forall x :: x in items ==> x == last || x in items[..|items| - 1];
      m
  }

  /** The value kept for a key is the one at the last position holding that key. */
  lemma {:induction false} DictFromLast<T>(items: seq<T>, key: T -> string, j: int)
    requires 0 <= j < |items|
    requires forall l :: j < l < |items| ==> key(items[l]) != key(items[j])
    ensures DictFrom(items, key)[key(items[j])] == items[j]
  {
    if j < |items| - 1 {
      DictFromLast(items[..|items| - 1], key, j);
    }
  }

  /** The keys of `{key(x): x for x in items}` in dictionary order: each at its first occurrence. */
  function KeyOrder<T>(items: seq<T>, key: T -> string): (ks: seq<string>)
    ensures forall i, j :: 0 <= i < j < |ks| ==> ks[i] != ks[j]
    ensures forall x :: x in items ==> key(x) in ks
    ensures forall k :: k in ks ==> k in DictFrom(items, key)
  {
    if |items| == 0 then []
    else
      var ks := KeyOrder(items[..|items| - 1], key);
      var k := key(items[|items| - 1]);
      assert forall x :: x in items ==> x == items[|items| - 1] || x in items[..|items| - 1];
      if k in ks then ks else ks + [k]
  }

  /** Some item with key `a` comes before every item with key `b`. */
  predicate KeyBefore<T>(items: seq<T>, key: T -> string, a: string, b: string)
  {
    exists p :: 0 <= p < |items| && key(items[p]) == a && forall q :: 0 <= q <= p ==> key(items[q]) != b
  }

  /** The dictionary lists its keys in the order of their first occurrence among the items. */
  lemma {:induction false} KeyOrderFirstSeen<T>(items: seq<T>, key: T -> string)
    ensures forall i, j :: 0 <= i < j < |KeyOrder(items, key)| ==>
      KeyBefore(items, key, KeyOrder(items, key)[i], KeyOrder(items, key)[j])
  {
    if |items| > 0 {
      var init := items[..|items| - 1];
      KeyOrderFirstSeen(init, key);
      FirstSeenStep(init, items, key);
    }
  }

  lemma FirstSeenStep<T>(init: seq<T>, items: seq<T>, key: T -> string)
    requires |items| > 0 && init == items[..|items| - 1]
    requires forall i, j :: 0 <= i < j < |KeyOrder(init, key)| ==>
      KeyBefore(init, key, KeyOrder(init, key)[i], KeyOrder(init, key)[j])
    ensures forall i, j :: 0 <= i < j < |KeyOrder(items, key)| ==>
      KeyBefore(items, key, KeyOrder(items, key)[i], KeyOrder(items, key)[j])
  {
    var ks := KeyOrder(init, key);
    var k := key(items[|items| - 1]);
    var r := KeyOrder(items, key);
    assert r == if k in ks then ks else ks + [k];
    forall i, j | 0 <= i < j < |r|
      ensures KeyBefore(items, key, r[i], r[j])
    {
      if j < |ks| {
        KeyBeforeExtends(init, items, key, ks[i], ks[j]);
      } else {
        KeyBeforeNew(init, items, key, ks[i], k);
      }
    }
  }

  lemma KeyBeforeExtends<T>(init: seq<T>, items: seq<T>, key: T -> string, a: string, b: string)
    requires init <= items && KeyBefore(init, key, a, b)
    ensures KeyBefore(items, key, a, b)
  {
    var p :| 0 <= p < |init| && key(init[p]) == a && forall q :: 0 <= q <= p ==> key(init[q]) != b;
    assert forall q :: 0 <= q <= p ==> items[q] == init[q];
    assert key(items[p]) == a;
  }

  /** A key already seen comes before a key first seen after `init`. */
  lemma KeyBeforeNew<T>(init: seq<T>, items: seq<T>, key: T -> string, a: string, b: string)
    requires init <= items && a in KeyOrder(init, key) && b !in KeyOrder(init, key)
    ensures KeyBefore(items, key, a, b)
  {
    var m := DictFrom(init, key);
    var p := IndexOf(init, m[a]);
    assert forall q :: 0 <= q <= p ==> items[q] == init[q] && init[q] in init;
    assert key(items[p]) == a;
  }

  /** When no two items share a key, the dictionary's keys are the items' keys in their order. */
  lemma {:induction false} KeyOrderDistinct<T>(items: seq<T>, key: T -> string)
    requires forall a, b :: 0 <= a < b < |items| ==> key(items[a]) != key(items[b])
    ensures |KeyOrder(items, key)| == |items|
    ensures forall i :: 0 <= i < |items| ==> KeyOrder(items, key)[i] == key(items[i])
  {
    if |items| > 0 {
      var n := |items| - 1;
      var init := items[..n];
      assert forall a :: 0 <= a < n ==> init[a] == items[a];
      KeyOrderDistinct(init, key);
      var ks := KeyOrder(init, key);
      assert key(items[n]) !in ks;
      assert KeyOrder(items, key) == ks + [key(items[n])];
    }
  }

  /** `dict(zip(fields, row))`: pairs up to the shorter list; a repeated field keeps its last value. */
  function ZipDict<V>(fields: seq<string>, row: seq<V>): (m: map<string, V>)
    ensures m.Keys == set i | 0 <= i < |fields| && i < |row| :: fields[i]
  {
    var n := if |fields| < |row| then |fields| else |row|;
    if n == 0 then map[]
    else
      var m := ZipDict(fields[..n - 1], row[..n - 1])[fields[n - 1] := row[n - 1]];
      assert forall i :: 0 <= i < n - 1 ==> fields[..n - 1][i] == fields[i];
      m
  }

  /** With distinct field names every field maps to the value at its own position. */
  lemma {:induction false} ZipDictAt<V>(fields: seq<string>, row: seq<V>, i: int)
    requires 0 <= i < |fields| && i < |row|
    requires forall a, b :: 0 <= a < b < |fields| ==> fields[a] != fields[b]
    ensures fields[i] in ZipDict(fields, row) && ZipDict(fields, row)[fields[i]] == row[i]
  {
    var n := if |fields| < |row| then |fields| else |row|;
    if i < n - 1 {
      ZipDictAt(fields[..n - 1], row[..n - 1], i);
    }
  }
}
