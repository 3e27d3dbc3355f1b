/**
  `list.sort(key=lambda item: str(item[0]))`: a stable sort of bookmark triples by key.
 */
module Ordering {
  import opened Text
  import opened Registry

  predicate SortedByKey(s: seq<Item>) {
    forall i, j {:trigger StrLe(s[i].key, s[j].key)} :: 0 <= i < j < |s| ==> StrLe(s[i].key, s[j].key)
  }

  /** Puts `x` in front of the first element whose key is not smaller than its own. */
  function Insert(x: Item, s: seq<Item>): (r: seq<Item>)
    ensures multiset(r) == multiset(s) + multiset{x}
    ensures |r| == |s| + 1
  {
    if s == [] || StrLe(x.key, s[0].key) then [x] + s
    else
      assert s == [s[0]] + s[1..];
      [s[0]] + Insert(x, s[1..])
  }

  lemma {:induction false} InsertSorted(x: Item, s: seq<Item>)
    requires SortedByKey(s)
    ensures SortedByKey(Insert(x, s))
  {
    if s == [] || StrLe(x.key, s[0].key) {
      forall j | 0 <= j < |s|
        ensures StrLe(x.key, s[j].key)
      {
        if j > 0 {
          StrLeTrans(x.key, s[0].key, s[j].key);
        }
      }
    } else {
      StrLeTotal(x.key, s[0].key);
      InsertSorted(x, s[1..]);
      var t := Insert(x, s[1..]);
      forall j | 0 <= j < |t|
        ensures StrLe(s[0].key, t[j].key)
      {
        assert t[j] in multiset(t);
        if t[j] != x {
          assert t[j] in s[1..];
          var k :| 1 <= k < |s| && s[k] == t[j];
        }
      }
      assert Insert(x, s) == [s[0]] + t;
    }
  }

  /** The stable sort by key: a permutation of its input. */
  function SortByKey(s: seq<Item>): (r: seq<Item>)
    ensures multiset(r) == multiset(s) && |r| == |s|
  {
    if s == [] then []
    else
      assert s == [s[0]] + s[1..];
      Insert(s[0], SortByKey(s[1..]))
  }

  /** The sort's result is sorted by key. */
  lemma {:induction false} SortByKeySorts(s: seq<Item>)
    ensures SortedByKey(SortByKey(s))
  {
    if s != [] {
      SortByKeySorts(s[1..]);
      InsertSorted(s[0], SortByKey(s[1..]));
    }
  }

  /** Sorting a list that is already sorted by key leaves it as it is. */
  lemma {:induction false} SortSortedIsIdentity(s: seq<Item>)
    requires SortedByKey(s)
    ensures SortByKey(s) == s
  {
    if s != [] {
      assert SortedByKey(s[1..]);
      SortSortedIsIdentity(s[1..]);
      assert s == [s[0]] + s[1..];
    }
  }

  /** The items of `s` whose key is `k`, in their order in `s`. */
  function WithKey(s: seq<Item>, k: string): seq<Item> {
    if s == [] then [] else (if s[0].key == k then [s[0]] else []) + WithKey(s[1..], k)
  }

  lemma {:induction false} InsertKeepsRuns(x: Item, s: seq<Item>, k: string)
    ensures WithKey(Insert(x, s), k) == (if x.key == k then [x] else []) + WithKey(s, k)
  {
    if s == [] || StrLe(x.key, s[0].key) {
      assert Insert(x, s) == [x] + s;
      assert ([x] + s)[1..] == s;
    } else {
      StrLeRefl(x.key);
      assert s[0].key != x.key;
      var t := Insert(x, s[1..]);
      InsertKeepsRuns(x, s[1..], k);
      assert Insert(x, s) == [s[0]] + t;
      assert ([s[0]] + t)[1..] == t;
      assert WithKey(Insert(x, s), k) == (if s[0].key == k then [s[0]] else []) + WithKey(t, k);
      assert WithKey(s, k) == (if s[0].key == k then [s[0]] else []) + WithKey(s[1..], k);
    }
  }

  /** Stability: items with equal keys keep their relative order. */
  lemma {:induction false} SortIsStable(s: seq<Item>, k: string)
    ensures WithKey(SortByKey(s), k) == WithKey(s, k)
  {
    if s != [] {
      SortIsStable(s[1..], k);
      InsertKeepsRuns(s[0], SortByKey(s[1..]), k);
    }
  }
}
