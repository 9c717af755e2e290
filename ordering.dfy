/**
 * What the document store does when a query has `.sort(...)` or no sort at all:
 * a cursor hands documents out in some order, and a sort on an integer key orders them.
 */
module Ordering {

  /** `s` is ordered by `key`, smallest key first (ties in any order). */
  ghost predicate SortedBy<T>(s: seq<T>, key: T -> int) {
    forall i, j :: 0 <= i < j < |s| ==> key(s[i]) <= key(s[j])
  }

  /** Inserts `x` into the sorted `s` before the first element with a larger-or-equal key. */
  function InsertBy<T>(x: T, s: seq<T>, key: T -> int): (r: seq<T>)
    requires SortedBy(s, key)
    ensures SortedBy(r, key)
    ensures multiset(r) == multiset(s) + multiset{x}
  {
    if |s| == 0 || key(x) <= key(s[0]) then
      [x] + s
    else
      var rest := InsertBy(x, s[1..], key);
      assert s == [s[0]] + s[1..];
      assert multiset(s) == multiset{s[0]} + multiset(s[1..]);
      assert forall i :: 0 <= i < |rest| ==> key(s[0]) <= key(rest[i]) by {
        forall i | 0 <= i < |rest| ensures key(s[0]) <= key(rest[i]) {
          assert rest[i] in multiset(rest);
          if rest[i] != x {
            assert rest[i] in s[1..];
          }
        }
      }
      [s[0]] + rest
  }

  /** Sorts `s` by `key`: the result is ordered and holds exactly the elements of `s`. */
  function SortBy<T>(s: seq<T>, key: T -> int): (r: seq<T>)
    ensures SortedBy(r, key)
    ensures multiset(r) == multiset(s)
  {
    if |s| == 0 then
      []
    else
      assert s == [s[0]] + s[1..];
      InsertBy(s[0], SortBy(s[1..], key), key)
  }

  /**
   * A cursor over the keys of `m`: every key exactly once, in an order the store chooses.
   */
  method KeysOf<K, V>(m: map<K, V>) returns (ks: seq<K>)
    ensures forall k :: k in ks <==> k in m
    ensures forall i, j :: 0 <= i < j < |ks| ==> ks[i] != ks[j]
  {
    ks := [];
    var rest := m.Keys;
    while rest != {}
      invariant rest <= m.Keys
      invariant forall k :: k in ks <==> k in m && k !in rest
      invariant forall i, j :: 0 <= i < j < |ks| ==> ks[i] != ks[j]
      decreases rest
    {
      var k :| k in rest;
      ks := ks + [k];
      rest := rest - {k};
    }
  }

  /** No element occurs twice in `s`. */
  ghost predicate Distinct<T>(s: seq<T>) {
    forall i, j :: 0 <= i < j < |s| ==> s[i] != s[j]
  }

  /** In a sequence without repetitions every element occurs at most once. */
  lemma {:induction false} DistinctCountsAtMostOne<T>(s: seq<T>, x: T)
    requires Distinct(s)
    ensures multiset(s)[x] <= 1
  {
    if |s| > 0 {
      assert s == [s[0]] + s[1..];
      DistinctCountsAtMostOne(s[1..], x);
      if x == s[0] {
        assert x !in s[1..];
      }
    }
  }

  /** Reordering a sequence without repetitions gives a sequence without repetitions. */
  lemma DistinctPermutation<T>(s: seq<T>, t: seq<T>)
    requires multiset(s) == multiset(t) && Distinct(s)
    ensures Distinct(t)
  {
    forall i, j | 0 <= i < j < |t| ensures t[i] != t[j] {
      if t[i] == t[j] {
        assert t == t[..j] + t[j..];
        assert t[i] in t[..j];
        assert t[j] in t[j..];
        assert multiset(t)[t[i]] == multiset(t[..j])[t[i]] + multiset(t[j..])[t[i]];
        DistinctCountsAtMostOne(s, t[i]);
        assert false;
      }
    }
  }

  /** A sequence listing every element of a finite set exactly once has the set's size. */
  lemma {:induction false} DistinctKeysCount<K>(ks: seq<K>, keys: set<K>)
    requires Distinct(ks)
    requires forall k :: k in ks <==> k in keys
    ensures |ks| == |keys|
  {
    if |ks| > 0 {
      var last := ks[|ks| - 1];
      var front := ks[..|ks| - 1];
      forall k | k in front ensures k in keys - {last} {
        var i :| 0 <= i < |front| && front[i] == k;
        assert ks[i] == k;
      }
      forall k | k in keys - {last} ensures k in front {
        var i :| 0 <= i < |ks| && ks[i] == k;
        assert front[i] == k;
      }
      DistinctKeysCount(front, keys - {last});
    } else {
      assert forall k :: k !in ks;
      assert forall k :: k !in keys;
      assert keys == {};
    }
  }
}
