/**
 * Descending sorts as the backend performs them: `Array.prototype.sort` with the
 * comparator `(a, b) => key(b) - key(a)`, and MongoDB's `.sort({ field: -1 })`.
 * Since ES2019 `Array.prototype.sort` is stable, so the model is a stable insertion
 * sort: of two elements with equal keys, the one that came first stays first
 * (SortDescStable).
 */
module Ordering {
  import opened Common

  ghost predicate SortedDesc<T>(s: seq<T>, key: T -> real)
  {
    forall i, j :: 0 <= i < j < |s| ==> key(s[i]) >= key(s[j])
  }

  /** Puts `x` in front of the first element whose key is not larger than its own. */
  function Insert<T>(x: T, s: seq<T>, key: T -> real): (r: seq<T>)
    ensures |r| == |s| + 1
    ensures multiset(r) == multiset(s) + multiset{x}
    ensures r[0] == x || (s != [] && r[0] == s[0])
    ensures SortedDesc(s, key) ==> SortedDesc(r, key)
  {
    if s == [] then [x]
    else if key(s[0]) <= key(x) then [x] + s
    else
      var rest := Insert(x, s[1..], key);
      assert s == [s[0]] + s[1..];
      var r := [s[0]] + rest;
      assert SortedDesc(s, key) ==> SortedDesc(r, key) by {
        if SortedDesc(s, key) {
          HeadBoundsInserted(x, s, rest, key);
        }
      }
      r
  }

  /** The step of Insert that keeps the head: the head's key bounds every key after it. */
  lemma HeadBoundsInserted<T>(x: T, s: seq<T>, rest: seq<T>, key: T -> real)
    requires s != [] && SortedDesc(s, key) && key(s[0]) > key(x)
    requires multiset(rest) == multiset(s[1..]) + multiset{x}
    requires SortedDesc(s[1..], key) ==> SortedDesc(rest, key)
    ensures SortedDesc([s[0]] + rest, key)
  {
    forall j | 0 <= j < |rest| ensures key(s[0]) >= key(rest[j]) {
      assert rest[j] in multiset(rest);
      if rest[j] != x {
        assert rest[j] in multiset(s[1..]);
        var k :| 0 <= k < |s[1..]| && s[1..][k] == rest[j];
        assert s[k + 1] == rest[j];
      }
    }
    assert SortedDesc(s[1..], key);
    var r := [s[0]] + rest;
    forall i, j | 0 <= i < j < |r| ensures key(r[i]) >= key(r[j]) {
      assert r[j] == rest[j - 1];
      if i > 0 {
        assert r[i] == rest[i - 1];
      }
    }
  }

  lemma MultisetMember<T>(a: seq<T>, b: seq<T>, x: T)
    requires multiset(a) == multiset(b) && x in a
    ensures x in b
  {
    assert x in multiset(a);
  }

  /** Two sequences with the same multiset have the same elements. */
  lemma SameElements<T>(a: seq<T>, b: seq<T>)
    requires multiset(a) == multiset(b)
    ensures forall x :: x in a <==> x in b
  {
    forall x ensures x in a <==> x in b {
      assert x in a <==> x in multiset(a);
      assert x in b <==> x in multiset(b);
    }
  }

  /** The elements of `s`, ordered by non-increasing key, ties in their original order. */
  function SortDesc<T>(s: seq<T>, key: T -> real): (r: seq<T>)
    ensures |r| == |s|
    ensures multiset(r) == multiset(s)
    ensures SortedDesc(r, key)
  {
    if s == [] then []
    else
      assert s == [s[0]] + s[1..];
      Insert(s[0], SortDesc(s[1..], key), key)
  }

  /** Sorting neither adds nor drops an element. */
  lemma SortDescMembers<T>(s: seq<T>, key: T -> real)
    ensures forall i :: 0 <= i < |s| ==> SortDesc(s, key)[i] in s
    ensures forall i :: 0 <= i < |s| ==> s[i] in SortDesc(s, key)
  {
    var r := SortDesc(s, key);
    forall i | 0 <= i < |s| ensures r[i] in s {
      MultisetMember(r, s, r[i]);
    }
    forall i | 0 <= i < |s| ensures s[i] in r {
      MultisetMember(s, r, s[i]);
    }
  }

  /** The elements whose key is `k`, in their order in `s`. */
  function WithKey<T>(s: seq<T>, key: T -> real, k: real): seq<T>
  {
    if s == [] then [] else (if key(s[0]) == k then [s[0]] else []) + WithKey(s[1..], key, k)
  }

  lemma WithKeyCons<T>(x: T, s: seq<T>, key: T -> real, k: real)
    ensures WithKey([x] + s, key, k) == (if key(x) == k then [x] else []) + WithKey(s, key, k)
  {
    assert ([x] + s)[1..] == s;
  }

  /** Insert passes only elements with a larger key, so among equal keys `x` comes first. */
  lemma {:induction false} InsertStable<T>(x: T, s: seq<T>, key: T -> real, k: real)
    ensures WithKey(Insert(x, s, key), key, k) == WithKey([x] + s, key, k)
  {
    if s != [] && key(s[0]) > key(x) {
      InsertStable(x, s[1..], key, k);
      InsertUnfold(x, s, key);
      PassLarger(x, s[0], s[1..], Insert(x, s[1..], key), key, k);
      assert s == [s[0]] + s[1..];
    } else {
      InsertFront(x, s, key);
    }
  }

  /** Moving `x` past an element with a larger key does not change the order among equal keys. */
  lemma PassLarger<T>(x: T, y: T, s: seq<T>, rest: seq<T>, key: T -> real, k: real)
    requires key(y) > key(x)
    requires WithKey(rest, key, k) == WithKey([x] + s, key, k)
    ensures WithKey([y] + rest, key, k) == WithKey([x] + ([y] + s), key, k)
  {
    WithKeyCons(y, rest, key, k);
    WithKeyCons(x, s, key, k);
    WithKeyCons(x, [y] + s, key, k);
    WithKeyCons(y, s, key, k);
  }

  lemma InsertUnfold<T>(x: T, s: seq<T>, key: T -> real)
    requires s != [] && key(s[0]) > key(x)
    ensures Insert(x, s, key) == [s[0]] + Insert(x, s[1..], key)
  {
  }

  lemma InsertFront<T>(x: T, s: seq<T>, key: T -> real)
    requires s == [] || key(s[0]) <= key(x)
    ensures Insert(x, s, key) == [x] + s
  {
  }

  /**
   * The sort is stable: the elements with any one key come out exactly as they
   * came in, in their original order.
   */
  lemma {:induction false} SortDescStable<T>(s: seq<T>, key: T -> real, k: real)
    ensures WithKey(SortDesc(s, key), key, k) == WithKey(s, key, k)
  {
    if s != [] {
      var t := SortDesc(s[1..], key);
      SortDescStable(s[1..], key, k);
      InsertStable(s[0], t, key, k);
      WithKeyCons(s[0], t, key, k);
      WithKeyCons(s[0], s[1..], key, k);
      assert s == [s[0]] + s[1..];
    }
  }

  /** A projection of the inserted sequence holds the projected element once more. */
  lemma {:induction false} MapInsert<T, U>(x: T, s: seq<T>, key: T -> real, f: T -> U)
    ensures multiset(MapSeq(Insert(x, s, key), f)) == multiset(MapSeq(s, f)) + multiset{f(x)}
  {
    if s != [] && key(s[0]) > key(x) {
      MapInsert(x, s[1..], key, f);
      assert Insert(x, s, key) == [s[0]] + Insert(x, s[1..], key);
      assert MapSeq([s[0]] + Insert(x, s[1..], key), f) == [f(s[0])] + MapSeq(Insert(x, s[1..], key), f);
      assert MapSeq(s, f) == [f(s[0])] + MapSeq(s[1..], f);
    } else if s != [] {
      assert MapSeq([x] + s, f) == [f(x)] + MapSeq(s, f);
    }
  }

  /** Sorting reorders, so any projection of the sorted sequence is a permutation of the projected input. */
  lemma {:induction false} MapSortDesc<T, U>(s: seq<T>, key: T -> real, f: T -> U)
    ensures multiset(MapSeq(SortDesc(s, key), f)) == multiset(MapSeq(s, f))
  {
    if s != [] {
      MapSortDesc(s[1..], key, f);
      MapInsert(s[0], SortDesc(s[1..], key), key, f);
      assert MapSeq(s, f) == [f(s[0])] + MapSeq(s[1..], f);
    }
  }

  /**
   * Cutting a sorted sequence keeps the best: no element left out has a larger key
   * than an element kept (`.sort(...).slice(0, n)`).
   */
  lemma TakeKeepsLargest<T>(s: seq<T>, key: T -> real, n: nat)
    requires SortedDesc(s, key)
    ensures SortedDesc(Take(s, n), key)
    ensures forall i, j :: 0 <= i < |Take(s, n)| <= j < |s| ==> key(Take(s, n)[i]) >= key(s[j])
  {
  }

  /**
   * `.sort({ key: -1 }).limit(n)`: the `n` elements with the largest keys, largest
   * first. Nothing is invented, and nothing left out beats anything kept.
   */
  function TopN<T(!new)>(s: seq<T>, key: T -> real, n: nat): (r: seq<T>)
    ensures |r| == Min(|s|, n)
    ensures SortedDesc(r, key)
    ensures multiset(r) <= multiset(s)
    ensures forall x :: x in r ==> x in s
    ensures forall x :: x in s && x !in r ==> forall y :: y in r ==> key(y) >= key(x)
  {
    var sorted := SortDesc(s, key);
    TakeKeepsLargest(sorted, key, n);
    var r := Take(sorted, n);
    assert sorted == r + sorted[|r|..];
    assert multiset(sorted) == multiset(r) + multiset(sorted[|r|..]);
    SameElements(sorted, s);
    assert forall x :: x in s && x !in r ==> forall y :: y in r ==> key(y) >= key(x) by {
      forall x, y | x in s && x !in r && y in r ensures key(y) >= key(x) {
        assert x in multiset(sorted);
        var j :| 0 <= j < |sorted| && sorted[j] == x;
        var i :| 0 <= i < |r| && r[i] == y;
        assert j >= |r|;
      }
    }
    r
  }
}
