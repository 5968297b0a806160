/**
 * Python's `list.sort(key=k, reverse=True)` on str keys: a stable sort into
 * non-increasing key order, where items with equal keys keep their original
 * relative order. The library call is given a reference definition
 * (insertion of each item behind every item whose key is not smaller) and
 * its properties are proved as lemmas.
 */
module Sorting {
  import opened PyStrings

  /** Keys never increase from left to right. */
  ghost predicate SortedDesc<T>(s: seq<T>, key: T -> string) {
    forall i, j | 0 <= i < j < |s| :: !StrLt(key(s[i]), key(s[j]))
  }

  /** No two elements share a `tag`. */
  ghost predicate DistinctBy<T>(s: seq<T>, tag: T -> string) {
    forall i, j | 0 <= i < j < |s| :: tag(s[i]) != tag(s[j])
  }

  /** The elements of `s` whose key is `k`, in their order in `s`. */
  function WithKey<T>(s: seq<T>, key: T -> string, k: string): seq<T> {
    if s == [] then []
    else (if key(s[0]) == k then [s[0]] else []) + WithKey(s[1..], key, k)
  }

  /** Places `x` behind every element of `s` whose key is not smaller than its own. */
  function Insert<T>(s: seq<T>, x: T, key: T -> string): (r: seq<T>)
    ensures |r| == |s| + 1
  {
    if s == [] then [x]
    else if StrLt(key(s[0]), key(x)) then [x] + s
    else [s[0]] + Insert(s[1..], x, key)
  }

  /** The list as `list.sort(key=key, reverse=True)` leaves it. */
  function SortDesc<T>(s: seq<T>, key: T -> string): (r: seq<T>)
    ensures |r| == |s|
  {
    if s == [] then []
    else Insert(SortDesc(s[..|s| - 1], key), s[|s| - 1], key)
  }

  lemma {:induction false} WithKeyAppend<T>(a: seq<T>, b: seq<T>, key: T -> string, k: string)
    ensures WithKey(a + b, key, k) == WithKey(a, key, k) + WithKey(b, key, k)
  {
    if a == [] {
      assert a + b == b;
    } else {
      var head := if key(a[0]) == k then [a[0]] else [];
      assert (a + b)[0] == a[0];
      assert (a + b)[1..] == a[1..] + b;
      calc {
        WithKey(a + b, key, k);
      ==
        head + WithKey(a[1..] + b, key, k);
      == { WithKeyAppend(a[1..], b, key, k); }
        head + (WithKey(a[1..], key, k) + WithKey(b, key, k));
      ==
        (head + WithKey(a[1..], key, k)) + WithKey(b, key, k);
      ==
        WithKey(a, key, k) + WithKey(b, key, k);
      }
    }
  }

  lemma {:induction false} WithKeyNone<T>(s: seq<T>, key: T -> string, k: string)
    requires forall i | 0 <= i < |s| :: key(s[i]) != k
    ensures WithKey(s, key, k) == []
  {
    if s != [] {
      WithKeyNone(s[1..], key, k);
    }
  }

  lemma {:induction false} InsertCount<T>(s: seq<T>, x: T, key: T -> string)
    ensures multiset(Insert(s, x, key)) == multiset(s) + multiset{x}
  {
    if s != [] && !StrLt(key(s[0]), key(x)) {
      assert s == [s[0]] + s[1..];
      InsertCount(s[1..], x, key);
    }
  }

  lemma {:induction false} InsertSorted<T>(s: seq<T>, x: T, key: T -> string)
    requires SortedDesc(s, key)
    ensures SortedDesc(Insert(s, x, key), key)
  {
    if s == [] {
    } else if StrLt(key(s[0]), key(x)) {
      var r := [x] + s;
      forall i, j | 0 <= i < j < |r| ensures !StrLt(key(r[i]), key(r[j])) {
        if i == 0 && StrLt(key(x), key(r[j])) {
          StrLtTransitive(key(s[0]), key(x), key(r[j]));
          if j == 1 {
            StrLtIrreflexive(key(s[0]));
          }
        }
      }
    } else {
      var t := Insert(s[1..], x, key);
      InsertSorted(s[1..], x, key);
      InsertCount(s[1..], x, key);
      var r := [s[0]] + t;
      forall i, j | 0 <= i < j < |r| ensures !StrLt(key(r[i]), key(r[j])) {
        if i == 0 {
          assert r[j] in multiset(t);
          assert r[j] == x || r[j] in s[1..];
        }
      }
    }
  }

  /** Inserting `x` appends it to the elements with its key and leaves the others' order alone. */
  lemma {:induction false} InsertWithKey<T>(s: seq<T>, x: T, key: T -> string, k: string)
    requires SortedDesc(s, key)
    ensures WithKey(Insert(s, x, key), key, k)
         == WithKey(s, key, k) + (if key(x) == k then [x] else [])
  {
    if s == [] {
    } else if StrLt(key(s[0]), key(x)) {
      assert Insert(s, x, key)[1..] == s;
      if key(x) == k {
        forall i | 0 <= i < |s| ensures key(s[i]) != k {
          if i == 0 {
            StrLtIrreflexive(key(x));
          }
        }
        WithKeyNone(s, key, k);
      }
    } else {
      var r, tail := Insert(s, x, key), if key(x) == k then [x] else [];
      var head := if key(s[0]) == k then [s[0]] else [];
      assert r[0] == s[0] && r[1..] == Insert(s[1..], x, key);
      assert SortedDesc(s[1..], key) by {
        forall i, j | 0 <= i < j < |s[1..]| ensures !StrLt(key(s[1..][i]), key(s[1..][j])) {
          assert s[1..][i] == s[i + 1] && s[1..][j] == s[j + 1];
        }
      }
      calc {
        WithKey(r, key, k);
      ==
        head + WithKey(Insert(s[1..], x, key), key, k);
      == { InsertWithKey(s[1..], x, key, k); }
        head + (WithKey(s[1..], key, k) + tail);
      ==
        (head + WithKey(s[1..], key, k)) + tail;
      ==
        WithKey(s, key, k) + tail;
      }
    }
  }

  lemma {:induction false} InsertDistinct<T>(s: seq<T>, x: T, key: T -> string, tag: T -> string)
    requires DistinctBy(s, tag)
    requires forall i | 0 <= i < |s| :: tag(s[i]) != tag(x)
    ensures DistinctBy(Insert(s, x, key), tag)
  {
    if s != [] && !StrLt(key(s[0]), key(x)) {
      var t := Insert(s[1..], x, key);
      InsertDistinct(s[1..], x, key, tag);
      InsertCount(s[1..], x, key);
      var r := [s[0]] + t;
      forall i, j | 0 <= i < j < |r| ensures tag(r[i]) != tag(r[j]) {
        if i == 0 {
          assert r[j] in multiset(t);
          if r[j] != x {
            assert r[j] in s[1..];
            var m :| 0 <= m < |s[1..]| && s[1..][m] == r[j];
            assert s[m + 1] == r[j];
          }
        }
      }
    }
  }

  lemma {:induction false} SortDescCount<T>(s: seq<T>, key: T -> string)
    ensures multiset(SortDesc(s, key)) == multiset(s)
  {
    if s != [] {
      var init := s[..|s| - 1];
      assert s == init + [s[|s| - 1]];
      SortDescCount(init, key);
      InsertCount(SortDesc(init, key), s[|s| - 1], key);
    }
  }

  /**
   * What `list.sort(key=key, reverse=True)` promises: the result is a
   * permutation of the input, its keys never increase, and elements with
   * equal keys keep their original relative order.
   */
  lemma {:induction false} SortDescSpec<T>(s: seq<T>, key: T -> string)
    ensures multiset(SortDesc(s, key)) == multiset(s)
    ensures |SortDesc(s, key)| == |s|
    ensures SortedDesc(SortDesc(s, key), key)
    ensures forall k :: WithKey(SortDesc(s, key), key, k) == WithKey(s, key, k)
  {
    SortDescCount(s, key);
    assert |multiset(SortDesc(s, key))| == |multiset(s)|;
    if s != [] {
      var init := s[..|s| - 1];
      var x := s[|s| - 1];
      assert s == init + [x];
      SortDescSpec(init, key);
      InsertSorted(SortDesc(init, key), x, key);
      forall k ensures WithKey(SortDesc(s, key), key, k) == WithKey(s, key, k) {
        InsertWithKey(SortDesc(init, key), x, key, k);
        WithKeyAppend(init, [x], key, k);
      }
    }
  }

  /** Sorting keeps elements distinct by any tag they were distinct by. */
  lemma {:induction false} SortDescDistinct<T>(s: seq<T>, key: T -> string, tag: T -> string)
    requires DistinctBy(s, tag)
    ensures DistinctBy(SortDesc(s, key), tag)
  {
    if s != [] {
      var init := s[..|s| - 1];
      var x := s[|s| - 1];
      var sorted := SortDesc(init, key);
      SortDescDistinct(init, key, tag);
      SortDescCount(init, key);
      forall i | 0 <= i < |sorted| ensures tag(sorted[i]) != tag(x) {
        assert sorted[i] in multiset(init);
        var m :| 0 <= m < |init| && init[m] == sorted[i];
        assert s[m] == sorted[i];
      }
      InsertDistinct(sorted, x, key, tag);
    }
  }
}
