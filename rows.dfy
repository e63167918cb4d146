/**
 * Row sequences as the tables of an embedded relational store: a column is a
 * projection `key: T -> int`, `WHERE key = k` selects rows, `DELETE ... WHERE
 * key = k` drops them, and `COUNT(*)` counts them. Table order is the order of
 * insertion.
 */
module Rows {

  /** Some row has `key == k` (a `SELECT ... WHERE key = k` that returns a row). */
  predicate HasKey<T(==,!new)>(s: seq<T>, key: T -> int, k: int) {
    exists x :: x in s && key(x) == k
  }

  /** `SELECT * WHERE key = k`, in table order. */
  function Only<T(==,!new)>(s: seq<T>, key: T -> int, k: int): (r: seq<T>)
    ensures |r| <= |s|
    ensures forall x :: x in r <==> x in s && key(x) == k
    decreases |s|
  {
    if s == [] then []
    else (if key(s[0]) == k then [s[0]] else []) + Only(s[1..], key, k)
  }

  /** `DELETE WHERE key = k`: the rows that remain, in table order. */
  function Without<T(==,!new)>(s: seq<T>, key: T -> int, k: int): (r: seq<T>)
    ensures |r| <= |s|
    ensures forall x :: x in r <==> x in s && key(x) != k
    decreases |s|
  {
    if s == [] then []
    else (if key(s[0]) == k then [] else [s[0]]) + Without(s[1..], key, k)
  }

  /** `SELECT COUNT(*) WHERE key = k`. */
  function Count<T(==,!new)>(s: seq<T>, key: T -> int, k: int): nat {
    |Only(s, key, k)|
  }

  /** No two rows share a value of the column `key` (a primary key). */
  ghost predicate DistinctKeys<T(!new)>(s: seq<T>, key: T -> int) {
    forall i, j :: 0 <= i < j < |s| ==> key(s[i]) != key(s[j])
  }

  /** Every value of the column `key` is below `bound` (row ids handed out so far). */
  ghost predicate AllBelow<T(!new)>(s: seq<T>, key: T -> int, bound: int) {
    forall x :: x in s ==> key(x) < bound
  }

  /** Selecting on an appended row adds it exactly when it matches. */
  lemma {:induction false} OnlyAppend<T(!new)>(s: seq<T>, x: T, key: T -> int, k: int)
    ensures Only(s + [x], key, k) == Only(s, key, k) + (if key(x) == k then [x] else [])
    decreases |s|
  {
    if s == [] {
      assert Only([x], key, k) == (if key(x) == k then [x] else []) + Only([], key, k);
    } else {
      assert (s + [x])[1..] == s[1..] + [x];
      OnlyAppend(s[1..], x, key, k);
    }
  }

  /** Deleting the rows with `key == k` leaves the rows of every other key value exactly as they were. */
  lemma {:induction false} WithoutKeepsOthers<T(!new)>(s: seq<T>, key: T -> int, k: int, other: int)
    requires other != k
    ensures Only(Without(s, key, k), key, other) == Only(s, key, other)
    decreases |s|
  {
    if s != [] {
      WithoutKeepsOthers(s[1..], key, k, other);
      var head := if key(s[0]) == k then [] else [s[0]];
      assert Without(s, key, k) == head + Without(s[1..], key, k);
      OnlyConcat(head, Without(s[1..], key, k), key, other);
    }
  }

  /** Deleting the rows with `key == k` leaves none with that key. */
  lemma WithoutCount<T(!new)>(s: seq<T>, key: T -> int, k: int)
    ensures Count(Without(s, key, k), key, k) == 0
  {
    if Only(Without(s, key, k), key, k) != [] {
      var x := Only(Without(s, key, k), key, k)[0];
      assert x in Only(Without(s, key, k), key, k);
    }
  }

  lemma {:induction false} OnlyConcat<T(!new)>(a: seq<T>, b: seq<T>, key: T -> int, k: int)
    ensures Only(a + b, key, k) == Only(a, key, k) + Only(b, key, k)
    decreases |a|
  {
    if a == [] {
      assert a + b == b;
    } else {
      assert (a + b)[1..] == a[1..] + b;
      OnlyConcat(a[1..], b, key, k);
    }
  }

  /** Deleting rows keeps a primary key a primary key, whatever column the delete selects on. */
  lemma {:induction false} WithoutKeepsDistinct<T(!new)>(s: seq<T>, sel: T -> int, k: int, key: T -> int)
    requires DistinctKeys(s, key)
    ensures DistinctKeys(Without(s, sel, k), key)
    decreases |s|
  {
    if s != [] {
      var tail := s[1..];
      assert DistinctKeys(tail, key) by {
        forall i, j | 0 <= i < j < |tail| ensures key(tail[i]) != key(tail[j]) {
          assert tail[i] == s[i + 1] && tail[j] == s[j + 1];
        }
      }
      WithoutKeepsDistinct(tail, sel, k, key);
      var rest := Without(tail, sel, k);
      forall y | y in rest ensures key(y) != key(s[0]) {
        var j :| 0 <= j < |tail| && tail[j] == y;
        assert s[j + 1] == y;
      }
      if sel(s[0]) != k {
        var r := [s[0]] + rest;
        forall i, j | 0 <= i < j < |r| ensures key(r[i]) != key(r[j]) {
          if i == 0 {
            assert r[j] == rest[j - 1];
            assert r[j] in rest;
          } else {
            assert r[i] == rest[i - 1] && r[j] == rest[j - 1];
          }
        }
      } else {
        assert Without(s, sel, k) == rest;
      }
    }
  }

  /** Appending a row whose key is new keeps the key primary. */
  lemma AppendKeepsDistinct<T(!new)>(s: seq<T>, x: T, key: T -> int)
    requires DistinctKeys(s, key)
    requires !HasKey(s, key, key(x))
    ensures DistinctKeys(s + [x], key)
  {
    var r := s + [x];
    forall i, j | 0 <= i < j < |r| ensures key(r[i]) != key(r[j]) {
      if j == |s| {
        assert r[i] in s;
      } else {
        assert r[i] == s[i] && r[j] == s[j];
      }
    }
  }

  /** Appending a row with key `bound` to a table whose keys are all below `bound`. */
  lemma AppendFresh<T(!new)>(s: seq<T>, x: T, key: T -> int, bound: int)
    requires DistinctKeys(s, key) && AllBelow(s, key, bound) && key(x) == bound
    ensures DistinctKeys(s + [x], key) && AllBelow(s + [x], key, bound + 1)
  {
    AppendKeepsDistinct(s, x, key);
  }
}
