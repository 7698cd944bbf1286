/**
  Stable sorting by an integer key: what sort.SliceStable in Go and
  Array.prototype.sort in JavaScript promise. StableSort is one function with
  that promise, and StableSortIsUnique shows it is the only one.
 */
module Sorting {

  ghost predicate SortedBy<T>(s: seq<T>, key: T -> int) {
    forall i, j :: 0 <= i < j < |s| ==> key(s[i]) <= key(s[j])
  }

  /** The elements whose key is k, in the order in which they occur. */
  function Class<T>(s: seq<T>, key: T -> int, k: int): seq<T> {
    if s == [] then []
    else if key(s[0]) == k then [s[0]] + Class(s[1..], key, k)
    else Class(s[1..], key, k)
  }

  function Insert<T>(x: T, s: seq<T>, key: T -> int): seq<T> {
    if s == [] || key(x) <= key(s[0]) then [x] + s
    else [s[0]] + Insert(x, s[1..], key)
  }

  function StableSort<T>(s: seq<T>, key: T -> int): seq<T> {
    if s == [] then [] else Insert(s[0], StableSort(s[1..], key), key)
  }

  lemma {:induction false} InsertFacts<T>(x: T, s: seq<T>, key: T -> int)
    requires SortedBy(s, key)
    ensures SortedBy(Insert(x, s, key), key)
    ensures forall y :: y in Insert(x, s, key) <==> y == x || y in s
    ensures |Insert(x, s, key)| == |s| + 1
    ensures Insert(x, s, key)[0] == x || (s != [] && Insert(x, s, key)[0] == s[0])
  {
    if s != [] && key(x) > key(s[0]) {
      InsertFacts(x, s[1..], key);
      forall y ensures y in Insert(x, s, key) <==> y == x || y in s {
        assert s == [s[0]] + s[1..];
      }
    }
  }

  lemma {:induction false} InsertClass<T>(x: T, s: seq<T>, key: T -> int, k: int)
    ensures Class(Insert(x, s, key), key, k) == if key(x) == k then [x] + Class(s, key, k) else Class(s, key, k)
  {
    if s == [] || key(x) <= key(s[0]) {
      assert ([x] + s)[1..] == s;
    } else {
      InsertClass(x, s[1..], key, k);
      assert ([s[0]] + Insert(x, s[1..], key))[1..] == Insert(x, s[1..], key);
    }
  }

  /** StableSort sorts, and keeps elements of equal key in their order. */
  lemma {:induction false} StableSortFacts<T>(s: seq<T>, key: T -> int)
    ensures SortedBy(StableSort(s, key), key)
    ensures forall k :: Class(StableSort(s, key), key, k) == Class(s, key, k)
    ensures |StableSort(s, key)| == |s|
    ensures forall x :: x in StableSort(s, key) <==> x in s
  {
    if s != [] {
      StableSortFacts(s[1..], key);
      InsertFacts(s[0], StableSort(s[1..], key), key);
      forall k ensures Class(StableSort(s, key), key, k) == Class(s, key, k) {
        InsertClass(s[0], StableSort(s[1..], key), key, k);
      }
      assert s == [s[0]] + s[1..];
    }
  }

  lemma {:induction false} ClassMember<T>(s: seq<T>, key: T -> int, k: int)
    requires Class(s, key, k) != []
    ensures exists i :: 0 <= i < |s| && key(s[i]) == k
  {
    if key(s[0]) != k {
      ClassMember(s[1..], key, k);
      var i :| 0 <= i < |s[1..]| && key(s[1..][i]) == k;
      assert key(s[i + 1]) == k;
    }
  }

  lemma OwnClass<T>(s: seq<T>, key: T -> int)
    requires s != []
    ensures exists k :: Class(s, key, k) != []
  {
    assert Class(s, key, key(s[0])) != [];
  }

  /** Two sorted sequences with the same classes are the same sequence. */
  lemma {:induction false} StableSortIsUnique<T>(a: seq<T>, b: seq<T>, key: T -> int)
    requires SortedBy(a, key) && SortedBy(b, key)
    requires forall k :: Class(a, key, k) == Class(b, key, k)
    ensures a == b
  {
    if a == [] {
      if b != [] { OwnClass(b, key); }
    } else {
      var k := key(a[0]);
      assert Class(b, key, k) != [];
      ClassMember(b, key, k);
      ClassMember(a, key, key(b[0]));
      assert key(b[0]) == k;
      assert a[0] == Class(a, key, k)[0] == Class(b, key, k)[0] == b[0];
      forall j ensures Class(a[1..], key, j) == Class(b[1..], key, j) {
        assert Class(a, key, j) == Class(b, key, j);
        if j == k {
          assert Class(a[1..], key, j) == Class(a, key, j)[1..];
          assert Class(b[1..], key, j) == Class(b, key, j)[1..];
        }
      }
      StableSortIsUnique(a[1..], b[1..], key);
      assert a == [a[0]] + a[1..] && b == [b[0]] + b[1..];
    }
  }

  lemma SortingSortedIsIdentity<T>(s: seq<T>, key: T -> int)
    requires SortedBy(s, key)
    ensures StableSort(s, key) == s
  {
    StableSortFacts(s, key);
    StableSortIsUnique(StableSort(s, key), s, key);
  }

  lemma {:induction false} ClassAppend<T>(a: seq<T>, b: seq<T>, key: T -> int, k: int)
    ensures Class(a + b, key, k) == Class(a, key, k) + Class(b, key, k)
  {
    if a == [] {
      assert a + b == b;
    } else {
      assert (a + b)[1..] == a[1..] + b;
      ClassAppend(a[1..], b, key, k);
    }
  }
}
