/** Sorting by a key of three integers compared lexicographically, as Python compares
    the tuples returned by a `key=` function. `SortBy` is a stable sort, as Python's
    `list.sort` is: elements with equal keys keep their input order. */
module Sorting {
  import opened Common

  /** A sort key `(first, second, third)`; smaller keys come first. */
  datatype Key = Key(first: int, second: int, third: int)

  /** Python's `a < b` on 3-tuples. */
  predicate Precedes(a: Key, b: Key) {
    a.first < b.first
    || (a.first == b.first && a.second < b.second)
    || (a.first == b.first && a.second == b.second && a.third < b.third)
  }

  /** Non-decreasing in `key`: no element is preceded by a later one. */
  ghost predicate SortedBy<T>(s: seq<T>, key: T -> Key) {
    forall i, j :: 0 <= i < j < |s| ==> !Precedes(key(s[j]), key(s[i]))
  }

  /** The filter that keeps exactly the elements whose key is `k`. */
  function HasKey<T>(key: T -> Key, k: Key): T -> bool {
    x => key(x) == k
  }

  /** Puts `x` into sorted `s` in front of the first element whose key is not smaller. */
  function Insert<T(==,!new)>(x: T, s: seq<T>, key: T -> Key): (r: seq<T>)
    requires SortedBy(s, key)
    ensures multiset(r) == multiset(s) + multiset{x}
    ensures forall y :: y in r ==> y == x || y in s
    ensures SortedBy(r, key)
  {
    if s == [] || !Precedes(key(s[0]), key(x)) then
      [x] + s
    else
      var rest := Insert(x, s[1..], key);
      assert s == [s[0]] + s[1..];
      assert forall y :: y in rest ==> !Precedes(key(y), key(s[0]));
      [s[0]] + rest
  }

  /** Insertion sort: a sorted permutation of `s`. */
  function SortBy<T(==,!new)>(s: seq<T>, key: T -> Key): (r: seq<T>)
    ensures multiset(r) == multiset(s)
    ensures SortedBy(r, key)
  {
    if s == [] then []
    else
      assert s == [s[0]] + s[1..];
      Insert(s[0], SortBy(s[1..], key), key)
  }

  /** Elements keyed `k` keep their relative order through `Insert`, and `x` goes in front of them. */
  lemma {:induction false} InsertFilterKey<T(!new)>(x: T, s: seq<T>, key: T -> Key, k: Key)
    requires SortedBy(s, key)
    ensures Filter(Insert(x, s, key), HasKey(key, k))
         == (if key(x) == k then [x] else []) + Filter(s, HasKey(key, k))
  {
    var p := HasKey(key, k);
    assert p(x) == (key(x) == k);
    if s == [] || !Precedes(key(s[0]), key(x)) {
      assert Insert(x, s, key) == [x] + s;
      assert ([x] + s)[1..] == s;
      assert Filter([x] + s, p) == (if p(x) then [x] else []) + Filter(s, p);
    } else {
      assert p(s[0]) == (key(s[0]) == k);
      var rest := Insert(x, s[1..], key);
      assert Insert(x, s, key) == [s[0]] + rest;
      InsertFilterKey(x, s[1..], key, k);
      assert key(s[0]) != key(x);
      assert ([s[0]] + rest)[1..] == rest;
      assert Filter([s[0]] + rest, p) == (if p(s[0]) then [s[0]] else []) + Filter(rest, p);
      assert Filter(s, p) == (if p(s[0]) then [s[0]] else []) + Filter(s[1..], p);
      if p(s[0]) {
        assert !p(x);
        assert Filter(rest, p) == Filter(s[1..], p);
        assert Filter(Insert(x, s, key), p) == [s[0]] + Filter(s[1..], p);
        assert Filter(s, p) == [s[0]] + Filter(s[1..], p);
      } else {
        assert Filter(s, p) == Filter(s[1..], p);
        assert Filter([s[0]] + rest, p) == Filter(rest, p);
      }
    }
  }

  /** `SortBy` is stable: the elements with any one key appear in their input order. */
  lemma {:induction false} SortByStable<T(!new)>(s: seq<T>, key: T -> Key, k: Key)
    ensures Filter(SortBy(s, key), HasKey(key, k)) == Filter(s, HasKey(key, k))
  {
    if s != [] {
      SortByStable(s[1..], key, k);
      InsertFilterKey(s[0], SortBy(s[1..], key), key, k);
    }
  }

  /** In a sorted list nothing after position `p` has a key smaller than the one at `p`. */
  lemma SortedAfter<T>(s: seq<T>, key: T -> Key, p: int)
    requires SortedBy(s, key) && 0 <= p < |s|
    ensures forall q :: p <= q < |s| ==> !Precedes(key(s[q]), key(s[p]))
  {
  }
}
