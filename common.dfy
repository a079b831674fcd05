/** Values shared by the whole model: optional JSON fields, Python truthiness,
    and the two list idioms the script relies on, `next(...)` over a generator
    and a list comprehension with a filter. */
module Common {

  datatype Option<T> = None | Some(value: T)

  /** The one failure the model carries: `[0]` on a list that is present but empty. */
  datatype Error = IndexError

  datatype Result<T> = Success(value: T) | Failure(error: Error)

  /** A string-valued JSON field that may be absent or null (Python `None`). */
  type Name = Option<string>

  /** Python truthiness of an optional string: present and non-empty. */
  predicate Truthy(s: Name) {
    s.Some? && s.value != ""
  }

  /** Python `v or 0` on an optional number: absent and zero both give 0. */
  function OrZero(v: Option<int>): int {
    if v.Some? && v.value != 0 then v.value else 0
  }

  function Min(a: int, b: int): int {
    if a <= b then a else b
  }

  /** `next((x for x in s if p(x)), None)`: the first element satisfying `p`, or `None`. */
  function First<T>(s: seq<T>, p: T -> bool): (r: Option<T>)
    ensures r.None? <==> forall i :: 0 <= i < |s| ==> !p(s[i])
    ensures r.Some? ==> exists i :: FirstAt(s, p, i) && s[i] == r.value
  {
    if s == [] then None
    else if p(s[0]) then (assert FirstAt(s, p, 0); Some(s[0]))
    else
      var r := First(s[1..], p);
      assert forall i :: 0 < i <= |s| && NoneBefore(s[1..], p, i - 1) ==> NoneBefore(s, p, i);
      r
  }

  /** `First` returns the element at the first index that satisfies `p`. */
  lemma FirstIsAt<T>(s: seq<T>, p: T -> bool, i: int)
    requires FirstAt(s, p, i)
    ensures First(s, p) == Some(s[i])
  {
    var r := First(s, p);
    assert p(s[i]);
    assert r.Some?;
    var k :| FirstAt(s, p, k) && s[k] == r.value;
    assert NoneBefore(s, p, i) && NoneBefore(s, p, k);
    assert k == i;
  }

  /** Index `i` holds the first element of `s` satisfying `p`. */
  predicate FirstAt<T>(s: seq<T>, p: T -> bool, i: int) {
    0 <= i < |s| && p(s[i]) && NoneBefore(s, p, i)
  }

  /** No element of `s` before index `k` satisfies `p`. */
  predicate NoneBefore<T>(s: seq<T>, p: T -> bool, k: int)
    requires 0 <= k <= |s|
  {
    forall j :: 0 <= j < k ==> !p(s[j])
  }

  /** The first position at which `x` occurs in `s`. */
  function IndexOf<T(==)>(s: seq<T>, x: T): (i: nat)
    requires x in s
    ensures i < |s| && s[i] == x
    ensures forall j :: 0 <= j < i ==> s[j] != x
  {
    if s[0] == x then 0 else 1 + IndexOf(s[1..], x)
  }

  /** `[x for x in s if p(x)]`: every element satisfying `p`, as often as it occurs, and nothing else. */
  function Filter<T(==,!new)>(s: seq<T>, p: T -> bool): (r: seq<T>)
    ensures |r| <= |s|
  {
    if s == [] then []
    else (if p(s[0]) then [s[0]] else []) + Filter(s[1..], p)
  }

  /** A filter keeps each element that passes as often as the input has it, and drops the rest. */
  lemma {:induction false} FilterMultiset<T(!new)>(s: seq<T>, p: T -> bool)
    ensures forall x :: multiset(Filter(s, p))[x] == if p(x) then multiset(s)[x] else 0
  {
    if s != [] {
      FilterMultiset(s[1..], p);
      assert s == [s[0]] + s[1..];
    }
  }

  /** Filtering keeps the order of the input: it distributes over concatenation. */
  lemma {:induction false} FilterAppend<T(!new)>(a: seq<T>, b: seq<T>, p: T -> bool)
    ensures Filter(a + b, p) == Filter(a, p) + Filter(b, p)
  {
    if a == [] {
      assert a + b == b;
    } else {
      var head := if p(a[0]) then [a[0]] else [];
      assert (a + b)[0] == a[0];
      assert (a + b)[1..] == a[1..] + b;
      assert Filter(a + b, p) == head + Filter(a[1..] + b, p);
      FilterAppend(a[1..], b, p);
      assert Filter(a, p) == head + Filter(a[1..], p);
      assert head + (Filter(a[1..], p) + Filter(b, p)) == (head + Filter(a[1..], p)) + Filter(b, p);
    }
  }

  /** Filtering drops exactly the elements that fail `p`: none pass gives `[]`, all pass gives `s`. */
  lemma {:induction false} FilterExtremes<T(!new)>(s: seq<T>, p: T -> bool)
    ensures (forall i :: 0 <= i < |s| ==> !p(s[i])) ==> Filter(s, p) == []
    ensures (forall i :: 0 <= i < |s| ==> p(s[i])) ==> Filter(s, p) == s
  {
    if s != [] {
      FilterExtremes(s[1..], p);
      assert forall i :: 1 <= i < |s| ==> s[1..][i - 1] == s[i];
      assert s == [s[0]] + s[1..];
    }
  }

  /** Elements of a filtered list come from the input and satisfy the filter. */
  lemma FilterMember<T(!new)>(s: seq<T>, p: T -> bool, x: T)
    ensures x in Filter(s, p) <==> x in s && p(x)
  {
    FilterMultiset(s, p);
    assert x in Filter(s, p) <==> multiset(Filter(s, p))[x] > 0;
    assert x in s <==> multiset(s)[x] > 0;
  }

  /** Two lists with the same elements (a permutation) have filters of the same length. */
  lemma FilterPermutation<T(!new)>(a: seq<T>, b: seq<T>, p: T -> bool)
    requires multiset(a) == multiset(b)
    ensures multiset(Filter(a, p)) == multiset(Filter(b, p))
    ensures |Filter(a, p)| == |Filter(b, p)|
  {
    FilterMultiset(a, p);
    FilterMultiset(b, p);
    assert |multiset(Filter(a, p))| == |Filter(a, p)|;
    assert |multiset(Filter(b, p))| == |Filter(b, p)|;
  }

  /** A prefix one longer is the shorter prefix followed by the next element. */
  lemma SliceSnoc<T>(s: seq<T>, j: int)
    requires 0 <= j < |s|
    ensures s[..j + 1] == s[..j] + [s[j]]
  {
  }

  /** The concatenation of `f(x)` over `xs`, in order. */
  function FlatMap<A, B>(xs: seq<A>, f: A -> seq<B>): seq<B> {
    if xs == [] then [] else FlatMap(xs[..|xs| - 1], f) + f(xs[|xs| - 1])
  }

  /** The total length of `f(x)` over `xs`. */
  function FlatLength<A, B>(xs: seq<A>, f: A -> seq<B>): nat {
    if xs == [] then 0 else FlatLength(xs[..|xs| - 1], f) + |f(xs[|xs| - 1])|
  }

  lemma {:induction false} FlatMapLength<A, B>(xs: seq<A>, f: A -> seq<B>)
    ensures |FlatMap(xs, f)| == FlatLength(xs, f)
  {
    if xs != [] {
      FlatMapLength(xs[..|xs| - 1], f);
    }
  }

  /** A prefix one longer adds the next element's part. */
  lemma FlatMapSnoc<A, B>(xs: seq<A>, f: A -> seq<B>, i: int)
    requires 0 <= i < |xs|
    ensures FlatMap(xs[..i + 1], f) == FlatMap(xs[..i], f) + f(xs[i])
  {
    assert xs[..i + 1][..i] == xs[..i];
  }

  /** Element `e` of the part of `xs[c]` sits right after the parts of the elements before `c`. */
  lemma {:induction false} FlatMapAt<A, B>(xs: seq<A>, f: A -> seq<B>, c: int, e: int)
    requires 0 <= c < |xs| && 0 <= e < |f(xs[c])|
    ensures FlatLength(xs[..c], f) + e < |FlatMap(xs, f)|
    ensures FlatMap(xs, f)[FlatLength(xs[..c], f) + e] == f(xs[c])[e]
  {
    var n := |xs| - 1;
    var pre := xs[..n];
    FlatMapLength(pre, f);
    FlatMapLength(xs, f);
    if c < n {
      assert pre[c] == xs[c];
      assert pre[..c] == xs[..c];
      FlatMapAt(pre, f, c, e);
    } else {
      assert xs[..c] == pre;
    }
  }
}
