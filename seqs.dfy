/** Sequence helpers: duplicate-freedom, element sets, filtering and flattening. */
module Seqs {

  /** No element occurs twice. */
  predicate NoDup<T(==)>(s: seq<T>)
  {
    forall i, j :: 0 <= i < j < |s| ==> s[i] != s[j]
  }

  /** The set of elements of a sequence. */
  function Elems<T>(s: seq<T>): set<T>
  {
    set x | x in s
  }

  lemma ElemsHead<T>(s: seq<T>)
    ensures s == [] || s[0] in Elems(s)
  {
  }

  lemma ElemsSnoc<T>(s: seq<T>, x: T)
    ensures Elems(s + [x]) == Elems(s) + {x}
  {
  }

  lemma ElemsAppend<T>(a: seq<T>, b: seq<T>)
    ensures Elems(a + b) == Elems(a) + Elems(b)
  {
  }

  /** The concatenation of `f(x)` over the elements `x` of `xs`, in order. */
  function ConcatMap<T, U>(f: T -> seq<U>, xs: seq<T>): seq<U>
  {
    if xs == [] then [] else ConcatMap(f, xs[..|xs| - 1]) + f(xs[|xs| - 1])
  }

  lemma ConcatMapSnoc<T, U>(f: T -> seq<U>, xs: seq<T>, x: T)
    ensures ConcatMap(f, xs + [x]) == ConcatMap(f, xs) + f(x)
  {
    assert (xs + [x])[..|xs|] == xs;
  }

  lemma ConcatMapSingleton<T, U>(f: T -> seq<U>, x: T)
    ensures ConcatMap(f, [x]) == f(x)
  {
    assert [x][..0] == [];
  }

  lemma {:induction false} ConcatMapAppend<T, U>(f: T -> seq<U>, a: seq<T>, b: seq<T>)
    ensures ConcatMap(f, a + b) == ConcatMap(f, a) + ConcatMap(f, b)
  {
    if b == [] {
      assert a + b == a;
    } else {
      var n := |b| - 1;
      assert (a + b)[..|a + b| - 1] == a + b[..n];
      ConcatMapAppend(f, a, b[..n]);
    }
  }

  /** Removing the element at `k` from a duplicate-free sequence removes exactly that element. */
  lemma RemoveAt<T>(b: seq<T>, k: int)
    requires NoDup(b) && 0 <= k < |b|
    ensures NoDup(b[..k] + b[k + 1..])
    ensures Elems(b[..k] + b[k + 1..]) == Elems(b) - {b[k]}
  {
    var b' := b[..k] + b[k + 1..];
    forall i, j | 0 <= i < j < |b'|
      ensures b'[i] != b'[j]
    {
      var i' := if i < k then i else i + 1;
      var j' := if j < k then j else j + 1;
      assert b'[i] == b[i'] && b'[j] == b[j'];
    }
    forall y | y in Elems(b')
      ensures y in Elems(b) && y != b[k]
    {
      var i :| 0 <= i < |b'| && b'[i] == y;
      var i' := if i < k then i else i + 1;
      assert b'[i] == b[i'];
    }
    forall y | y in Elems(b) && y != b[k]
      ensures y in Elems(b')
    {
      var i :| 0 <= i < |b| && b[i] == y;
      if i < k {
        assert b'[i] == y;
      } else {
        assert b'[i - 1] == y;
      }
    }
  }

  /** Taking out the part contributed by `b[k]` leaves the concatenation over the rest. */
  lemma {:induction false} ConcatMapAt<T, U>(f: T -> seq<U>, b: seq<T>, k: int)
    requires 0 <= k < |b|
    ensures multiset(ConcatMap(f, b)) == multiset(ConcatMap(f, b[..k] + b[k + 1..])) + multiset(f(b[k]))
  {
    var x := b[k];
    var p, q := ConcatMap(f, b[..k]), ConcatMap(f, b[k + 1..]);
    assert (b[..k] + [x]) + b[k + 1..] == b;
    ConcatMapAppend(f, b[..k] + [x], b[k + 1..]);
    ConcatMapAppend(f, b[..k], [x]);
    ConcatMapAppend(f, b[..k], b[k + 1..]);
    assert [x][..0] == [];
    assert ConcatMap(f, [x]) == f(x);
    assert ConcatMap(f, b) == p + f(x) + q;
    assert ConcatMap(f, b[..k] + b[k + 1..]) == p + q;
    assert multiset(p + f(x) + q) == multiset(p) + multiset(f(x)) + multiset(q);
  }

  /** Ranging over the same distinct elements in another order changes the concatenation only by
      a permutation. */
  lemma {:induction false} ConcatMapPermutation<T, U>(f: T -> seq<U>, a: seq<T>, b: seq<T>)
    requires NoDup(a) && NoDup(b) && Elems(a) == Elems(b)
    ensures multiset(ConcatMap(f, a)) == multiset(ConcatMap(f, b))
  {
    if a == [] {
      ElemsHead(b);
    } else {
      var n := |a| - 1;
      var x := a[n];
      assert x in Elems(b);
      var k :| 0 <= k < |b| && b[k] == x;
      RemoveAt(a, n);
      RemoveAt(b, k);
      assert a[..n] + a[n + 1..] == a[..n];
      ConcatMapPermutation(f, a[..n], b[..k] + b[k + 1..]);
      ConcatMapAt(f, b, k);
      ConcatMapAt(f, a, n);
    }
  }

  /** One step of draining a set into a duplicate-free sequence: moving `x` from `rest` to the
      end of `done` keeps the two a partition of `whole`. */
  lemma DrainStep<T>(done: seq<T>, rest: set<T>, whole: set<T>, x: T)
    requires Elems(done) + rest == whole && Elems(done) !! rest && NoDup(done) && x in rest
    ensures Elems(done + [x]) + (rest - {x}) == whole
    ensures Elems(done + [x]) !! (rest - {x})
    ensures NoDup(done + [x])
    ensures |rest - {x}| < |rest|
  {
    ElemsSnoc(done, x);
  }

  /** Materialises a set as a duplicate-free sequence in an arbitrary order, as ranging over a Go map
      and appending each key does. */
  method SetToSeq<T>(s: set<T>) returns (r: seq<T>)
    ensures NoDup(r)
    ensures Elems(r) == s
    ensures |r| == |s|
  {
    r := [];
    var rest := s;
    while rest != {}
      invariant rest <= s
      invariant Elems(r) + rest == s
      invariant Elems(r) !! rest
      invariant NoDup(r)
      invariant |r| + |rest| == |s|
      decreases |rest|
    {
      var x :| x in rest;
      r := r + [x];
      rest := rest - {x};
    }
  }
}
