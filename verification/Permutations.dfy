/** What rearranging a list leaves unchanged. */
module Permutations {
  import opened Common

  lemma Extract<T>(q: seq<T>, i: nat)
    requires i < |q|
    ensures q == q[..i] + [q[i]] + q[i + 1..]
    ensures multiset(q) == multiset(q[..i] + q[i + 1..]) + multiset{q[i]}
  {
    assert q == q[..i] + [q[i]] + q[i + 1..];
    assert multiset(q) == multiset(q[..i]) + multiset{q[i]} + multiset(q[i + 1..]);
  }

  lemma SameRest<T>(m: multiset<T>, n: multiset<T>, x: T)
    requires m + multiset{x} == n + multiset{x}
    ensures m == n
  {
    assert m == (m + multiset{x}) - multiset{x};
    assert n == (n + multiset{x}) - multiset{x};
  }

  lemma {:induction false} SumAround(a: seq<real>, x: real, b: seq<real>)
    ensures Sum(a + [x] + b) == Sum(a + b) + x
  {
    if b == [] {
      assert a + [x] + b == a + [x] && a + b == a;
    } else {
      var n := |b| - 1;
      SumAround(a, x, b[..n]);
      assert (a + [x] + b)[..|a + [x] + b| - 1] == a + [x] + b[..n];
      assert (a + b)[..|a + b| - 1] == a + b[..n];
    }
  }

  /** The last element of a list stands somewhere in every rearrangement of it. */
  lemma WhereLast<T>(p: seq<T>, q: seq<T>) returns (left: seq<T>, right: seq<T>)
    requires multiset(p) == multiset(q) && p != []
    ensures q == left + [p[|p| - 1]] + right && multiset(p[..|p| - 1]) == multiset(left + right)
  {
    var n := |p| - 1;
    assert p[n] in p && p[n] in multiset(q);
    var i :| 0 <= i < |q| && q[i] == p[n];
    Extract(p, n);
    Extract(q, i);
    assert p[..n] + p[n + 1..] == p[..n];
    SameRest(multiset(p[..n]), multiset(q[..i] + q[i + 1..]), p[n]);
    left, right := q[..i], q[i + 1..];
  }

  lemma NothingLeft<T>(q: seq<T>)
    requires multiset(q) == multiset{}
    ensures q == []
  {
    assert |multiset(q)| == |q|;
  }

  /** A sum does not depend on the order. */
  lemma {:induction false} SumPermuted(p: seq<real>, q: seq<real>)
    requires multiset(p) == multiset(q)
    ensures Sum(p) == Sum(q)
  {
    if p == [] {
      NothingLeft(q);
    } else {
      var left, right := WhereLast(p, q);
      SumPermuted(p[..|p| - 1], left + right);
      SumAround(left, p[|p| - 1], right);
    }
  }

  lemma {:induction false} FilterPermuted<T(!new)>(p: seq<T>, q: seq<T>, keep: T -> bool)
    requires multiset(p) == multiset(q)
    ensures multiset(Filter(p, keep)) == multiset(Filter(q, keep))
  {
    if p == [] {
      NothingLeft(q);
    } else {
      var left, right := WhereLast(p, q);
      FilterPermuted(p[..|p| - 1], left + right, keep);
      FilterAround(left, p[|p| - 1], right, keep);
      FilterAround(p[..|p| - 1], p[|p| - 1], [], keep);
      hide Filter;
      assert p[..|p| - 1] + [p[|p| - 1]] + [] == p && p[..|p| - 1] + [] == p[..|p| - 1];
    }
  }

  lemma FilterAround<T(!new)>(a: seq<T>, x: T, b: seq<T>, keep: T -> bool)
    ensures multiset(Filter(a + [x] + b, keep)) == multiset(Filter(a + b, keep)) + (if keep(x) then multiset{x} else multiset{})
  {
    FilterSnoc(a, x, keep);
    FilterAppend(a + [x], b, keep);
    FilterAppend(a, b, keep);
    hide Filter;
  }

  lemma {:induction false} MappedPermuted<T, R>(p: seq<T>, q: seq<T>, f: T -> R)
    requires multiset(p) == multiset(q)
    ensures multiset(Mapped(p, f)) == multiset(Mapped(q, f))
  {
    if p == [] {
      NothingLeft(q);
      assert Mapped(p, f) == [] && Mapped(q, f) == [];
    } else {
      var left, right := WhereLast(p, q);
      MappedPermuted(p[..|p| - 1], left + right, f);
      MappedAround(left, p[|p| - 1], right, f);
      MappedAround(p[..|p| - 1], p[|p| - 1], [], f);
      hide Mapped;
      assert p[..|p| - 1] + [p[|p| - 1]] + [] == p && p[..|p| - 1] + [] == p[..|p| - 1];
    }
  }

  lemma MappedAround<T, R>(a: seq<T>, x: T, b: seq<T>, f: T -> R)
    ensures multiset(Mapped(a + [x] + b, f)) == multiset(Mapped(a + b, f)) + multiset{f(x)}
  {
    hide Mapped;
    assert Mapped(a + [x] + b, f) == Mapped(a, f) + [f(x)] + Mapped(b, f);
    assert Mapped(a + b, f) == Mapped(a, f) + Mapped(b, f);
  }
}
