/** Walks along an edge relation: the independent yardstick for the import graph, the intrinsic fold and the
    package audit. */
module Walks {
  type Edges<!T(!new)> = (T, T) -> bool

  ghost predicate IsWalk<T(!new)>(e: Edges<T>, p: seq<T>) {
    |p| >= 1 && forall i :: 0 <= i < |p| - 1 ==> e(p[i], p[i + 1])
  }

  ghost predicate WalkFrom<T(!new)>(e: Edges<T>, p: seq<T>, a: T, b: T) {
    IsWalk(e, p) && p[0] == a && p[|p| - 1] == b
  }

  ghost predicate Reaches<T(!new)>(e: Edges<T>, a: T, b: T) {
    exists p :: WalkFrom(e, p, a, b)
  }

  /** No walk with at least one edge comes back to where it started; a self-loop is such a walk. */
  ghost predicate Acyclic<T(!new)>(e: Edges<T>) {
    forall p :: IsWalk(e, p) && |p| >= 2 ==> p[0] != p[|p| - 1]
  }

  lemma ReachesSelf<T(!new)>(e: Edges<T>, a: T)
    ensures Reaches(e, a, a)
  {
    assert WalkFrom(e, [a], a, a);
  }

  lemma ReachesEdge<T(!new)>(e: Edges<T>, a: T, b: T)
    requires e(a, b)
    ensures Reaches(e, a, b)
  {
    assert WalkFrom(e, [a, b], a, b);
  }

  lemma ReachesTrans<T(!new)>(e: Edges<T>, a: T, b: T, c: T)
    requires Reaches(e, a, b) && Reaches(e, b, c)
    ensures Reaches(e, a, c)
  {
    var p :| WalkFrom(e, p, a, b);
    var q :| WalkFrom(e, q, b, c);
    var r := p + q[1..];
    forall i | 0 <= i < |r| - 1 ensures e(r[i], r[i + 1]) {
      if i >= |p| { assert r[i] == q[i - |p| + 1] && r[i + 1] == q[i - |p| + 2]; }
      else if i == |p| - 1 { assert r[i] == q[0] && r[i + 1] == q[1]; }
    }
    assert WalkFrom(e, r, a, c);
  }

  lemma ReachesStep<T(!new)>(e: Edges<T>, a: T, b: T, c: T)
    requires Reaches(e, a, b) && e(b, c)
    ensures Reaches(e, a, c)
  {
    ReachesEdge(e, b, c);
    ReachesTrans(e, a, b, c);
  }

  /** What reaches `b` either is `b` or has a first edge towards it. */
  lemma ReachesFirst<T(!new)>(e: Edges<T>, a: T, b: T)
    requires Reaches(e, a, b)
    ensures a == b || exists c :: e(a, c) && Reaches(e, c, b)
  {
    var p :| WalkFrom(e, p, a, b);
    if |p| > 1 {
      assert WalkFrom(e, p[1..], p[1], b);
      assert e(a, p[1]) && Reaches(e, p[1], b);
    }
  }

  /** Anything kept by every edge holds of all that is reachable. */
  lemma {:induction false} WalkKeeps<T(!new)>(e: Edges<T>, p: seq<T>, keeps: T -> bool)
    requires IsWalk(e, p) && keeps(p[0])
    requires forall x, y :: keeps(x) && e(x, y) ==> keeps(y)
    ensures forall i :: 0 <= i < |p| ==> keeps(p[i])
  {
    if |p| > 1 {
      assert IsWalk(e, p[..|p| - 1]);
      WalkKeeps(e, p[..|p| - 1], keeps);
      assert e(p[|p| - 2], p[|p| - 2 + 1]) && keeps(p[..|p| - 1][|p| - 2]);
      forall i | 0 <= i < |p| ensures keeps(p[i]) {
        if i < |p| - 1 { assert p[i] == p[..|p| - 1][i]; }
      }
    }
  }

  lemma ReachesKeeps<T(!new)>(e: Edges<T>, a: T, keeps: T -> bool)
    requires keeps(a) && forall x, y :: keeps(x) && e(x, y) ==> keeps(y)
    ensures forall b :: Reaches(e, a, b) ==> keeps(b)
  {
    forall b | Reaches(e, a, b) ensures keeps(b) {
      var p :| WalkFrom(e, p, a, b);
      WalkKeeps(e, p, keeps);
    }
  }

  lemma BackEdgeIsCycle<T(!new)>(e: Edges<T>, u: T, v: T)
    requires e(u, v) && Reaches(e, v, u)
    ensures !Acyclic(e)
  {
    var p :| WalkFrom(e, p, v, u);
    var q := [u] + p;
    forall i | 0 <= i < |q| - 1 ensures e(q[i], q[i + 1]) {}
    assert IsWalk(e, q);
  }

  lemma CycleHasBackEdge<T(!new)>(e: Edges<T>)
    requires !Acyclic(e)
    ensures exists u, v :: e(u, v) && Reaches(e, v, u)
  {
    var p :| IsWalk(e, p) && |p| >= 2 && p[0] == p[|p| - 1];
    assert e(p[0], p[0 + 1]) && WalkFrom(e, p[1..], p[1], p[0]);
  }

  lemma ReachesMore<T(!new)>(e: Edges<T>, more: Edges<T>, a: T, b: T)
    requires Reaches(e, a, b) && forall x, y :: e(x, y) ==> more(x, y)
    ensures Reaches(more, a, b)
  {
    var p :| WalkFrom(e, p, a, b);
    assert WalkFrom(more, p, a, b);
  }

  lemma FewerEdgesAcyclic<T(!new)>(e: Edges<T>, more: Edges<T>)
    requires Acyclic(more) && forall x, y :: e(x, y) ==> more(x, y)
    ensures Acyclic(e)
  {
    forall p | IsWalk(e, p) && |p| >= 2 ensures p[0] != p[|p| - 1] {
      assert IsWalk(more, p);
    }
  }

  /** Edges that all lead strictly down some ranking close no cycle. */
  lemma RankedIsAcyclic<T(!new)>(e: Edges<T>, rank: T -> int)
    requires forall x, y :: e(x, y) ==> rank(y) < rank(x)
    ensures Acyclic(e)
  {
    forall p | IsWalk(e, p) && |p| >= 2 ensures p[0] != p[|p| - 1] {
      Descends(e, rank, p);
    }
  }

  lemma {:induction false} Descends<T(!new)>(e: Edges<T>, rank: T -> int, p: seq<T>)
    requires IsWalk(e, p) && forall x, y :: e(x, y) ==> rank(y) < rank(x)
    ensures |p| >= 2 ==> rank(p[|p| - 1]) < rank(p[0])
  {
    if |p| >= 2 {
      var q := p[..|p| - 1];
      assert IsWalk(e, q);
      Descends(e, rank, q);
      assert e(p[|p| - 2], p[|p| - 2 + 1]);
      assert q[|q| - 1] == p[|p| - 2];
    }
  }
}
