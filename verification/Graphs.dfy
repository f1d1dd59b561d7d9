/**
 Reachability along the edges of a graph, and orders in which every node comes after those its
 edges lead to.
 */
module Graphs {
  type Edges<!T> = (T, T) -> bool

  // ---------------------------------------------------------------- trails

  ghost predicate Trail<T>(edge: Edges<T>, t: seq<T>)
  {
    t != [] && forall i :: 0 <= i < |t| - 1 ==> edge(t[i], t[i + 1])
  }

  ghost predicate Joins<T>(edge: Edges<T>, a: T, b: T, t: seq<T>) { Trail(edge, t) && t[0] == a && t[|t| - 1] == b }

  /** `b` is `a`, or edges lead from `a` to it. */
  ghost predicate Reaches<T(!new)>(edge: Edges<T>, a: T, b: T) { exists t :: Joins(edge, a, b, t) }

  ghost predicate JoinsFar<T>(edge: Edges<T>, a: T, b: T, t: seq<T>) { Joins(edge, a, b, t) && |t| >= 2 }

  /** At least one edge leads from `a` to `b`. */
  ghost predicate Below<T(!new)>(edge: Edges<T>, a: T, b: T) { exists t :: JoinsFar(edge, a, b, t) }

  ghost predicate Acyclic<T(!new)>(edge: Edges<T>) { forall a :: !Below(edge, a, a) }

  lemma ReachesItself<T(!new)>(edge: Edges<T>, a: T)
    ensures Reaches(edge, a, a)
  {
    assert Joins(edge, a, a, [a]);
  }

  lemma BelowEdge<T(!new)>(edge: Edges<T>, a: T, b: T)
    requires edge(a, b)
    ensures Below(edge, a, b)
  {
    assert JoinsFar(edge, a, b, [a, b]);
  }

  lemma BelowReaches<T(!new)>(edge: Edges<T>, a: T, b: T)
    requires Below(edge, a, b)
    ensures Reaches(edge, a, b)
  {
    var t :| JoinsFar(edge, a, b, t);
    assert Joins(edge, a, b, t);
  }

  lemma ReachesThenEdge<T(!new)>(edge: Edges<T>, a: T, b: T, c: T)
    requires Reaches(edge, a, b) && edge(b, c)
    ensures Below(edge, a, c) && Reaches(edge, a, c)
  {
    var t :| Joins(edge, a, b, t);
    assert JoinsFar(edge, a, c, t + [c]);
    assert Joins(edge, a, c, t + [c]);
  }

  lemma EdgeThenReaches<T(!new)>(edge: Edges<T>, a: T, b: T, c: T)
    requires edge(a, b) && Reaches(edge, b, c)
    ensures Below(edge, a, c) && Reaches(edge, a, c)
  {
    var t :| Joins(edge, b, c, t);
    assert JoinsFar(edge, a, c, [a] + t);
    assert Joins(edge, a, c, [a] + t);
  }

  lemma LastEdge<T(!new)>(edge: Edges<T>, a: T, c: T) returns (b: T)
    requires Reaches(edge, a, c) && a != c
    ensures Reaches(edge, a, b) && edge(b, c)
  {
    var t :| Joins(edge, a, c, t);
    b := t[|t| - 2];
    assert Joins(edge, a, b, t[..|t| - 1]);
  }

  lemma ReachesOn<T(!new)>(edge: Edges<T>, a: T, b: T, c: T)
    requires Reaches(edge, a, b) && Reaches(edge, b, c)
    ensures Reaches(edge, a, c)
  {
    var t, u :| Joins(edge, a, b, t) && Joins(edge, b, c, u);
    var all := t + u[1..];
    forall i | 0 <= i < |all| - 1 ensures edge(all[i], all[i + 1]) {
      if i >= |t| - 1 { assert all[i] == u[i - |t| + 1] && all[i + 1] == u[i - |t| + 2]; }
    }
    assert all[|all| - 1] == c by { if |u| == 1 { assert all == t; } }
    assert Joins(edge, a, c, all);
  }

  /** Without cycles no edge leads back. */
  lemma NoWayBack<T(!new)>(edge: Edges<T>, a: T, b: T)
    requires Acyclic(edge) && edge(a, b)
    ensures !Reaches(edge, b, a)
  {
    if Reaches(edge, b, a) {
      EdgeThenReaches(edge, a, b, a);
      assert false;
    }
  }

  // ---------------------------------------------------------------- closed sets

  ghost predicate ClosedUnder<T(!new)>(edge: Edges<T>, s: set<T>)
  {
    forall a, b :: a in s && edge(a, b) ==> b in s
  }

  lemma {:induction false} TrailStays<T(!new)>(edge: Edges<T>, t: seq<T>, s: set<T>)
    requires Trail(edge, t) && t[0] in s && ClosedUnder(edge, s)
    ensures t[|t| - 1] in s
  {
    if |t| > 1 {
      assert edge(t[0], t[1]);
      TrailStays(edge, t[1..], s);
    }
  }

  lemma ReachableStays<T(!new)>(edge: Edges<T>, root: T, s: set<T>)
    requires root in s && ClosedUnder(edge, s)
    ensures forall b :: Reaches(edge, root, b) ==> b in s
  {
    hide ClosedUnder, Trail;
    forall b | Reaches(edge, root, b) ensures b in s {
      var t :| Joins(edge, root, b, t);
      TrailStays(edge, t, s);
    }
  }

  // ---------------------------------------------------------------- topological order

  ghost predicate Distinct<T>(order: seq<T>) { forall i, j :: 0 <= i < j < |order| ==> order[i] != order[j] }

  ghost predicate EdgesBefore<T(!new)>(edge: Edges<T>, order: seq<T>, i: nat)
    requires i < |order|
  {
    forall b :: edge(order[i], b) ==> b in order[..i]
  }

  /** Each node once, after everything its edges lead to. */
  ghost predicate Topological<T(!new)>(edge: Edges<T>, order: seq<T>)
  {
    Distinct(order) && forall i :: 0 <= i < |order| ==> EdgesBefore(edge, order, i)
  }

  lemma TopologicalPush<T(!new)>(edge: Edges<T>, order: seq<T>, a: T)
    requires Topological(edge, order) && a !in order && forall b :: edge(a, b) ==> b in order
    ensures Topological(edge, order + [a])
  {
    var all := order + [a];
    forall i | 0 <= i < |all| ensures EdgesBefore(edge, all, i) {
      if i < |order| {
        assert EdgesBefore(edge, order, i);
        assert all[..i] == order[..i];
      } else {
        assert all[..i] == order;
      }
    }
  }

  /** Along a trail the places in the order go down. */
  lemma {:induction false} TrailGoesDown<T(!new)>(edge: Edges<T>, order: seq<T>, t: seq<T>, i: nat)
    requires Topological(edge, order) && Trail(edge, t) && i < |order| && order[i] == t[0]
    ensures t[|t| - 1] in order[..i + 1] && (|t| >= 2 ==> t[|t| - 1] in order[..i])
    decreases |t|
  {
    if |t| >= 2 {
      assert EdgesBefore(edge, order, i) && edge(t[0], t[1]);
      var j :| 0 <= j < i && order[j] == t[1];
      TrailGoesDown(edge, order, t[1..], j);
      assert order[..j + 1] <= order[..i];
    }
  }

  /** What a node of the order reaches is in it too. */
  lemma OrderIsClosed<T(!new)>(edge: Edges<T>, order: seq<T>, a: T, b: T)
    requires Topological(edge, order) && a in order && Reaches(edge, a, b)
    ensures b in order
  {
    hide Topological, Trail;
    var t :| Joins(edge, a, b, t);
    var i :| 0 <= i < |order| && order[i] == a;
    TrailGoesDown(edge, order, t, i);
  }

  lemma OrderHasNoCycle<T(!new)>(edge: Edges<T>, order: seq<T>, a: T)
    requires Topological(edge, order) && a in order
    ensures !Below(edge, a, a)
  {
    hide Trail;
    if Below(edge, a, a) {
      var t :| JoinsFar(edge, a, a, t);
      var i :| 0 <= i < |order| && order[i] == a;
      TrailGoesDown(edge, order, t, i);
      assert false;
    }
  }
}
