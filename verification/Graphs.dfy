/** Finite directed graphs over crate names: paths, reachability, cycles. */
module Graphs {

  /** `graph[v]` is the set of crates `v` depends on. */
  type Graph<!T> = map<T, set<T>>

  /** Python's `graph.get(v, set())`. */
  function Succ<T>(g: Graph<T>, v: T): set<T> {
    if v in g then g[v] else {}
  }

  /** `v` depends on `w`. */
  predicate Edge<T>(g: Graph<T>, v: T, w: T) {
    w in Succ(g, v)
  }

  /** `p` walks along edges of `g` from its first node to its last. */
  ghost predicate IsWalk<T(!new)>(g: Graph<T>, p: seq<T>) {
    |p| > 0 && forall i :: 0 <= i < |p| - 1 ==> Edge(g, p[i], p[i + 1])
  }

  ghost predicate WalkFromTo<T(!new)>(g: Graph<T>, p: seq<T>, v: T, w: T) {
    IsWalk(g, p) && p[0] == v && p[|p| - 1] == w
  }

  ghost predicate Reach<T(!new)>(g: Graph<T>, v: T, w: T) {
    exists p :: WalkFromTo(g, p, v, w)
  }

  /** Mutual reachability: the equivalence whose classes are the strongly connected components. */
  ghost predicate Mutual<T(!new)>(g: Graph<T>, v: T, w: T) {
    Reach(g, v, w) && Reach(g, w, v)
  }

  /** `v` lies on a cycle: it reaches itself along at least one edge. */
  ghost predicate OnCycle<T(!new)>(g: Graph<T>, v: T) {
    exists w :: Edge(g, v, w) && Reach(g, w, v)
  }

  ghost predicate Acyclic<T(!new)>(g: Graph<T>) {
    forall v :: !OnCycle(g, v)
  }

  lemma ReachRefl<T(!new)>(g: Graph<T>, v: T)
    ensures Reach(g, v, v)
  {
    assert WalkFromTo(g, [v], v, v);
  }

  lemma ReachEdge<T(!new)>(g: Graph<T>, v: T, w: T)
    requires Edge(g, v, w)
    ensures Reach(g, v, w)
  {
    assert WalkFromTo(g, [v, w], v, w);
  }

  lemma ReachTrans<T(!new)>(g: Graph<T>, u: T, v: T, w: T)
    requires Reach(g, u, v) && Reach(g, v, w)
    ensures Reach(g, u, w)
  {
    var p :| WalkFromTo(g, p, u, v);
    var q :| WalkFromTo(g, q, v, w);
    var r := p + q[1..];
    forall i | 0 <= i < |r| - 1 ensures Edge(g, r[i], r[i + 1]) {
      if i >= |p| - 1 {
        assert r[i] == q[i - (|p| - 1)] && r[i + 1] == q[i + 1 - (|p| - 1)];
      }
    }
    assert WalkFromTo(g, r, u, w);
  }

  /** A set closed under the edges contains everything its members reach. */
  lemma ReachStaysInside<T(!new)>(g: Graph<T>, s: set<T>, v: T, w: T)
    requires v in s && forall x, y {:trigger Edge(g, x, y)} :: x in s && Edge(g, x, y) ==> y in s
    requires Reach(g, v, w)
    ensures w in s
  {
    var p :| WalkFromTo(g, p, v, w);
    WalkStaysInside(g, s, p);
  }

  lemma {:induction false} WalkStaysInside<T(!new)>(g: Graph<T>, s: set<T>, p: seq<T>)
    requires IsWalk(g, p) && p[0] in s
    requires forall x, y {:trigger Edge(g, x, y)} :: x in s && Edge(g, x, y) ==> y in s
    ensures p[|p| - 1] in s
  {
    if |p| > 1 {
      WalkStaysInside(g, s, p[1..]);
    }
  }

  /** Reachability only grows when edges are added. */
  lemma ReachMonotone<T(!new)>(g: Graph<T>, h: Graph<T>, v: T, w: T)
    requires forall x, y {:trigger Edge(g, x, y)} :: Edge(g, x, y) ==> Edge(h, x, y)
    requires Reach(g, v, w)
    ensures Reach(h, v, w)
  {
    var p :| WalkFromTo(g, p, v, w);
    assert WalkFromTo(h, p, v, w);
  }

  lemma OnCycleMonotone<T(!new)>(g: Graph<T>, h: Graph<T>, v: T)
    requires forall x, y {:trigger Edge(g, x, y)} :: Edge(g, x, y) ==> Edge(h, x, y)
    requires OnCycle(g, v)
    ensures OnCycle(h, v)
  {
    hide Reach;
    var w :| Edge(g, v, w) && Reach(g, w, v);
    ReachMonotone(g, h, w, v);
    assert Edge(h, v, w);
  }

  /** A graph is determined by its nodes and its edges. */
  lemma SameGraph<T(!new)>(g: Graph<T>, h: Graph<T>)
    requires g.Keys == h.Keys && forall v, w :: Edge(g, v, w) <==> Edge(h, v, w)
    ensures g == h
  {
    forall v | v in g ensures g[v] == h[v] {
      forall w ensures w in g[v] <==> w in h[v] {
        assert Edge(g, v, w) <==> Edge(h, v, w);
      }
    }
  }
}
