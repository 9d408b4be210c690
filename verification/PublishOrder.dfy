/** From the sorted workspace to the list of crates to publish, and the second implementation of
    the same order in the release-topology generator. */
module PublishOrder {
  import opened Names
  import opened Graphs
  import opened Kahn

  /** `[name for name in order if name in allowed]`. */
  function Filter(order: seq<Name>, allowed: set<Name>): (r: seq<Name>)
    ensures forall x :: x in r <==> x in order && x in allowed
  {
    if order == [] then []
    else
      var last := order[|order| - 1];
      assert order == order[..|order| - 1] + [last];
      Filter(order[..|order| - 1], allowed) + (if last in allowed then [last] else [])
  }

  /** Nothing listed earlier reaches anything listed later. */
  ghost predicate NoneReachesLater(g: Graph<Name>, s: seq<Name>) {
    forall i, j :: 0 <= i < j < |s| ==> !Reach(g, s[i], s[j])
  }

  lemma TopologicalNoneReachesLater(deps: Graph<Name>, t: seq<Name>)
    requires NoDup(t) && forall k :: 0 <= k < |t| ==> t[k] in deps && deps[t[k]] <= Elements(t[..k])
    ensures NoneReachesLater(deps, t)
  {
    hide Reach;
    forall i, j | 0 <= i < j < |t| ensures !Reach(deps, t[i], t[j]) {
      if Reach(deps, t[i], t[j]) {
        PrefixClosed(deps, t, i, t[j]);
      }
    }
  }

  lemma {:induction false} FilterNoneReachesLater(g: Graph<Name>, s: seq<Name>, allowed: set<Name>)
    requires NoneReachesLater(g, s)
    ensures NoneReachesLater(g, Filter(s, allowed))
  {
    hide Reach;
    if s != [] {
      var front := s[..|s| - 1];
      FilterNoneReachesLater(g, front, allowed);
      var f, r := Filter(front, allowed), Filter(s, allowed);
      forall i, j | 0 <= i < j < |r| ensures !Reach(g, r[i], r[j]) {
        if j == |f| {
          assert f[i] in front;
          var k :| 0 <= k < |front| && front[k] == f[i];
          assert s[k] == r[i] && s[|s| - 1] == r[j];
        }
      }
    }
  }

  /** A published crate comes after every published crate it reaches in the kept graph, even when
      the path leads only through crates that are not published. */
  lemma PublishedAfterReached(kept: Graph<Name>, order: seq<Name>, allowed: set<Name>, i: nat, j: nat)
    requires Greedy(kept, order)
    requires var r := Filter(order, allowed);
      i < |r| && j < |r| && i != j && Reach(kept, r[i], r[j])
    ensures j < i
  {
    hide Reach;
    GreedyBasics(kept, order);
    TopologicalNoneReachesLater(kept, order);
    FilterNoneReachesLater(kept, order, allowed);
  }

  /** `{name: deps & allowed for name, deps in dependencies.items() if name in allowed}`. */
  function Induced(g: Graph<Name>, allowed: set<Name>): Graph<Name> {
    map v | v in g && v in allowed :: g[v] * allowed
  }

  /** What is left of the graph: the allowed crates, and every edge between two of them. */
  lemma InducedIs(g: Graph<Name>, allowed: set<Name>, v: Name, w: Name)
    ensures v in Induced(g, allowed) <==> v in g && v in allowed
    ensures Edge(Induced(g, allowed), v, w) <==> Edge(g, v, w) && v in allowed && w in allowed
  {
  }

  /** Every dependency of an allowed crate is allowed. */
  ghost predicate ClosedUnder(g: Graph<Name>, allowed: set<Name>) {
    forall v, w :: v in allowed && Edge(g, v, w) ==> w in allowed
  }

  /** Under a closed allowlist the ready crates of the induced graph are the allowed ready ones. */
  lemma InducedReady(g: Graph<Name>, allowed: set<Name>, order: seq<Name>)
    requires ClosedUnder(g, allowed)
    ensures Ready(Induced(g, allowed), Filter(order, allowed)) == Ready(g, order) * allowed
  {
    var f := Filter(order, allowed);
    assert Elements(f) == Elements(order) * allowed;
    forall v | v in g && v in allowed ensures g[v] * allowed == g[v] {
      assert forall w :: w in g[v] ==> Edge(g, v, w);
    }
  }

  lemma {:induction false} FilterGreedy(g: Graph<Name>, allowed: set<Name>, order: seq<Name>)
    requires ClosedUnder(g, allowed) && Greedy(g, order)
    ensures Greedy(Induced(g, allowed), Filter(order, allowed))
  {
    if order != [] {
      var front, last := order[..|order| - 1], order[|order| - 1];
      assert Greedy(g, front) by {
        forall k | 0 <= k < |front| ensures IsLeast(Ready(g, front[..k]), front[k]) {
          assert front[..k] == order[..k];
        }
      }
      FilterGreedy(g, allowed, front);
      assert IsLeast(Ready(g, front), last) by { assert front == order[..|order| - 1]; }
      InducedReady(g, allowed, front);
      hide Greedy;
      if last in allowed {
        GreedyExtends(Induced(g, allowed), Filter(front, allowed), last);
      } else {
        assert Filter(order, allowed) == Filter(front, allowed);
      }
    }
  }

  /** Sorting everything and then filtering gives the same list as sorting the allowed part alone,
      when the allowlist is closed under the kept dependencies. */
  lemma FilterThenSortAgree(g: Graph<Name>, allowed: set<Name>, order: seq<Name>, induced: seq<Name>)
    requires ClosedUnder(g, allowed) && IsKahnOrder(g, order) && IsKahnOrder(Induced(g, allowed), induced)
    ensures induced == Filter(order, allowed)
  {
    FilterGreedy(g, allowed, order);
    InducedReady(g, allowed, order);
    KahnOrderUnique(Induced(g, allowed), induced, Filter(order, allowed));
  }

  /** `a` needs `b` only through `z`. */
  function Chain(): Graph<Name> {
    map["a" := {"z"}, "z" := {"b"}, "b" := {}]
  }

  /** Without closure the two can differ: with `z` unpublished, filtering publishes `b` before `a`, while
      the induced sort forgets the constraint and publishes `a` before the `b` it depends on. */
  lemma UnclosedOrdersCanDiffer()
    ensures Acyclic(Chain()) && IsKahnOrder(Chain(), ["b", "z", "a"])
    ensures Filter(["b", "z", "a"], {"a", "b"}) == ["b", "a"]
    ensures IsKahnOrder(Induced(Chain(), {"a", "b"}), ["a", "b"])
    ensures Reach(Chain(), "a", "b")
  {
    ChainOrder(Chain());
    TopologicalAcyclic(Chain(), ["b", "z", "a"]);
    ChainFiltered();
    ChainInduced();
    assert WalkFromTo(Chain(), ["a", "z", "b"], "a", "b");
  }

  /** Nor does the lack of closure make them differ: with `a` alone published, both list `a`. */
  lemma UnclosedOrdersCanAgree()
    ensures !ClosedUnder(Chain(), {"a"}) && IsKahnOrder(Chain(), ["b", "z", "a"])
    ensures IsKahnOrder(Induced(Chain(), {"a"}), ["a"]) && Filter(["b", "z", "a"], {"a"}) == ["a"]
  {
    ChainOrder(Chain());
    assert Edge(Chain(), "a", "z") && "z" !in {"a"};
    var h, order := Induced(Chain(), {"a"}), ["a"];
    assert h.Keys == {"a"} && h["a"] == {};
    assert order[..0] == [] && Ready(h, []) == {"a"} && Ready(h, ["a"]) == {};
    LeqReflexive("a");
    assert ["b", "z", "a"][..2] == ["b", "z"] && ["b", "z"][..1] == ["b"];
  }

  lemma ChainFiltered()
    ensures Filter(["b", "z", "a"], {"a", "b"}) == ["b", "a"]
  {
    assert ["b", "z", "a"][..2] == ["b", "z"] && ["b", "z"][..1] == ["b"];
  }

  lemma ChainInduced()
    ensures IsKahnOrder(Induced(Chain(), {"a", "b"}), ["a", "b"])
  {
    var h := Induced(Chain(), {"a", "b"});
    var order := ["a", "b"];
    assert h.Keys == {"a", "b"} && h["a"] == {} && h["b"] == {};
    assert order[..0] == [] && order[..1] == ["a"];
    assert Ready(h, []) == {"a", "b"} && Ready(h, ["a"]) == {"b"};
    LeqReflexive("a");
    LeqReflexive("b");
  }

  lemma ChainOrder(g: Graph<Name>)
    requires g == Chain()
    ensures IsKahnOrder(g, ["b", "z", "a"]) && IsTopological(g, ["b", "z", "a"])
  {
    var order := ["b", "z", "a"];
    assert order[..0] == [] && order[..1] == ["b"] && order[..2] == ["b", "z"];
    assert Ready(g, []) == {"b"} && Ready(g, ["b"]) == {"z"} && Ready(g, ["b", "z"]) == {"a"};
    LeqReflexive("a");
    LeqReflexive("b");
    LeqReflexive("z");
  }
}
