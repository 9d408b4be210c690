/** When sorting everything and filtering, and sorting the allowed part alone, agree whatever the crates are called. */
module Naming {
  import opened Sets
  import opened Names
  import opened Graphs
  import opened Kahn
  import opened PublishOrder

  /** The name each crate goes by. */
  type Alias = Name -> Name

  ghost predicate Injective(alias: Alias) {
    forall x, y :: alias(x) == alias(y) ==> x == y
  }

  ghost predicate LeastBy(alias: Alias, s: set<Name>, x: Name) {
    x in s && forall y :: y in s ==> Leq(alias(x), alias(y))
  }

  ghost predicate GreedyBy(alias: Alias, g: Graph<Name>, order: seq<Name>) {
    forall k :: 0 <= k < |order| ==> LeastBy(alias, Ready(g, order[..k]), order[k])
  }

  /** Kahn's sort when the ready queue is sorted by alias. */
  ghost predicate KahnBy(alias: Alias, g: Graph<Name>, order: seq<Name>) {
    GreedyBy(alias, g, order) && Ready(g, order) == {}
  }

  /** With its own name for an alias that is the sort itself. */
  lemma OwnNames(g: Graph<Name>, order: seq<Name>)
    ensures KahnBy(n => n, g, order) <==> IsKahnOrder(g, order)
  {
    var own := (n: Name) => n;
    assert forall s, x :: LeastBy(own, s, x) <==> IsLeast(s, x);
    if KahnBy(own, g, order) {
      forall k | 0 <= k < |order| ensures IsLeast(Ready(g, order[..k]), order[k]) {
        assert LeastBy(own, Ready(g, order[..k]), order[k]);
      }
    }
    if IsKahnOrder(g, order) {
      forall k | 0 <= k < |order| ensures LeastBy(own, Ready(g, order[..k]), order[k]) {
        assert IsLeast(Ready(g, order[..k]), order[k]);
      }
    }
  }

  /** Both scripts list the same crates in the same order. */
  ghost predicate AgreeBy(alias: Alias, g: Graph<Name>, allowed: set<Name>) {
    forall order, induced :: KahnBy(alias, g, order) && KahnBy(alias, Induced(g, allowed), induced) ==>
      induced == Filter(order, allowed)
  }

  /** `a` needs nothing unpublished that `b` does not need. */
  ghost predicate NeedsNoMore(g: Graph<Name>, allowed: set<Name>, a: Name, b: Name) {
    forall w :: w !in allowed && Reach(g, a, w) ==> Reach(g, b, w)
  }

  /** Unpublished crates cannot change the order: of two published ones, `b` not needing `a`, either `a` needs `b`
      through published crates, or it needs nothing unpublished that `b` does not need. */
  ghost predicate Insulated(g: Graph<Name>, allowed: set<Name>) {
    forall a, b :: a in g && b in g && a in allowed && b in allowed && a != b && !Reach(g, b, a) ==>
      Reach(Induced(g, allowed), a, b) || NeedsNoMore(g, allowed, a, b)
  }

  /** A closed allowlist is insulated: nothing unpublished is needed at all. */
  lemma ClosedIsInsulated(g: Graph<Name>, allowed: set<Name>)
    requires ClosedUnder(g, allowed)
    ensures Insulated(g, allowed)
  {
    hide Reach;
    forall a, w | a in allowed && Reach(g, a, w) ensures w in allowed {
      ReachStaysInside(g, allowed, a, w);
    }
  }

  // ----- orders in general -----

  /** A list built from ready crates only. */
  ghost predicate InOrder(g: Graph<Name>, s: seq<Name>) {
    NoDup(s) && forall k :: 0 <= k < |s| ==> s[k] in g && g[s[k]] <= Elements(s[..k])
  }

  lemma GreedyInOrder(alias: Alias, g: Graph<Name>, order: seq<Name>)
    requires GreedyBy(alias, g, order)
    ensures InOrder(g, order)
  {
    forall k | 0 <= k < |order|
      ensures order[k] in g && order[k] !in order[..k] && g[order[k]] <= Elements(order[..k])
    {
      assert LeastBy(alias, Ready(g, order[..k]), order[k]);
    }
    forall i, j | 0 <= i < j < |order| ensures order[i] != order[j] {
      assert order[..j][i] == order[i];
    }
  }

  /** What a listed crate needs is listed before it. */
  lemma NeededBefore(g: Graph<Name>, s: seq<Name>, j: nat, v: Name)
    requires InOrder(g, s) && j < |s| && Reach(g, s[j], v)
    ensures v in s[..j] || v == s[j]
  {
    PrefixClosed(g, s, j, v);
    assert s[..j + 1] == s[..j] + [s[j]];
  }

  lemma {:induction false} LeastOf(alias: Alias, s: set<Name>) returns (x: Name)
    requires s != {}
    ensures LeastBy(alias, s, x)
    decreases |s|
  {
    var first :| first in s;
    var rest := s - {first};
    assert forall y :: y in s ==> y == first || y in rest;
    LeqReflexive(alias(first));
    if rest == {} {
      x := first;
    } else {
      var q := LeastOf(alias, rest);
      LeqTotal(alias(first), alias(q));
      if Leq(alias(q), alias(first)) {
        x := q;
      } else {
        x := first;
        forall y | y in s ensures Leq(alias(x), alias(y)) {
          if y != first {
            LeqTransitive(alias(first), alias(q), alias(y));
          }
        }
      }
    }
  }

  /** There is an order for every alias. */
  lemma {:induction false} KahnByExists(alias: Alias, g: Graph<Name>, sofar: seq<Name>) returns (order: seq<Name>)
    requires GreedyBy(alias, g, sofar)
    ensures KahnBy(alias, g, order)
    decreases |g.Keys - Elements(sofar)|
  {
    hide Leq;
    if Ready(g, sofar) == {} {
      order := sofar;
    } else {
      var x := LeastOf(alias, Ready(g, sofar));
      var more := sofar + [x];
      forall k | 0 <= k < |more| ensures LeastBy(alias, Ready(g, more[..k]), more[k]) {
        if k < |sofar| {
          assert more[..k] == sofar[..k];
          assert LeastBy(alias, Ready(g, sofar[..k]), sofar[k]);
        } else {
          assert more[..k] == sofar;
        }
      }
      ElementsSnoc(sofar, x);
      ProperSubsetCount(g.Keys - Elements(more), g.Keys - Elements(sofar), x);
      order := KahnByExists(alias, g, more);
    }
  }

  lemma {:induction false} SamePrefix(alias: Alias, g: Graph<Name>, a: seq<Name>, b: seq<Name>, k: nat)
    requires Injective(alias) && GreedyBy(alias, g, a) && GreedyBy(alias, g, b) && k <= |a| && k <= |b|
    ensures a[..k] == b[..k]
  {
    hide Injective, GreedyBy, LeastBy;
    if k > 0 {
      SamePrefix(alias, g, a, b, k - 1);
      NextIsReady(alias, g, a, k - 1);
      NextIsReady(alias, g, b, k - 1);
      OneLeast(alias, Ready(g, a[..k - 1]), a[k - 1], b[k - 1]);
      assert a[..k] == a[..k - 1] + [a[k - 1]] && b[..k] == b[..k - 1] + [b[k - 1]];
    }
  }

  lemma OneLeast(alias: Alias, s: set<Name>, x: Name, y: Name)
    requires Injective(alias) && LeastBy(alias, s, x) && LeastBy(alias, s, y)
    ensures x == y
  {
    LeqAntisymmetric(alias(x), alias(y));
  }

  lemma KahnByUnique(alias: Alias, g: Graph<Name>, a: seq<Name>, b: seq<Name>)
    requires Injective(alias) && KahnBy(alias, g, a) && KahnBy(alias, g, b)
    ensures a == b
  {
    NotLonger(alias, g, a, b);
    NotLonger(alias, g, b, a);
    SamePrefix(alias, g, a, b, |a|);
    assert a[..|a|] == a && b[..|b|] == b;
  }

  lemma NotLonger(alias: Alias, g: Graph<Name>, a: seq<Name>, b: seq<Name>)
    requires Injective(alias) && KahnBy(alias, g, a) && GreedyBy(alias, g, b)
    ensures |b| <= |a|
  {
    assert a[..|a|] == a;
    if |a| < |b| {
      SamePrefix(alias, g, a, b, |a|);
      NextIsReady(alias, g, b, |a|);
    }
  }

  lemma NextIsReady(alias: Alias, g: Graph<Name>, order: seq<Name>, k: nat)
    requires GreedyBy(alias, g, order) && k < |order|
    ensures LeastBy(alias, Ready(g, order[..k]), order[k])
  {
  }

  /** As long as something `v` needs is not listed, some such crate is ready. */
  lemma SomethingReady(g: Graph<Name>, s: seq<Name>, v: Name) returns (x: Name)
    requires Acyclic(g) && v in g && v !in s && forall p, q :: Edge(g, p, q) ==> q in g
    ensures Reach(g, v, x) && x in Ready(g, s)
  {
    hide Reach, OnCycle;
    var r := set n | n in g && n !in s && Reach(g, v, n);
    ReachRefl(g, v);
    assert v in r;
    if NoSink(g, r) {
      var c := NoSinkMeansCycle(g, r);
    }
    x :| x in r && !Continues(g, r, x);
    forall y | y in g[x] ensures y in Elements(s) {
      assert Edge(g, x, y);
      ReachEdge(g, x, y);
      ReachTrans(g, v, x, y);
      assert y in s || y in r;
    }
  }

  // ----- insulated: they agree under every alias -----

  /** When `x` is the least ready crate and published, nothing published that the smaller graph has ready precedes
      it: whatever still waits for an unpublished crate is not ready there either. */
  lemma ReadyInBoth(alias: Alias, g: Graph<Name>, allowed: set<Name>, front: seq<Name>, x: Name, y: Name)
    requires Insulated(g, allowed) && InOrder(g, front + [x]) && LeastBy(alias, Ready(g, front), x) && x in allowed
    requires y in Ready(Induced(g, allowed), Filter(front, allowed))
    ensures Leq(alias(x), alias(y))
  {
    hide Reach, Filter, Insulated;
    var s, f := front + [x], Filter(front, allowed);
    assert s[|front|] == x && s[..|front|] == front;
    if y !in Ready(g, front) {
      var z := WaitsForUnpublished(g, allowed, front, y);
      assert Edge(g, y, z);
      ReachEdge(g, y, z);
      if Reach(g, x, y) {
        NeededBefore(g, s, |front|, y);
      } else {
        Insulation(g, allowed, y, x, z);
        if Reach(g, x, z) {
          NeededBefore(g, s, |front|, z);
        } else {
          NotNeededThere(g, allowed, front, y, x);
        }
      }
    }
  }

  lemma WaitsForUnpublished(g: Graph<Name>, allowed: set<Name>, front: seq<Name>, y: Name) returns (z: Name)
    requires y in Ready(Induced(g, allowed), Filter(front, allowed)) && y !in Ready(g, front)
    ensures y in g && y in allowed && y !in front && z in g[y] && z !in front && z !in allowed
  {
    assert y !in front;
    var inner := Induced(g, allowed)[y];
    assert inner == g[y] * allowed && inner <= Elements(Filter(front, allowed));
    assert forall q :: q in inner ==> q in front;
    z :| z in g[y] && z !in front;
  }

  lemma Insulation(g: Graph<Name>, allowed: set<Name>, a: Name, b: Name, w: Name)
    requires Insulated(g, allowed) && a in g && b in g && a in allowed && b in allowed && a != b && !Reach(g, b, a)
    requires w !in allowed && Reach(g, a, w)
    ensures Reach(Induced(g, allowed), a, b) || Reach(g, b, w)
  {
    hide Reach;
    assert Reach(Induced(g, allowed), a, b) || NeedsNoMore(g, allowed, a, b);
  }

  /** A crate that is ready in the smaller graph needs nothing there that is not listed. */
  lemma NotNeededThere(g: Graph<Name>, allowed: set<Name>, front: seq<Name>, y: Name, x: Name)
    requires InOrder(g, front) && y in Ready(Induced(g, allowed), Filter(front, allowed)) && x !in front && x != y
    ensures !Reach(Induced(g, allowed), y, x)
  {
    hide Reach;
    var h, inside := Induced(g, allowed), Elements(Filter(front, allowed)) + {y};
    forall p, q {:trigger Edge(h, p, q)} | p in inside && Edge(h, p, q) ensures q in inside {
      if p != y {
        assert p in front;
        var k :| 0 <= k < |front| && front[k] == p;
        assert q in Elements(front[..k]);
        assert q in front && q in allowed;
      }
    }
    if Reach(h, y, x) {
      ReachStaysInside(h, inside, y, x);
    }
  }

  lemma {:induction false} FilterGreedyBy(alias: Alias, g: Graph<Name>, allowed: set<Name>, order: seq<Name>)
    requires Insulated(g, allowed) && GreedyBy(alias, g, order)
    ensures GreedyBy(alias, Induced(g, allowed), Filter(order, allowed))
  {
    hide GreedyBy, Insulated, InOrder, Ready, Filter, Induced;
    if order == [] {
      NothingFiltered(alias, g, allowed);
    } else {
      var front, x := order[..|order| - 1], order[|order| - 1];
      assert order == front + [x];
      GreedyFront(alias, g, front, x);
      FilterGreedyBy(alias, g, allowed, front);
      GreedyInOrder(alias, g, order);
      FilterSnoc(front, x, allowed);
      if x in allowed {
        FilterGreedyStep(alias, g, allowed, front, x);
      }
    }
  }

  lemma NothingFiltered(alias: Alias, g: Graph<Name>, allowed: set<Name>)
    ensures GreedyBy(alias, Induced(g, allowed), Filter([], allowed))
  {
  }

  lemma FilterSnoc(front: seq<Name>, x: Name, allowed: set<Name>)
    ensures Filter(front + [x], allowed) ==
      if x in allowed then Filter(front, allowed) + [x] else Filter(front, allowed)
  {
    assert (front + [x])[..|front|] == front;
  }

  lemma FilterGreedyStep(alias: Alias, g: Graph<Name>, allowed: set<Name>, front: seq<Name>, x: Name)
    requires Insulated(g, allowed) && InOrder(g, front + [x]) && LeastBy(alias, Ready(g, front), x) && x in allowed
    requires GreedyBy(alias, Induced(g, allowed), Filter(front, allowed))
    ensures GreedyBy(alias, Induced(g, allowed), Filter(front, allowed) + [x])
  {
    hide GreedyBy, Insulated, InOrder, Ready, Filter;
    var h, f := Induced(g, allowed), Filter(front, allowed);
    FilteredReady(alias, g, allowed, front, x);
    forall y | y in Ready(h, f) ensures Leq(alias(x), alias(y)) {
      ReadyInBoth(alias, g, allowed, front, x, y);
    }
    GreedyMore(alias, h, f, x);
  }

  lemma GreedyFront(alias: Alias, g: Graph<Name>, front: seq<Name>, x: Name)
    requires GreedyBy(alias, g, front + [x])
    ensures GreedyBy(alias, g, front) && LeastBy(alias, Ready(g, front), x)
  {
    var order := front + [x];
    forall k | 0 <= k < |front| ensures LeastBy(alias, Ready(g, front[..k]), front[k]) {
      assert order[..k] == front[..k] && LeastBy(alias, Ready(g, order[..k]), order[k]);
    }
    assert order[..|front|] == front && LeastBy(alias, Ready(g, order[..|front|]), order[|front|]);
  }

  lemma GreedyMore(alias: Alias, g: Graph<Name>, front: seq<Name>, x: Name)
    requires GreedyBy(alias, g, front) && LeastBy(alias, Ready(g, front), x)
    ensures GreedyBy(alias, g, front + [x])
  {
    var order := front + [x];
    forall k | 0 <= k < |order| ensures LeastBy(alias, Ready(g, order[..k]), order[k]) {
      if k < |front| {
        assert order[..k] == front[..k] && LeastBy(alias, Ready(g, front[..k]), front[k]);
      } else {
        assert order[..k] == front;
      }
    }
  }

  /** A published crate that is ready is ready in the smaller graph. */
  lemma FilteredReady(alias: Alias, g: Graph<Name>, allowed: set<Name>, front: seq<Name>, x: Name)
    requires LeastBy(alias, Ready(g, front), x) && x in allowed
    ensures x in Ready(Induced(g, allowed), Filter(front, allowed))
  {
    assert forall d :: d in g[x] * allowed ==> d in front && d in Filter(front, allowed);
  }

  /** Under every alias, when unpublished crates cannot change the order. */
  lemma InsulatedAgree(alias: Alias, g: Graph<Name>, allowed: set<Name>)
    requires Acyclic(g) && (forall v, w :: Edge(g, v, w) ==> w in g)
    requires Injective(alias) && Insulated(g, allowed)
    ensures AgreeBy(alias, g, allowed)
  {
    hide Insulated, Acyclic, GreedyBy, Injective;
    forall order, induced | KahnBy(alias, g, order) && KahnBy(alias, Induced(g, allowed), induced)
      ensures induced == Filter(order, allowed)
    {
      FilterGreedyBy(alias, g, allowed, order);
      AllListed(alias, g, order);
      assert forall v :: v in g ==> v in order;
      assert Ready(Induced(g, allowed), Filter(order, allowed)) == {};
      KahnByUnique(alias, Induced(g, allowed), induced, Filter(order, allowed));
    }
  }

  /** With the crates' own names. */
  lemma InsulatedSameOrder(g: Graph<Name>, allowed: set<Name>, order: seq<Name>, induced: seq<Name>)
    requires Acyclic(g) && (forall v, w :: Edge(g, v, w) ==> w in g) && Insulated(g, allowed)
    requires IsKahnOrder(g, order) && IsKahnOrder(Induced(g, allowed), induced)
    ensures induced == Filter(order, allowed)
  {
    hide Acyclic, Insulated, KahnBy, IsKahnOrder;
    OwnNames(g, order);
    OwnNames(Induced(g, allowed), induced);
    InsulatedAgree(n => n, g, allowed);
  }

  lemma AllListed(alias: Alias, g: Graph<Name>, order: seq<Name>)
    requires Acyclic(g) && (forall v, w :: Edge(g, v, w) ==> w in g) && KahnBy(alias, g, order)
    ensures forall v :: v in g ==> v in order
  {
    hide Acyclic;
    forall v | v in g ensures v in order {
      if v !in order {
        var x := SomethingReady(g, order, v);
      }
    }
  }

  // ----- not insulated: some alias tells them apart -----

  /** `x` is listed before `y`. */
  ghost predicate Before(s: seq<Name>, x: Name, y: Name) {
    exists i, j :: 0 <= i < j < |s| && s[i] == x && s[j] == y
  }

  lemma NotBothWays(s: seq<Name>, x: Name, y: Name)
    requires NoDup(s) && Before(s, x, y)
    ensures !Before(s, y, x)
  {
  }

  lemma {:induction false} FilterKeepsBefore(s: seq<Name>, allowed: set<Name>, x: Name, y: Name)
    requires Before(s, x, y) && x in allowed && y in allowed
    ensures Before(Filter(s, allowed), x, y)
  {
    var i, j :| 0 <= i < j < |s| && s[i] == x && s[j] == y;
    var front, last := s[..|s| - 1], s[|s| - 1];
    assert s == front + [last];
    FilterSnoc(front, last, allowed);
    if j < |s| - 1 {
      assert front[i] == x && front[j] == y;
      FilterKeepsBefore(front, allowed, x, y);
      var f := Filter(front, allowed);
      var k, l :| 0 <= k < l < |f| && f[k] == x && f[l] == y;
      assert Filter(s, allowed)[k] == x && Filter(s, allowed)[l] == y;
    } else {
      assert front[i] == x;
      var f := Filter(front, allowed);
      assert x in f;
      var k :| 0 <= k < |f| && f[k] == x;
      assert Filter(s, allowed)[k] == x && Filter(s, allowed)[|f|] == y;
    }
  }

  /** The alias that tells `a` and `b` apart: what `a` needs among the published sorts first, `w` last. */
  ghost function Apart(h: Graph<Name>, a: Name, w: Name): Alias {
    n => [if Reach(h, a, n) then '0' else if n == w then '2' else '1'] + n
  }

  lemma ApartInjective(h: Graph<Name>, a: Name, w: Name)
    ensures Injective(Apart(h, a, w))
  {
    hide Reach;
    var alias := Apart(h, a, w);
    forall x, y | alias(x) == alias(y) ensures x == y {
      assert alias(x)[1..] == x && alias(y)[1..] == y;
    }
  }

  /** When `v` is listed, nothing that comes earlier by name is still waited for by `u`. */
  lemma ListedFirst(alias: Alias, g: Graph<Name>, order: seq<Name>, u: Name, v: Name)
    requires Acyclic(g) && (forall p, q :: Edge(g, p, q) ==> q in g)
    requires KahnBy(alias, g, order) && u in g && v in g && u != v
    requires forall x :: Reach(g, u, x) ==> !Leq(alias(v), alias(x))
    ensures Before(order, u, v)
  {
    hide Reach, Acyclic, Leq;
    AllListed(alias, g, order);
    var j :| 0 <= j < |order| && order[j] == v;
    NextIsReady(alias, g, order, j);
    if u !in order[..j] {
      var x := SomethingReady(g, order[..j], u);
    }
    var i :| 0 <= i < |order[..j]| && order[..j][i] == u;
    assert order[i] == u;
  }

  lemma NeededIsBefore(alias: Alias, g: Graph<Name>, order: seq<Name>, a: Name, w: Name)
    requires Acyclic(g) && (forall p, q :: Edge(g, p, q) ==> q in g)
    requires KahnBy(alias, g, order) && a in g && a != w && Reach(g, a, w)
    ensures Before(order, w, a)
  {
    hide Reach, Acyclic;
    AllListed(alias, g, order);
    GreedyInOrder(alias, g, order);
    var j :| 0 <= j < |order| && order[j] == a;
    NeededBefore(g, order, j, w);
    var i :| 0 <= i < |order[..j]| && order[..j][i] == w;
    assert order[i] == w;
  }

  lemma BeforeTrans(s: seq<Name>, x: Name, y: Name, z: Name)
    requires NoDup(s) && Before(s, x, y) && Before(s, y, z)
    ensures Before(s, x, z)
  {
  }

  /** One pair that is not insulated is enough: there is an alias under which the two scripts disagree. */
  lemma NotInsulatedDisagree(g: Graph<Name>, allowed: set<Name>, a: Name, b: Name, w: Name) returns (alias: Alias)
    requires Acyclic(g) && (forall v, w :: Edge(g, v, w) ==> w in g)
    requires a in g && b in g && a in allowed && b in allowed && a != b && !Reach(g, b, a)
    requires !Reach(Induced(g, allowed), a, b) && w !in allowed && Reach(g, a, w) && !Reach(g, b, w)
    ensures Injective(alias) && !AgreeBy(alias, g, allowed)
  {
    hide Reach, Acyclic, GreedyBy, Filter;
    var h := Induced(g, allowed);
    alias := Apart(h, a, w);
    ApartInjective(h, a, w);
    InducedIsAcyclic(g, allowed);
    NothingListed(alias, g);
    NothingListed(alias, h);
    var order := KahnByExists(alias, g, []);
    var induced := KahnByExists(alias, h, []);
    // in the whole graph: b, then w, then a
    InGraph(g, a, w);
    forall x | Reach(g, b, x) ensures !Leq(alias(w), alias(x)) {
      LastByName(g, allowed, a, b, w, x);
    }
    ListedFirst(alias, g, order, b, w);
    NeededIsBefore(alias, g, order, a, w);
    GreedyInOrder(alias, g, order);
    BeforeTrans(order, b, w, a);
    FilterKeepsBefore(order, allowed, b, a);
    // in the smaller graph: a, then b
    forall x | Reach(h, a, x) ensures !Leq(alias(b), alias(x)) {
    }
    ListedFirst(alias, h, induced, a, b);
    GreedyInOrder(alias, h, induced);
    NotBothWays(induced, a, b);
  }

  lemma NothingListed(alias: Alias, g: Graph<Name>)
    ensures GreedyBy(alias, g, [])
  {
  }

  lemma InducedIsAcyclic(g: Graph<Name>, allowed: set<Name>)
    requires Acyclic(g) && forall v, w :: Edge(g, v, w) ==> w in g
    ensures Acyclic(Induced(g, allowed)) && forall v, w :: Edge(Induced(g, allowed), v, w) ==> w in Induced(g, allowed)
  {
    hide OnCycle;
    var h := Induced(g, allowed);
    forall v ensures !OnCycle(h, v) {
      if OnCycle(h, v) {
        OnCycleMonotone(h, g, v);
      }
    }
    forall v, w | Edge(h, v, w) ensures w in h {
      assert Edge(g, v, w);
    }
  }

  lemma InGraph(g: Graph<Name>, a: Name, w: Name)
    requires a in g && Reach(g, a, w) && forall v, w :: Edge(g, v, w) ==> w in g
    ensures w in g
  {
    hide Reach;
    ReachStaysInside(g, g.Keys, a, w);
  }

  /** Published crates that `a` needs keep to themselves and `w` sorts last, so nothing `b` needs sorts after it. */
  lemma LastByName(g: Graph<Name>, allowed: set<Name>, a: Name, b: Name, w: Name, x: Name)
    requires a in allowed && w !in allowed && Reach(g, b, x) && !Reach(g, b, w)
    ensures !Leq(Apart(Induced(g, allowed), a, w)(w), Apart(Induced(g, allowed), a, w)(x))
  {
    hide Reach;
    var h := Induced(g, allowed);
    if Reach(h, a, w) {
      forall p, q {:trigger Edge(h, p, q)} | p in allowed && Edge(h, p, q) ensures q in allowed {
      }
      ReachStaysInside(h, allowed, a, w);
    }
  }

  /** Both scripts list the same crates in the same order whatever the crates are called, exactly when the published
      crates are insulated from the unpublished ones. */
  lemma AgreeIffInsulated(g: Graph<Name>, allowed: set<Name>)
    requires Acyclic(g) && forall v, w :: Edge(g, v, w) ==> w in g
    ensures (forall alias :: Injective(alias) ==> AgreeBy(alias, g, allowed)) <==> Insulated(g, allowed)
  {
    hide Reach, Acyclic, AgreeBy, Injective;
    if Insulated(g, allowed) {
      forall alias | Injective(alias) ensures AgreeBy(alias, g, allowed) {
        InsulatedAgree(alias, g, allowed);
      }
    } else {
      var a, b :| a in g && b in g && a in allowed && b in allowed && a != b && !Reach(g, b, a)
        && !Reach(Induced(g, allowed), a, b) && !NeedsNoMore(g, allowed, a, b);
      var w :| w !in allowed && Reach(g, a, w) && !Reach(g, b, w);
      var alias := NotInsulatedDisagree(g, allowed, a, b, w);
    }
  }
}
