/** Kahn's sort with a sorted ready queue, in the two forms the scripts use it. */
module Kahn {
  import opened Sets
  import opened Names
  import opened Graphs

  /** What may come next: unlisted crates whose dependencies are all listed. */
  ghost function Ready(deps: Graph<Name>, order: seq<Name>): set<Name> {
    ReadyAt(deps, Elements(order))
  }

  ghost function ReadyAt(deps: Graph<Name>, listed: set<Name>): set<Name> {
    set n | n in deps && n !in listed && deps[n] <= listed
  }

  ghost predicate IsLeast(s: set<Name>, x: Name) {
    x in s && forall y :: y in s ==> Leq(x, y)
  }

  /** Each crate listed was the least one that could come next. */
  ghost predicate Greedy(deps: Graph<Name>, order: seq<Name>) {
    forall k :: 0 <= k < |order| ==> IsLeast(Ready(deps, order[..k]), order[k])
  }

  /** `order` is the greedy order carried on until nothing is ready. */
  ghost predicate IsKahnOrder(deps: Graph<Name>, order: seq<Name>) {
    Greedy(deps, order) && Ready(deps, order) == {}
  }

  /** All of `deps`, each crate once, after everything it depends on. */
  ghost predicate IsTopological(deps: Graph<Name>, t: seq<Name>) {
    && NoDup(t) && Elements(t) == deps.Keys
    && forall i :: 0 <= i < |t| ==> deps[t[i]] <= Elements(t[..i])
  }

  /** Dictionary order on lists of names. */
  ghost predicate LexLeq(a: seq<Name>, b: seq<Name>) {
    a == b || exists k :: 0 <= k < |a| && k < |b| && a[..k] == b[..k] && Less(a[k], b[k])
  }

  // ----- consequences of greed -----

  lemma GreedyBasics(deps: Graph<Name>, order: seq<Name>)
    requires Greedy(deps, order)
    ensures NoDup(order)
    ensures forall i :: 0 <= i < |order| ==> order[i] in deps && deps[order[i]] <= Elements(order[..i])
  {
    forall i | 0 <= i < |order|
      ensures order[i] in deps && order[i] !in order[..i] && deps[order[i]] <= Elements(order[..i])
    {
      assert IsLeast(Ready(deps, order[..i]), order[i]);
    }
    forall i, j | 0 <= i < j < |order| ensures order[i] != order[j] {
      assert order[..j][i] == order[i];
    }
  }

  lemma {:induction false} GreedyPrefix(deps: Graph<Name>, a: seq<Name>, b: seq<Name>, k: nat)
    requires Greedy(deps, a) && Greedy(deps, b) && k <= |a| && k <= |b|
    ensures a[..k] == b[..k]
  {
    if k > 0 {
      GreedyPrefix(deps, a, b, k - 1);
      LeqAntisymmetric(a[k - 1], b[k - 1]);
      assert a[..k] == a[..k - 1] + [a[k - 1]] && b[..k] == b[..k - 1] + [b[k - 1]];
    }
  }

  lemma GreedyNext(deps: Graph<Name>, order: seq<Name>, k: nat)
    requires Greedy(deps, order) && k < |order|
    ensures order[k] in Ready(deps, order[..k])
  {
    assert IsLeast(Ready(deps, order[..k]), order[k]);
  }

  lemma KahnOrderLongest(deps: Graph<Name>, a: seq<Name>, b: seq<Name>)
    requires IsKahnOrder(deps, a) && Greedy(deps, b)
    ensures |b| <= |a| && b == a[..|b|]
  {
    hide Greedy, Ready;
    assert a[..|a|] == a && b[..|b|] == b;
    if |a| < |b| {
      GreedyPrefix(deps, a, b, |a|);
      GreedyNext(deps, b, |a|);
    } else {
      GreedyPrefix(deps, a, b, |b|);
    }
  }

  /** There is only one Kahn order. */
  lemma KahnOrderUnique(deps: Graph<Name>, a: seq<Name>, b: seq<Name>)
    requires IsKahnOrder(deps, a) && IsKahnOrder(deps, b)
    ensures a == b
  {
    KahnOrderLongest(deps, a, b);
    KahnOrderLongest(deps, b, a);
  }

  lemma FirstDifference<T>(a: seq<T>, b: seq<T>) returns (k: nat)
    requires |a| == |b| && a != b
    ensures k < |a| && a[..k] == b[..k] && a[k] != b[k]
  {
    k := 0;
    while a[k] == b[k]
      invariant 0 <= k < |a| && a[..k] == b[..k]
      decreases |a| - k
    {
      k := k + 1;
    }
  }

  /** A complete Kahn order is the least of all topological orders, in dictionary order. */
  lemma KahnOrderLeast(deps: Graph<Name>, order: seq<Name>, t: seq<Name>)
    requires IsKahnOrder(deps, order) && Elements(order) == deps.Keys && IsTopological(deps, t)
    ensures IsTopological(deps, order) && LexLeq(order, t)
  {
    GreedyBasics(deps, order);
    NoDupLength(order);
    NoDupLength(t);
    if order != t {
      var k := FirstDifference(order, t);
      assert t[k] !in t[..k];
      assert t[k] in Elements(t);
      assert t[k] in Ready(deps, order[..k]);
    }
  }

  // ----- completeness is acyclicity -----

  /** The first `i + 1` crates of a topological order form a set closed under dependencies. */
  lemma PrefixClosed(deps: Graph<Name>, t: seq<Name>, i: nat, v: Name)
    requires NoDup(t) && i < |t| && Reach(deps, t[i], v)
    requires forall k :: 0 <= k < |t| ==> t[k] in deps && deps[t[k]] <= Elements(t[..k])
    ensures v in t[..i + 1]
  {
    var s := Elements(t[..i + 1]);
    forall x, y {:trigger Edge(deps, x, y)} | x in s && Edge(deps, x, y) ensures y in s {
      var k :| 0 <= k < |t[..i + 1]| && t[..i + 1][k] == x;
      assert t[k] == x && y in Elements(t[..k]);
      var m :| 0 <= m < |t[..k]| && t[..k][m] == y;
      assert t[..i + 1][m] == y;
    }
    assert t[..i + 1][i] == t[i];
    ReachStaysInside(deps, s, t[i], v);
  }

  lemma TopologicalAcyclic(deps: Graph<Name>, t: seq<Name>)
    requires IsTopological(deps, t)
    ensures Acyclic(deps)
  {
    forall v ensures !OnCycle(deps, v) {
      if OnCycle(deps, v) {
        var w :| Edge(deps, v, w) && Reach(deps, w, v);
        assert v in Elements(t);
        var j :| 0 <= j < |t| && t[j] == v;
        assert w in Elements(t[..j]);
        var i :| 0 <= i < |t[..j]| && t[..j][i] == w;
        PrefixClosed(deps, t, i, v);
      }
    }
  }

  /** The nodes of `r` strictly beyond `v`. */
  ghost function Beyond<T(!new)>(g: Graph<T>, r: set<T>, v: T): set<T> {
    set x | x in r && exists y :: Edge(g, v, y) && Reach(g, y, x)
  }

  ghost predicate Continues<T(!new)>(g: Graph<T>, r: set<T>, x: T) {
    exists y :: y in r && Edge(g, x, y)
  }

  ghost predicate NoSink<T(!new)>(g: Graph<T>, r: set<T>) {
    forall x {:trigger Continues(g, r, x)} :: x in r ==> Continues(g, r, x)
  }

  lemma BeyondHasNoSink<T(!new)>(g: Graph<T>, r: set<T>, v: T)
    requires NoSink(g, r) && v in r
    ensures NoSink(g, Beyond(g, r, v)) && Beyond(g, r, v) != {}
  {
    hide Reach;
    var b := Beyond(g, r, v);
    assert Continues(g, r, v);
    var y :| y in r && Edge(g, v, y);
    ReachRefl(g, y);
    assert y in b;
    forall x {:trigger Continues(g, b, x)} | x in b ensures Continues(g, b, x) {
      assert Continues(g, r, x);
      var z :| z in r && Edge(g, x, z);
      var u :| Edge(g, v, u) && Reach(g, u, x);
      ReachEdge(g, x, z);
      ReachTrans(g, u, x, z);
      assert z in b;
    }
  }

  /** A nonempty finite set in which every node has a successor contains a cycle. */
  lemma {:induction false} NoSinkMeansCycle<T(!new)>(g: Graph<T>, r: set<T>) returns (v: T)
    requires r != {} && NoSink(g, r)
    ensures OnCycle(g, v)
    decreases |r|
  {
    hide NoSink, Beyond, OnCycle;
    v :| v in r;
    if !OnCycle(g, v) {
      var b := Beyond(g, r, v);
      BeyondHasNoSink(g, r, v);
      BeyondIsSmaller(g, r, v);
      ProperSubsetCount(b, r, v);
      v := NoSinkMeansCycle(g, b);
    }
  }

  lemma BeyondIsSmaller<T(!new)>(g: Graph<T>, r: set<T>, v: T)
    requires !OnCycle(g, v)
    ensures Beyond(g, r, v) <= r - {v}
  {
    hide Reach;
  }

  /** When the sort stops early, what is left over has no crate free of leftover dependencies. */
  lemma LeftoverHasNoSink(deps: Graph<Name>, order: seq<Name>)
    requires IsKahnOrder(deps, order) && forall v, w :: Edge(deps, v, w) ==> w in deps
    ensures NoSink(deps, deps.Keys - Elements(order))
  {
    var rest := deps.Keys - Elements(order);
    forall x {:trigger Continues(deps, rest, x)} | x in rest ensures Continues(deps, rest, x) {
      assert x !in Ready(deps, order);
      var y :| y in deps[x] && y !in Elements(order);
      assert Edge(deps, x, y);
    }
  }

  /** The sort lists every crate exactly when the graph has no cycle. */
  lemma KahnCompleteIffAcyclic(deps: Graph<Name>, order: seq<Name>)
    requires IsKahnOrder(deps, order) && forall v, w :: Edge(deps, v, w) ==> w in deps
    ensures Elements(order) == deps.Keys <==> Acyclic(deps)
    ensures |order| == |deps| <==> Acyclic(deps)
  {
    hide NoSink, OnCycle, Elements, Greedy, Ready;
    KahnListed(deps, order);
    LeftoverHasNoSink(deps, order);
    if Elements(order) == deps.Keys {
      TopologicalAcyclic(deps, order);
    } else {
      var rest := deps.Keys - Elements(order);
      var x :| x in deps.Keys && x !in Elements(order);
      assert x in rest;
      var v := NoSinkMeansCycle(deps, rest);
      ProperSubsetCount(Elements(order), deps.Keys, x);
    }
  }

  lemma KahnListed(deps: Graph<Name>, order: seq<Name>)
    requires Greedy(deps, order)
    ensures Elements(order) <= deps.Keys && |Elements(order)| == |order|
    ensures Elements(order) == deps.Keys ==> IsTopological(deps, order)
  {
    GreedyBasics(deps, order);
    NoDupLength(order);
  }

  // ----- the two loops -----

  ghost predicate ListedClosed(deps: Graph<Name>, listed: set<Name>) {
    forall n :: n in listed && n in deps ==> deps[n] <= listed
  }

  /** The crates, among those not in `pending`, whose last unlisted dependency is `node`. */
  ghost function Freed(deps: Graph<Name>, listed: set<Name>, node: Name, pending: set<Name>): set<Name> {
    set n | n in deps && n !in pending && deps[n] - listed == {node}
  }

  /** Listing `node` makes ready exactly the crates whose only unlisted dependency it was. */
  lemma ReadyAfter(deps: Graph<Name>, listed: set<Name>, node: Name)
    requires node in ReadyAt(deps, listed) && ListedClosed(deps, listed)
    ensures ReadyAt(deps, listed + {node}) == ReadyAt(deps, listed) - {node} + Freed(deps, listed, node, {})
  {
    forall n | n in deps ensures n in ReadyAt(deps, listed + {node}) <==>
      (n in ReadyAt(deps, listed) - {node} || n in Freed(deps, listed, node, {}))
    {
      assert deps[n] <= listed + {node} <==> deps[n] - listed <= {node};
    }
  }

  /** How many of the dependencies `d` are not listed yet. */
  ghost function Unmet(d: set<Name>, listed: set<Name>): nat {
    |d - listed|
  }

  lemma CountDown(d: set<Name>, listed: set<Name>, node: Name)
    requires node !in listed
    ensures Unmet(d, listed + {node}) == Unmet(d, listed) - (if node in d then 1 else 0)
    ensures d - listed == {node} <==> node in d && Unmet(d, listed + {node}) == 0
  {
    assert d - (listed + {node}) == d - listed - {node};
    if node in d {
      assert d - listed == (d - listed - {node}) + {node};
    }
  }

  lemma GreedyExtends(deps: Graph<Name>, order: seq<Name>, node: Name)
    requires Greedy(deps, order) && IsLeast(Ready(deps, order), node)
    ensures Greedy(deps, order + [node])
  {
    var after := order + [node];
    forall k | 0 <= k < |after| ensures IsLeast(Ready(deps, after[..k]), after[k]) {
      if k < |order| {
        assert after[..k] == order[..k];
      } else {
        assert after[..k] == order;
      }
    }
  }

  lemma GreedyClosed(deps: Graph<Name>, order: seq<Name>)
    requires Greedy(deps, order)
    ensures ListedClosed(deps, Elements(order))
  {
    GreedyBasics(deps, order);
    forall n | n in order && n in deps ensures deps[n] <= Elements(order) {
      var i :| 0 <= i < |order| && order[i] == n;
      assert Elements(order[..i]) <= Elements(order);
    }
  }

  /** `queue` is the sorted list of what is ready. */
  ghost predicate IsQueue(deps: Graph<Name>, listed: set<Name>, queue: seq<Name>) {
    Sorted(queue) && NoDup(queue) && Elements(queue) == ReadyAt(deps, listed)
  }

  lemma QueueStart(deps: Graph<Name>, queue: seq<Name>)
    requires Sorted(queue) && NoDup(queue) && Elements(queue) == set n | n in deps && deps[n] == {}
    ensures IsQueue(deps, {}, queue) && Greedy(deps, []) && Elements<Name>([]) == {}
  {
    hide Sorted, NoDup;
  }

  lemma QueueNone(deps: Graph<Name>, order: seq<Name>)
    requires Greedy(deps, order) && IsQueue(deps, Elements(order), [])
    ensures IsKahnOrder(deps, order)
  {
  }

  lemma QueueHead(deps: Graph<Name>, listed: set<Name>, queue: seq<Name>)
    requires IsQueue(deps, listed, queue) && queue != []
    ensures IsLeast(ReadyAt(deps, listed), queue[0])
    ensures NoDup(queue[1..]) && Sorted(queue[1..]) && Elements(queue[1..]) == ReadyAt(deps, listed) - {queue[0]}
  {
    hide ReadyAt;
    assert queue[0] in Elements(queue);
    forall y | y in Elements(queue) ensures Leq(queue[0], y) {
      LeqReflexive(queue[0]);
    }
    assert queue == [queue[0]] + queue[1..];
  }

  /** `queue.append(name); queue.sort()` */
  method Queued(queue: seq<Name>, name: Name) returns (r: seq<Name>)
    requires NoDup(queue) && name !in Elements(queue)
    ensures Sorted(r) && NoDup(r) && Elements(r) == Elements(queue) + {name}
  {
    ElementsSnoc(queue, name);
    hide Sorted, NoDup, Elements;
    r := Sort(queue + [name]);
  }

  /** The in-degrees count unlisted dependencies, `node` being listed for all but `pending`. */
  ghost predicate Degrees(deps: Graph<Name>, listed: set<Name>, node: Name, degree: map<Name, nat>,
                          pending: set<Name>)
  {
    && degree.Keys == deps.Keys
    && forall n :: n in deps ==> degree[n] == Unmet(deps[n], if n in pending then listed else listed + {node})
  }

  lemma DegreeStep(deps: Graph<Name>, listed: set<Name>, node: Name, degree: map<Name, nat>,
                   pending: set<Name>, name: Name)
    requires Degrees(deps, listed, node, degree, pending) && name in pending && pending <= deps.Keys
    requires node !in listed
    ensures name in degree && (node in deps[name] ==> degree[name] > 0)
    ensures Degrees(deps, listed, node,
      if node in deps[name] then degree[name := degree[name] - 1] else degree, pending - {name})
    ensures node in deps[name] && degree[name] == 1 <==> deps[name] - listed == {node}
  {
    hide Unmet;
    CountDown(deps[name], listed, node);
  }

  lemma FreedNone(deps: Graph<Name>, listed: set<Name>, node: Name)
    requires node in ReadyAt(deps, listed)
    ensures Freed(deps, listed, node, deps.Keys) == {} && node in deps && node !in listed
  {
  }

  lemma FreedStep(deps: Graph<Name>, listed: set<Name>, node: Name, pending: set<Name>, name: Name)
    requires name in pending && pending <= deps.Keys && node !in listed
    ensures Freed(deps, listed, node, pending - {name}) == Freed(deps, listed, node, pending) +
      (if deps[name] - listed == {node} then {name} else {})
    ensures node in deps[name] ==> name !in ReadyAt(deps, listed) && name !in Freed(deps, listed, node, pending)
  {
  }

  /** The inner loop of publish-topo.py: lower the in-degrees of `node`'s dependents and queue those
      that reach zero, re-sorting after each. The dictionary is visited in any order. */
  method Relax(deps: Graph<Name>, ghost listed: set<Name>, node: Name, degree: map<Name, nat>, rest: seq<Name>)
    returns (degree': map<Name, nat>, queue: seq<Name>)
    requires node in ReadyAt(deps, listed) && ListedClosed(deps, listed)
    requires Degrees(deps, listed, node, degree, deps.Keys)
    requires NoDup(rest) && Sorted(rest) && Elements(rest) == ReadyAt(deps, listed) - {node}
    ensures Degrees(deps, listed, node, degree', {})
    ensures IsQueue(deps, listed + {node}, queue)
  {
    hide Sorted, NoDup, Elements, Degrees, Freed, ReadyAt, ListedClosed;
    degree', queue := degree, rest;
    var pending := deps.Keys;
    FreedNone(deps, listed, node);
    while pending != {}
      invariant pending <= deps.Keys
      invariant Degrees(deps, listed, node, degree', pending)
      invariant Sorted(queue) && NoDup(queue)
      invariant Elements(queue) == ReadyAt(deps, listed) - {node} + Freed(deps, listed, node, pending)
      decreases pending
    {
      var name :| name in pending;
      DegreeStep(deps, listed, node, degree', pending, name);
      FreedStep(deps, listed, node, pending, name);
      pending := pending - {name};
      if node in deps[name] {
        degree' := degree'[name := degree'[name] - 1];
        if degree'[name] == 0 {
          queue := Queued(queue, name);
        }
      }
    }
    ReadyAfter(deps, listed, node);
  }

  /** The topological sort of `compute_publish_order`. */
  method SortByDegree(deps: Graph<Name>) returns (order: seq<Name>)
    ensures IsKahnOrder(deps, order)
  {
    hide Sorted, NoDup, Elements, IsQueue, Greedy, ListedClosed, IsKahnOrder, ReadyAt;
    var degree: map<Name, nat> := map n | n in deps :: |deps[n]|;
    order := [];
    ghost var listed := {};
    assert forall n :: n in deps ==> deps[n] - listed == deps[n];
    var queue := SortedList(set n | n in deps && deps[n] == {});
    QueueStart(deps, queue);
    while queue != []
      invariant Greedy(deps, order) && IsQueue(deps, listed, queue) && listed == Elements(order)
      invariant degree.Keys == deps.Keys && forall n :: n in deps ==> degree[n] == Unmet(deps[n], listed)
      decreases deps.Keys - listed
    {
      var node := queue[0];
      QueueHead(deps, listed, queue);
      GreedyClosed(deps, order);
      GreedyExtends(deps, order, node);
      FreedNone(deps, listed, node);
      degree, queue := Relax(deps, listed, node, degree, queue[1..]);
      ElementsSnoc(order, node);
      order := order + [node];
      listed := listed + {node};
    }
    QueueNone(deps, order);
  }

  /** The inner loop of `derive_crates`, over the crates in sorted order: strike `name` off the
      remaining dependencies, sort the ready list once. */
  method Strike(deps: Graph<Name>, ghost listed: set<Name>, name: Name, remaining: Graph<Name>, rest: seq<Name>)
    returns (remaining': Graph<Name>, ready: seq<Name>)
    requires name in ReadyAt(deps, listed) && remaining.Keys == deps.Keys && ListedClosed(deps, listed)
    requires forall n :: n in deps ==> remaining[n] == deps[n] - listed
    requires NoDup(rest) && Elements(rest) == ReadyAt(deps, listed) - {name}
    ensures remaining'.Keys == deps.Keys
    ensures forall n :: n in deps ==> remaining'[n] == deps[n] - (listed + {name})
    ensures IsQueue(deps, listed + {name}, ready)
  {
    hide Sorted, NoDup, Elements;
    remaining', ready := remaining, rest;
    var names := SortedList(deps.Keys);
    ghost var pending := deps.Keys;
    assert ReadyAt(deps, listed) - {name} == ReadyAt(deps, listed) - {name} + Freed(deps, listed, name, pending);
    for i := 0 to |names|
      invariant remaining'.Keys == deps.Keys && pending <= deps.Keys && Left(names, i, pending)
      invariant forall n :: n in pending ==> remaining'[n] == deps[n] - listed
      invariant forall n :: n in deps && n !in pending ==> remaining'[n] == deps[n] - listed - {name}
      invariant NoDup(ready)
      invariant Elements(ready) == ReadyAt(deps, listed) - {name} + Freed(deps, listed, name, pending)
    {
      var dependent := names[i];
      LeftNext(names, i, pending);
      ghost var before := pending;
      pending := pending - {dependent};
      assert Freed(deps, listed, name, pending) == Freed(deps, listed, name, before) +
        (if deps[dependent] - listed == {name} then {dependent} else {});
      if name in remaining'[dependent] {
        remaining' := remaining'[dependent := remaining'[dependent] - {name}];
        if remaining'[dependent] == {} {
          assert deps[dependent] - listed == {name};
          ElementsSnoc(ready, dependent);
          ready := ready + [dependent];
        }
      }
    }
    LeftNone(names, pending);
    ReadyAfter(deps, listed, name);
    forall n | n in deps ensures deps[n] - listed - {name} == deps[n] - (listed + {name}) {
    }
    ready := Sort(ready);
  }

  /** `pending` is what `names` holds from position `i` on. */
  ghost predicate Left(names: seq<Name>, i: nat, pending: set<Name>) {
    i <= |names| && NoDup(names) && pending == Elements(names[i..])
  }

  lemma LeftNext(names: seq<Name>, i: nat, pending: set<Name>)
    requires Left(names, i, pending) && i < |names|
    ensures Left(names, i + 1, pending - {names[i]}) && names[i] in pending
  {
    assert names[i..] == [names[i]] + names[i + 1..];
  }

  lemma LeftNone(names: seq<Name>, pending: set<Name>)
    requires Left(names, |names|, pending)
    ensures pending == {}
  {
  }

  /** The sort of `derive_crates`. */
  method SortByStriking(deps: Graph<Name>) returns (order: seq<Name>)
    ensures IsKahnOrder(deps, order)
  {
    hide Sorted, NoDup, Elements, IsQueue, Greedy, ListedClosed, IsKahnOrder, ReadyAt;
    var remaining := deps;
    order := [];
    ghost var listed := {};
    var ready := SortedList(set n | n in deps && deps[n] == {});
    QueueStart(deps, ready);
    while ready != []
      invariant Greedy(deps, order) && IsQueue(deps, listed, ready) && listed == Elements(order)
      invariant remaining.Keys == deps.Keys && forall n :: n in deps ==> remaining[n] == deps[n] - listed
      decreases deps.Keys - listed
    {
      var name := ready[0];
      QueueHead(deps, listed, ready);
      GreedyClosed(deps, order);
      GreedyExtends(deps, order, name);
      FreedNone(deps, listed, name);
      remaining, ready := Strike(deps, listed, name, remaining, ready[1..]);
      ElementsSnoc(order, name);
      order := order + [name];
      listed := listed + {name};
    }
    QueueNone(deps, order);
  }
}
