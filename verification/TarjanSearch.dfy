/** `tarjan_sccs` as the source runs it: a recursive search that updates shared variables. */
module TarjanSearch {
  import opened Names
  import opened Graphs
  import opened Tarjan

  /** `comp` numbers the popped nodes by their position in `sccs`. */
  ghost predicate Numbered<T(!new)>(sccs: seq<seq<T>>, comp: map<T, nat>) {
    && (forall x :: x in comp ==> comp[x] < |sccs| && x in sccs[comp[x]])
    && (forall i, x :: 0 <= i < |sccs| && x in sccs[i] ==> x in comp && comp[x] == i)
    && (forall i :: 0 <= i < |sccs| ==> NoDup(sccs[i]) && sccs[i] != [])
  }

  /** The stack lists its nodes in the order of their indices. */
  ghost predicate Ordered<T>(stack: seq<T>, index: map<T, nat>) {
    && (forall i :: 0 <= i < |stack| ==> stack[i] in index)
    && (forall i, j :: 0 <= i < j < |stack| ==> index[stack[i]] < index[stack[j]])
  }

  /** The pop loop, on its way from the stack `st` down to its position `k`. */
  ghost predicate Popping<T>(st: seq<T>, k: nat, stack: seq<T>, scc: seq<T>) {
    && k <= |stack| <= |st| && stack == st[..|stack|] && |scc| == |st| - |stack|
    && forall i :: 0 <= i < |scc| ==> scc[i] == st[|st| - 1 - i]
  }

  ghost predicate Marked<T(!new)>(onStack: map<T, bool>, stack: seq<T>) {
    forall x :: x in onStack && onStack[x] <==> x in stack
  }

  lemma OrderedDistinct<T>(stack: seq<T>, index: map<T, nat>)
    requires Ordered(stack, index)
    ensures NoDup(stack)
  {
  }

  /** One pop, not yet at `k`: the top is unmarked and goes to the component, and it was at `k` if it is `st[k]`. */
  lemma PopStep<T(!new)>(st: seq<T>, k: nat, stack: seq<T>, scc: seq<T>, onStack: map<T, bool>)
    requires Popping(st, k, stack, scc) && |stack| > k && NoDup(st) && Marked(onStack, stack)
    ensures var w, rest := stack[|stack| - 1], stack[..|stack| - 1];
      && Popping(st, k, rest, scc + [w]) && Marked(onStack[w := false], rest)
      && (w == st[k] <==> |rest| == k)
  {
    var w, rest := stack[|stack| - 1], stack[..|stack| - 1];
    assert stack == rest + [w] && w == st[|rest|];
    assert w !in rest by {
      assert forall i :: 0 <= i < |rest| ==> rest[i] == st[i];
    }
  }

  lemma Popped<T>(st: seq<T>, k: nat, stack: seq<T>, scc: seq<T>)
    requires Popping(st, k, stack, scc) && |stack| == k
    ensures stack == st[..k] && |scc| == |st| - k && forall i :: 0 <= i < |scc| ==> scc[i] == st[|st| - 1 - i]
  {
  }

  lemma OrderedPrefix<T>(stack: seq<T>, index: map<T, nat>, k: nat)
    requires Ordered(stack, index) && k <= |stack|
    ensures Ordered(stack[..k], index)
  {
  }

  ghost predicate Closed<T(!new)>(g: Graph<T>, u: set<T>) {
    forall x, y {:trigger Edge(g, x, y)} :: x in u && Edge(g, x, y) ==> y in u
  }

  /** Cutting an ordered stack at position `k` separates the smaller indices from the larger. */
  lemma SplitAt<T>(st: seq<T>, index: map<T, nat>, k: nat, scc: seq<T>)
    requires Ordered(st, index) && k < |st| && |scc| == |st| - k
    requires forall i :: 0 <= i < |scc| ==> scc[i] == st[|st| - 1 - i]
    ensures Elements(st[..k]) == set x | x in st && index[x] < index[st[k]]
    ensures Elements(scc) == set x | x in st && index[x] >= index[st[k]]
    ensures NoDup(scc)
  {
    forall x | x in st ensures (index[x] < index[st[k]] <==> x in st[..k]) && (x in st[..k] || x in scc)
    {
      var i :| 0 <= i < |st| && st[i] == x;
      if i < k { assert st[..k][i] == x; } else { assert scc[|st| - 1 - i] == x; }
    }
  }

  ghost predicate Agree<T(!new)>(g: Graph<T>, universe: set<T>, stack: seq<T>, index: map<T, nat>,
                                 onStack: map<T, bool>, sccs: seq<seq<T>>, comp: map<T, nat>)
  {
    && Ordered(stack, index)
    && (forall x :: x in onStack && onStack[x] <==> x in stack)
    && Numbered(sccs, comp)
    && index.Keys <= universe && Closed(g, universe)
  }

  lemma PushAgrees<T(!new)>(g: Graph<T>, universe: set<T>, stack: seq<T>, index: map<T, nat>,
                            onStack: map<T, bool>, sccs: seq<seq<T>>, comp: map<T, nat>, v: T, counter: nat)
    requires Agree(g, universe, stack, index, onStack, sccs, comp)
    requires v in universe && v !in index && forall x :: x in index ==> index[x] < counter
    ensures Agree(g, universe, stack + [v], index[v := counter], onStack[v := true], sccs, comp)
    ensures Elements(stack + [v]) == Elements(stack) + {v}
  {
    hide Numbered, Closed;
  }

  class Search<T(==, !new)> {
    const graph: Graph<T>
    ghost const universe: set<T>
    var stack: seq<T>
    var index: map<T, nat>
    var lowlink: map<T, nat>
    var onStack: map<T, bool>
    var sccs: seq<seq<T>>
    var counter: nat
    ghost var gray: set<T>
    ghost var comp: map<T, nat>

    ghost function View(): State<T>
      reads this
    {
      State(Elements(stack), index, lowlink, counter, gray, comp, |sccs|)
    }

    ghost predicate Valid()
      reads this
    {
      Inv(graph, View()) && Tied()
    }

    /** The concrete variables agree with one another. */
    ghost predicate Tied()
      reads this
    {
      Agree(graph, universe, stack, index, onStack, sccs, comp)
    }

    constructor (g: Graph<T>, ghost u: set<T>)
      requires Closed(g, u)
      ensures Valid() && graph == g && universe == u && index == map[] && gray == {} && sccs == []
    {
      graph, universe := g, u;
      stack, index, lowlink, onStack, sccs, counter := [], map[], map[], map[], [], 0;
      gray, comp := {}, map[];
    }

    /** The `while True: w = stack.pop()` loop: everything stacked since `v`, latest first. */
    method PopComponent(v: T) returns (scc: seq<T>)
      requires Ordered(stack, index) && v in stack
      requires forall x :: x in onStack && onStack[x] <==> x in stack
      modifies this`stack, this`onStack
      ensures Ordered(stack, index) && stack <= old(stack)
      ensures forall x :: x in onStack && onStack[x] <==> x in stack
      ensures Elements(stack) == set x | x in old(stack) && index[x] < index[v]
      ensures Elements(scc) == set x | x in old(stack) && index[x] >= index[v]
      ensures NoDup(scc) && scc != []
    {
      hide Ordered, NoDup;
      ghost var st := stack;
      ghost var k :| 0 <= k < |st| && st[k] == v;
      OrderedDistinct(st, index);
      scc := [];
      var found := false;
      while !found
        invariant Popping(st, k, stack, scc) && (found <==> |stack| == k)
        invariant Marked(onStack, stack)
        decreases |stack|
      {
        PopStep(st, k, stack, scc, onStack);
        var w := stack[|stack| - 1];
        stack := stack[..|stack| - 1];
        onStack := onStack[w := false];
        scc := scc + [w];
        found := w == v;
      }
      Popped(st, k, stack, scc);
      OrderedPrefix(st, index, k);
      SplitAt(st, index, k, scc);
    }

    /** First part of `strongconnect`: number `v` and stack it. */
    method Begin(v: T)
      requires Valid() && v in universe && v !in index
      requires forall x :: x in gray ==> Reach(graph, x, v)
      modifies this
      ensures Tied() && Scanning(graph, old(View()), View(), v, {})
    {
      hide Inv, Agree, Elements, Reach, Scanning;
      ghost var s := View();
      EnterOk(graph, s, v);
      InvShape(graph, s);
      PushAgrees(graph, universe, stack, index, onStack, sccs, comp, v, counter);
      index := index[v := counter];
      lowlink := lowlink[v := counter];
      counter := counter + 1;
      stack := stack + [v];
      onStack := onStack[v := true];
      gray := gray + {v};
      assert View() == Enter(s, v);
    }

    /** Last part of `strongconnect`: pop a component when `v` is its root. */
    method End(v: T, ghost s: State<T>)
      requires Tied() && Scanning(graph, s, View(), v, Succ(graph, v))
      modifies this
      ensures Tied() && Returned(graph, s, View(), v)
    {
      hide Scanning, Returned, Inv, Reach, Agree;
      ghost var t := View();
      ScanFacts(graph, s, t, v);
      if lowlink[v] == index[v] {
        PopOk(graph, s, t, v);
        PopRoot(v, t);
      } else {
        LeaveOk(graph, s, t, v);
        gray := gray - {v};
      }
    }

    method PopRoot(v: T, ghost t: State<T>)
      requires Tied() && v in stack && Shape(t) && t == View()
      modifies this
      ensures Tied() && View() == Pop(t, v)
    {
      hide Numbered, Closed, Ordered;
      ghost var before := sccs;
      var scc := PopComponent(v);
      SegmentIs(t, v, scc);
      RestIs(t, v, stack);
      PopNumbered(t, v, before, scc);
      sccs := sccs + [scc];
      gray, comp := gray - {v}, Pop(t, v).comp;
    }

    /** One turn of `for w in graph.get(v, set())`. */
    method Visit(v: T, w: T, ghost s: State<T>, ghost done: set<T>)
      requires Tied() && Scanning(graph, s, View(), v, done) && Edge(graph, v, w) && v in universe
      modifies this
      ensures Tied() && Scanning(graph, s, View(), v, done + {w})
      decreases universe - index.Keys, 1
    {
      hide Scanning, Returned, Inv, Reach, Ordered, Numbered;
      ghost var t := View();
      BeforeChild(graph, s, t, v, w, done);
      if w !in index {
        assert w in universe;
        StrongConnect(w);
        ReturnedValid(graph, t, View(), w);
        ChildOk(graph, s, t, View(), v, w, done);
        lowlink := lowlink[v := Min(lowlink[v], lowlink[w])];
      } else {
        KnownOk(graph, s, t, v, w, done);
        assert (w in onStack && onStack[w]) <==> w in t.open;
        if w in onStack && onStack[w] {
          lowlink := lowlink[v := Min(lowlink[v], index[w])];
        }
      }
    }

    method StrongConnect(v: T)
      requires Valid() && v in universe && v !in index
      requires forall x :: x in gray ==> Reach(graph, x, v)
      modifies this
      ensures Valid() && Returned(graph, old(View()), View(), v)
      decreases universe - index.Keys, 0
    {
      hide Agree, Inv, Reach, Scanning, Returned;
      ghost var s := View();
      Begin(v);
      var todo := Succ(graph, v);
      assert Succ(graph, v) - todo == {};
      while todo != {}
        invariant todo <= Succ(graph, v)
        invariant Tied() && Scanning(graph, s, View(), v, Succ(graph, v) - todo)
        decreases todo
      {
        var w :| w in todo;
        ghost var done := Succ(graph, v) - todo;
        BeforeChild(graph, s, View(), v, w, done);
        todo := todo - {w};
        assert done + {w} == Succ(graph, v) - todo;
        Visit(v, w, s, done);
      }
      assert Succ(graph, v) - todo == Succ(graph, v);
      End(v, s);
      ReturnedValid(graph, s, View(), v);
    }
  }

  lemma ReturnedValid<T(!new)>(g: Graph<T>, s: State<T>, t: State<T>, v: T)
    requires Returned(g, s, t, v)
    ensures Inv(g, t) && v in t.lowlink && s.index.Keys <= t.index.Keys && v in t.index && s.gray == t.gray
  {
  }

  lemma SegmentIs<T(!new)>(t: State<T>, v: T, scc: seq<T>)
    requires Shape(t) && v in t.index
    requires Elements(scc) == set x | x in t.open && t.index[x] >= t.index[v]
    ensures Elements(scc) == Segment(t, v)
  {
  }

  lemma RestIs<T(!new)>(t: State<T>, v: T, stack: seq<T>)
    requires Shape(t) && v in t.index
    requires Elements(stack) == set x | x in t.open && t.index[x] < t.index[v]
    ensures Elements(stack) == t.open - Segment(t, v)
  {
  }

  lemma ScanFacts<T(!new)>(g: Graph<T>, s: State<T>, t: State<T>, v: T)
    requires Scanning(g, s, t, v, Succ(g, v))
    ensures Shape(t) && v in t.open && v in t.index && v in t.lowlink
  {
  }

  lemma BeforeChild<T(!new)>(g: Graph<T>, s: State<T>, t: State<T>, v: T, w: T, done: set<T>)
    requires Scanning(g, s, t, v, done) && Edge(g, v, w)
    ensures forall x :: x in t.gray ==> Reach(g, x, w)
    ensures Inv(g, t) && s.index.Keys < t.index.Keys && v in t.lowlink && v in t.index
  {
    hide LowScan, EdgesDone;
    ReachEdge(g, v, w);
    hide Reach;
    forall x | x in t.gray ensures Reach(g, x, w) {
      assert t.index[x] <= t.index[v];
      ReachTrans(g, x, v, w);
    }
  }

  lemma PopNumbered<T(!new)>(t: State<T>, v: T, sccs: seq<seq<T>>, scc: seq<T>)
    requires Shape(t) && v in t.index && |sccs| == t.closed && Numbered(sccs, t.comp)
    requires Elements(scc) == Segment(t, v) && NoDup(scc) && scc != []
    ensures Numbered(sccs + [scc], Pop(t, v).comp)
  {
    var r := Pop(t, v).comp;
    forall x | x in scc ensures x in r && r[x] == |sccs| {
      assert x in Elements(scc);
    }
    forall x | x in r ensures r[x] < |sccs| + 1 && x in (sccs + [scc])[r[x]] {
      if x !in t.comp { assert x in Elements(scc); }
    }
  }

  /** The nodes the search is about: everything reachable from `nodes`. */
  ghost predicate Explored<T(!new)>(g: Graph<T>, nodes: seq<T>, v: T) {
    exists n :: n in nodes && Reach(g, n, v)
  }

  /** `sccs` partitions the explored nodes into the strongly connected components of `g`, every
      dependency's component listed no later than its dependent's. */
  ghost predicate IsSccList<T(!new)>(g: Graph<T>, nodes: seq<T>, sccs: seq<seq<T>>) {
    && (forall v :: Explored(g, nodes, v) <==> exists i :: 0 <= i < |sccs| && v in sccs[i])
    && (forall i :: 0 <= i < |sccs| ==> NoDup(sccs[i]) && sccs[i] != [])
    && (forall i, j, v, w :: 0 <= i < |sccs| && 0 <= j < |sccs| && v in sccs[i] && w in sccs[j] ==>
          (i == j <==> Mutual(g, v, w)))
    && (forall i, j, v, w :: 0 <= i < |sccs| && 0 <= j < |sccs| && v in sccs[i] && w in sccs[j] && Edge(g, v, w) ==>
          j <= i)
  }

  /** When every call has returned, the numbering of the popped nodes classifies them. */
  lemma NumberingClassifies<T(!new)>(g: Graph<T>, s: State<T>, v: T, w: T)
    requires Inv(g, s) && s.gray == {} && v in s.comp && w in s.comp
    ensures s.comp[v] == s.comp[w] <==> Mutual(g, v, w)
  {
    if Mutual(g, v, w) {
      NoClimb(g, s, v, w);
      NoClimb(g, s, w, v);
    }
  }

  /** Reachability never leads to a component popped later. */
  lemma NoClimb<T(!new)>(g: Graph<T>, s: State<T>, v: T, w: T)
    requires Inv(g, s) && v in s.comp && Reach(g, v, w)
    ensures w in s.comp && s.comp[w] <= s.comp[v]
  {
    hide Connected;
    var below := set x | x in s.comp && s.comp[x] <= s.comp[v];
    ReachStaysInside(g, below, v, w);
  }

  /** With no call active the stack is empty. */
  lemma NothingOpen<T(!new)>(g: Graph<T>, s: State<T>)
    requires Inv(g, s) && s.gray == {}
    ensures s.open == {} && s.index.Keys == s.comp.Keys
  {
    hide EdgesDone, Reach;
    assert forall y {:trigger ReachesGray(g, s, y)} :: y in s.open ==> ReachesGray(g, s, y);
    assert forall y :: !(y in s.open && ReachesGray(g, s, y));
  }

  /** The popped nodes are the explored ones. */
  lemma CoversExplored<T(!new)>(g: Graph<T>, nodes: seq<T>, s: State<T>, sccs: seq<seq<T>>, v: T)
    requires Inv(g, s) && Numbered(sccs, s.comp)
    requires forall v :: v in nodes ==> v in s.comp
    requires forall v :: v in s.comp ==> Explored(g, nodes, v)
    ensures Explored(g, nodes, v) <==> exists i :: 0 <= i < |sccs| && v in sccs[i]
  {
    hide Reach, Inv, NoDup;
    if Explored(g, nodes, v) {
      var n :| n in nodes && Reach(g, n, v);
      NoClimb(g, s, n, v);
      assert v in sccs[s.comp[v]];
    }
  }

  lemma EdgesGoDown<T(!new)>(g: Graph<T>, s: State<T>, v: T, w: T)
    requires Inv(g, s) && v in s.comp && Edge(g, v, w)
    ensures w in s.comp && s.comp[w] <= s.comp[v]
  {
    hide Reach, Connected;
  }

  lemma NumberedPositions<T(!new)>(sccs: seq<seq<T>>, comp: map<T, nat>)
    requires Numbered(sccs, comp)
    ensures forall i, x :: 0 <= i < |sccs| && x in sccs[i] ==> x in comp && comp[x] == i
    ensures forall i :: 0 <= i < |sccs| ==> NoDup(sccs[i]) && sccs[i] != []
  {
  }

  lemma ClassifiedList<T(!new)>(g: Graph<T>, nodes: seq<T>, s: State<T>, sccs: seq<seq<T>>)
    requires Inv(g, s) && s.gray == {} && Numbered(sccs, s.comp)
    requires forall v :: v in nodes ==> v in s.comp
    requires forall v :: v in s.comp ==> Explored(g, nodes, v)
    ensures IsSccList(g, nodes, sccs)
  {
    hide Reach, Inv, Mutual, Explored, Numbered, Edge;
    NumberedPositions(sccs, s.comp);
    forall v ensures Explored(g, nodes, v) <==> exists i :: 0 <= i < |sccs| && v in sccs[i] {
      CoversExplored(g, nodes, s, sccs, v);
    }
    forall i, j, v, w | 0 <= i < |sccs| && 0 <= j < |sccs| && v in sccs[i] && w in sccs[j]
      ensures i == j <==> Mutual(g, v, w)
    {
      NumberingClassifies(g, s, v, w);
    }
    forall i, j, v, w | 0 <= i < |sccs| && 0 <= j < |sccs| && v in sccs[i] && w in sccs[j] && Edge(g, v, w)
      ensures j <= i
    {
      EdgesGoDown(g, s, v, w);
    }
  }

  /** Every node the search can come across: a finite set closed under the edges. */
  ghost function Universe<T(!new)>(g: Graph<T>, nodes: seq<T>): set<T> {
    set x | x in Elements(nodes) + (set x, y | x in g && y in g[x] :: y) && Explored(g, nodes, x)
  }

  lemma UniverseClosed<T(!new)>(g: Graph<T>, nodes: seq<T>)
    ensures Closed(g, Universe(g, nodes))
    ensures forall x :: x in nodes ==> x in Universe(g, nodes)
    ensures forall x :: x in Universe(g, nodes) ==> Explored(g, nodes, x)
  {
    hide Reach;
    forall x | x in nodes ensures x in Universe(g, nodes) {
      ReachRefl(g, x);
      assert x in nodes && Reach(g, x, x) && x in Elements(nodes);
    }
    forall x, y {:trigger Edge(g, x, y)} | x in Universe(g, nodes) && Edge(g, x, y) ensures y in Universe(g, nodes) {
      var n :| n in nodes && Reach(g, n, x);
      ReachEdge(g, x, y);
      ReachTrans(g, n, x, y);
      assert x in g && y in g[x];
    }
  }

  /** `tarjan_sccs(graph, nodes)`. */
  method Sccs<T(==, !new)>(graph: Graph<T>, nodes: seq<T>) returns (sccs: seq<seq<T>>)
    ensures IsSccList(graph, nodes, sccs)
  {
    hide Inv, Returned, Reach, Closed, Explored, Numbered, Ordered, Universe;
    UniverseClosed(graph, nodes);
    var search := new Search(graph, Universe(graph, nodes));
    for i := 0 to |nodes|
      invariant search.Valid() && search.graph == graph && search.gray == {}
      invariant search.universe == Universe(graph, nodes)
      invariant forall k :: 0 <= k < i ==> nodes[k] in search.index
    {
      if nodes[i] !in search.index {
        ghost var s := search.View();
        search.StrongConnect(nodes[i]);
        ReturnedValid(graph, s, search.View(), nodes[i]);
      }
    }
    NothingOpen(graph, search.View());
    ClassifiedList(graph, nodes, search.View(), search.sccs);
    sccs := search.sccs;
  }
}
