/** `tarjan_sccs`: strongly connected components in reverse topological order. */
module Tarjan {
  import opened Graphs

  /** The variables the nested `strongconnect` shares. `open` is the set of stacked nodes, `gray`
      the calls still active, `comp` the component number of every node already popped and
      `closed` how many components have been popped. */
  datatype State<!T> = State(
    open: set<T>, index: map<T, nat>, lowlink: map<T, nat>, counter: nat,
    gray: set<T>, comp: map<T, nat>, closed: nat)

  ghost predicate Shape<T>(s: State<T>) {
    && s.index.Keys == s.open + s.comp.Keys && s.open !! s.comp.Keys
    && s.gray <= s.open
    && s.lowlink.Keys == s.index.Keys
    && (forall x :: x in s.index ==> s.index[x] < s.counter)
    && (forall x :: x in s.comp ==> s.comp[x] < s.closed)
  }

  /** Edges of finished nodes: a returned node has no unvisited successor, and a popped node has
      successors only in its own component or in ones popped before. */
  ghost predicate EdgesDone<T(!new)>(g: Graph<T>, s: State<T>) {
    && (forall x, y {:trigger Edge(g, x, y)} :: x in s.index && x !in s.gray && Edge(g, x, y) ==> y in s.index)
    && (forall x, y {:trigger Edge(g, x, y)} :: x in s.comp && Edge(g, x, y) ==> y in s.comp && s.comp[y] <= s.comp[x])
  }

  ghost predicate Connected<T(!new)>(g: Graph<T>, s: State<T>)
    requires Shape(s)
  {
    && (forall x, y {:trigger Reach(g, x, y)} ::
          x in s.open && y in s.open && s.index[x] <= s.index[y] ==> Reach(g, x, y))
    && (forall y {:trigger ReachesGray(g, s, y)} :: y in s.open ==> ReachesGray(g, s, y))
    && (forall x, y {:trigger Reach(g, x, y)} ::
          x in s.comp && y in s.comp && s.comp[x] == s.comp[y] ==> Reach(g, x, y))
  }

  /** From a stacked node an active call that started no later is reachable. */
  ghost predicate ReachesGray<T(!new)>(g: Graph<T>, s: State<T>, y: T)
    requires Shape(s) && y in s.open
  {
    exists x :: x in s.gray && s.index[x] <= s.index[y] && Reach(g, y, x)
  }

  ghost predicate Inv<T(!new)>(g: Graph<T>, s: State<T>) {
    Shape(s) && EdgesDone(g, s) && Connected(g, s)
  }

  /** What an exploration started in `s` may have changed by the time it is in `t`. */
  ghost predicate Grows<T>(s: State<T>, t: State<T>)
    requires Shape(s) && Shape(t)
  {
    && s.counter <= t.counter && s.closed <= t.closed
    && (forall x :: x in s.index ==> x in t.index && t.index[x] == s.index[x] && t.lowlink[x] == s.lowlink[x])
    && (forall x :: x in s.comp ==> x in t.comp && t.comp[x] == s.comp[x])
    && s.open <= t.open
    && (forall x :: x in t.index && x !in s.index ==> t.index[x] >= s.counter)
  }

  /** Some stacked node with index `n` is reachable from `v`. */
  ghost predicate Witness<T(!new)>(g: Graph<T>, t: State<T>, v: T, n: nat)
    requires Shape(t)
  {
    exists z :: z in t.open && t.index[z] == n && Reach(g, v, z)
  }

  /** No edge leads from a node stacked since the counter stood at `c` to a node that was stacked
      in `s` with index below `n`. */
  ghost predicate NoEdgeBelow<T(!new)>(g: Graph<T>, s: State<T>, t: State<T>, c: nat, n: nat)
    requires Shape(s) && Shape(t)
  {
    forall x, y {:trigger Edge(g, x, y)} :: x in t.open && t.index[x] >= c && y in s.open && Edge(g, x, y) ==>
      n <= s.index[y]
  }

  /** What `lowlink[v]` tells the caller once `strongconnect(v)`, entered in `s`, is over. */
  ghost predicate LowOk<T(!new)>(g: Graph<T>, s: State<T>, t: State<T>, v: T)
    requires Shape(s) && Shape(t) && v in t.index
  {
    && t.lowlink[v] <= t.index[v]
    && (v in t.open ==> Witness(g, t, v, t.lowlink[v]))
    && (v !in t.open ==> t.lowlink[v] == t.index[v])
    && NoEdgeBelow(g, s, t, s.counter, t.lowlink[v])
  }

  /** `strongconnect(v)`, called in `s`, has returned in `t`. */
  ghost predicate Returned<T(!new)>(g: Graph<T>, s: State<T>, t: State<T>, v: T) {
    Inv(g, s) && Inv(g, t) && Grows(s, t) && t.gray == s.gray && v in t.index && LowOk(g, s, t, v)
  }

  /** The loop of `strongconnect(v)`: entered in `s`, now in `t`, successors `done` dealt with. */
  ghost predicate Scanning<T(!new)>(g: Graph<T>, s: State<T>, t: State<T>, v: T, done: set<T>) {
    && Inv(g, s) && v !in s.index
    && Inv(g, t) && Grows(s, t)
    && t.gray == s.gray + {v}
    && v in t.open && t.index[v] == s.counter
    && (forall x :: x in t.index && t.index[x] == s.counter ==> x == v)
    && s.counter < t.counter
    && LowScan(g, s, t, v, done)
  }

  ghost predicate LowScan<T(!new)>(g: Graph<T>, s: State<T>, t: State<T>, v: T, done: set<T>)
    requires Shape(s) && Shape(t) && v in t.index
  {
    && t.lowlink[v] <= t.index[v]
    && Witness(g, t, v, t.lowlink[v])
    && NoEdgeBelow(g, s, t, s.counter + 1, t.lowlink[v])
    && done <= t.index.Keys
    && (forall y :: y in done && y in s.open ==> t.lowlink[v] <= s.index[y])
  }

  function Min(a: nat, b: nat): nat { if a < b then a else b }

  // ----- the steps, as transformations of the state -----

  ghost function Enter<T>(s: State<T>, v: T): State<T> {
    s.(open := s.open + {v}, index := s.index[v := s.counter], lowlink := s.lowlink[v := s.counter],
       counter := s.counter + 1, gray := s.gray + {v})
  }

  ghost function Lower<T>(t: State<T>, v: T, n: nat): State<T>
    requires v in t.lowlink
  {
    t.(lowlink := t.lowlink[v := Min(t.lowlink[v], n)])
  }

  ghost function Leave<T>(t: State<T>, v: T): State<T> {
    t.(gray := t.gray - {v})
  }

  /** The nodes `strongconnect(v)` pops: those stacked since `v`. */
  ghost function Segment<T>(t: State<T>, v: T): set<T>
    requires Shape(t) && v in t.index
  {
    set x | x in t.open && t.index[x] >= t.index[v]
  }

  ghost function Pop<T>(t: State<T>, v: T): State<T>
    requires Shape(t) && v in t.index
  {
    t.(open := t.open - Segment(t, v), gray := t.gray - {v}, closed := t.closed + 1,
       comp := map x | x in t.comp.Keys + Segment(t, v) :: if x in t.comp then t.comp[x] else t.closed)
  }

  lemma EnterOk<T(!new)>(g: Graph<T>, s: State<T>, v: T)
    requires Inv(g, s) && v !in s.index
    requires forall x :: x in s.gray ==> Reach(g, x, v)
    ensures Scanning(g, s, Enter(s, v), v, {})
  {
    hide Reach, Connected;
    var t := Enter(s, v);
    ReachRefl(g, v);
    EnterConnected(g, s, v);
    assert v in t.open && t.index[v] == s.counter && Reach(g, v, v);
  }

  lemma EnterConnected<T(!new)>(g: Graph<T>, s: State<T>, v: T)
    requires Shape(s) && Connected(g, s) && v !in s.index && Reach(g, v, v)
    requires forall x :: x in s.gray ==> Reach(g, x, v)
    ensures Shape(Enter(s, v)) && Connected(g, Enter(s, v))
  {
    hide Reach;
    var t := Enter(s, v);
    forall x | x in s.open ensures Reach(g, x, v) {
      assert ReachesGray(g, s, x);
      var c :| c in s.gray && s.index[c] <= s.index[x] && Reach(g, x, c);
      ReachTrans(g, x, c, v);
    }
    forall y {:trigger ReachesGray(g, t, y)} | y in t.open ensures ReachesGray(g, t, y) {
      var c := if y == v then v else
        assert ReachesGray(g, s, y);
        var c :| c in s.gray && s.index[c] <= s.index[y] && Reach(g, y, c); c;
      assert c in t.gray && t.index[c] <= t.index[y];
    }
  }

  /** Only `lowlink` differs, so what the search knows about the graph is unaffected. */
  lemma LowerInv<T(!new)>(g: Graph<T>, t: State<T>, v: T, n: nat)
    requires Inv(g, t) && v in t.index
    ensures Inv(g, Lower(t, v, n))
    ensures forall m: nat :: Witness(g, t, v, m) ==> Witness(g, Lower(t, v, n), v, m)
  {
    hide Reach;
    var r := Lower(t, v, n);
    forall y {:trigger ReachesGray(g, r, y)} | y in r.open ensures ReachesGray(g, r, y) {
      assert ReachesGray(g, t, y);
    }
  }

  lemma InvShape<T(!new)>(g: Graph<T>, s: State<T>)
    requires Inv(g, s)
    ensures Shape(s)
  {
  }

  /** Recording a lower link that `v` does reach keeps the scan of `v` sound. */
  lemma LowerScanning<T(!new)>(g: Graph<T>, s: State<T>, r: State<T>, v: T, n: nat, done: set<T>)
    requires Inv(g, s) && v !in s.index && Inv(g, r) && Grows(s, r)
    requires r.gray == s.gray + {v} && v in r.open && r.index[v] == s.counter < r.counter
    requires forall x :: x in r.index && r.index[x] == s.counter ==> x == v
    requires var m := Min(r.lowlink[v], n);
      && m <= s.counter && Witness(g, r, v, m) && NoEdgeBelow(g, s, r, s.counter + 1, m)
      && forall y :: y in done && y in s.open ==> m <= s.index[y]
    requires done <= r.index.Keys
    ensures Scanning(g, s, Lower(r, v, n), v, done)
  {
    hide Reach, Inv, Witness;
    InvShape(g, s);
    InvShape(g, r);
    LowerInv(g, r, v, n);
    var u, m := Lower(r, v, n), Min(r.lowlink[v], n);
    InvShape(g, u);
    assert u.lowlink[v] == m && Witness(g, u, v, m);
  }

  /** A successor already visited: `index[w]` when it is still stacked, nothing when it was popped. */
  lemma KnownOk<T(!new)>(g: Graph<T>, s: State<T>, t: State<T>, v: T, w: T, done: set<T>)
    requires Scanning(g, s, t, v, done)
    requires Edge(g, v, w) && w in t.index
    ensures w in t.open ==> Scanning(g, s, Lower(t, v, t.index[w]), v, done + {w})
    ensures w !in t.open ==> Scanning(g, s, t, v, done + {w})
  {
    hide Reach, Connected, EdgesDone;
    ReachEdge(g, v, w);
    if w in t.open {
      assert Witness(g, t, v, t.index[w]);
      var m := Min(t.lowlink[v], t.index[w]);
      assert NoEdgeBelow(g, s, t, s.counter + 1, m);
      LowerScanning(g, s, t, v, t.index[w], done + {w});
    }
  }

  lemma GrowsTrans<T>(s: State<T>, t: State<T>, r: State<T>)
    requires Shape(s) && Shape(t) && Shape(r) && Grows(s, t) && Grows(t, r)
    ensures Grows(s, r)
  {
  }

  /** The lower of the two links still names a stacked node reachable from `v`. */
  lemma ChildWitness<T(!new)>(g: Graph<T>, t: State<T>, r: State<T>, v: T, w: T)
    requires Shape(t) && Shape(r) && Grows(t, r) && v in t.index && w !in t.index && w in r.index
    requires Reach(g, v, w) && Witness(g, t, v, t.lowlink[v]) && LowOk(g, t, r, w)
    requires t.lowlink[v] <= t.index[v]
    ensures Witness(g, r, v, Min(t.lowlink[v], r.lowlink[w]))
  {
    hide Reach, NoEdgeBelow;
    var n, m := r.lowlink[w], t.lowlink[v];
    if n < m {
      var z :| z in r.open && r.index[z] == n && Reach(g, w, z);
      ReachTrans(g, v, w, z);
    } else {
      var z :| z in t.open && t.index[z] == m && Reach(g, v, z);
      assert z in r.open && r.index[z] == m;
    }
  }

  lemma ChildEdges<T(!new)>(g: Graph<T>, s: State<T>, t: State<T>, r: State<T>, c: nat, n: nat, m: nat)
    requires Shape(s) && Shape(t) && Shape(r) && Grows(s, t) && Grows(t, r)
    requires NoEdgeBelow(g, s, t, c, m) && NoEdgeBelow(g, t, r, t.counter, n)
    ensures NoEdgeBelow(g, s, r, c, Min(m, n))
  {
    forall x, y {:trigger Edge(g, x, y)} | x in r.open && r.index[x] >= c && y in s.open && Edge(g, x, y)
      ensures Min(m, n) <= s.index[y]
    {
      assert y in t.open && t.index[y] == s.index[y];
      assert x in t.index ==> x in t.open;
    }
  }

  /** A successor explored by a recursive call that went from `t` to `r`. */
  lemma ChildOk<T(!new)>(g: Graph<T>, s: State<T>, t: State<T>, r: State<T>, v: T, w: T, done: set<T>)
    requires Scanning(g, s, t, v, done)
    requires Edge(g, v, w) && w !in t.index && Returned(g, t, r, w)
    ensures v in r.lowlink && Scanning(g, s, Lower(r, v, r.lowlink[w]), v, done + {w})
  {
    hide Reach, Connected, EdgesDone, Witness, NoEdgeBelow;
    var n, m := r.lowlink[w], t.lowlink[v];
    ReachEdge(g, v, w);
    ChildWitness(g, t, r, v, w);
    ChildEdges(g, s, t, r, s.counter + 1, n, m);
    GrowsTrans(s, t, r);
    LowerScanning(g, s, r, v, n, done + {w});
  }

  /** Every node stacked since `v` reaches `v`. */
  lemma SegmentReachesRoot<T(!new)>(g: Graph<T>, s: State<T>, t: State<T>, v: T, done: set<T>, y: T)
    requires Scanning(g, s, t, v, done) && y in Segment(t, v)
    ensures Reach(g, y, v)
  {
    hide Reach;
    hide LowScan;
    assert ReachesGray(g, t, y);
    var x :| x in t.gray && t.index[x] <= t.index[y] && Reach(g, y, x);
    if x != v {
      assert x in s.gray && t.index[x] <= t.index[v];
      ReachTrans(g, y, x, v);
    }
  }

  /** The edges of `v` are all explored: nothing above `s.stack` leads below `lowlink[v]`. */
  lemma ScanOver<T(!new)>(g: Graph<T>, s: State<T>, t: State<T>, v: T)
    requires Scanning(g, s, t, v, Succ(g, v))
    ensures NoEdgeBelow(g, s, t, s.counter, t.lowlink[v])
    ensures forall x, y {:trigger Edge(g, x, y)} :: x in t.index && x !in s.gray && Edge(g, x, y) ==> y in t.index
  {
    hide Connected;
  }

  /** `lowlink[v] < index[v]`: `v` stays stacked and an older active call is reachable from it. */
  lemma LeaveOk<T(!new)>(g: Graph<T>, s: State<T>, t: State<T>, v: T)
    requires Scanning(g, s, t, v, Succ(g, v)) && t.lowlink[v] != t.index[v]
    ensures Returned(g, s, Leave(t, v), v)
  {
    hide Reach;
    var r := Leave(t, v);
    assert r.gray == s.gray;
    ScanOver(g, s, t, v);
    LeaveGray(g, t, v);
  }

  lemma LeaveGray<T(!new)>(g: Graph<T>, t: State<T>, v: T)
    requires Shape(t) && Connected(g, t) && v in t.open
    requires t.lowlink[v] < t.index[v] && Witness(g, t, v, t.lowlink[v])
    ensures Connected(g, Leave(t, v))
  {
    hide Reach;
    var r := Leave(t, v);
    var z :| z in t.open && t.index[z] == t.lowlink[v] && Reach(g, v, z);
    assert ReachesGray(g, t, z);
    var x :| x in t.gray && t.index[x] <= t.index[z] && Reach(g, z, x);
    ReachTrans(g, v, z, x);
    forall y {:trigger ReachesGray(g, r, y)} | y in r.open ensures ReachesGray(g, r, y) {
      assert ReachesGray(g, t, y);
      var c :| c in t.gray && t.index[c] <= t.index[y] && Reach(g, y, c);
      if c == v {
        ReachTrans(g, y, v, x);
      } else {
        assert c in r.gray;
      }
    }
  }

  lemma PopEdges<T(!new)>(g: Graph<T>, s: State<T>, t: State<T>, v: T)
    requires Scanning(g, s, t, v, Succ(g, v)) && t.lowlink[v] == t.index[v]
    ensures EdgesDone(g, Pop(t, v)) && NoEdgeBelow(g, s, t, s.counter, t.lowlink[v])
  {
    hide Reach, Connected, Witness;
    var r := Pop(t, v);
    ScanOver(g, s, t, v);
    PopShape(g, s, t, v);
    forall x, y {:trigger Edge(g, x, y)} | x in r.comp && Edge(g, x, y)
      ensures y in r.comp && r.comp[y] <= r.comp[x]
    {
      if x !in t.comp {
        assert y in t.index;
        assert y !in s.open;
      }
    }
  }

  /** `lowlink[v] == index[v]`: the nodes stacked since `v` are one whole component, with edges
      only among themselves and into components popped before. */
  lemma PopOk<T(!new)>(g: Graph<T>, s: State<T>, t: State<T>, v: T)
    requires Scanning(g, s, t, v, Succ(g, v)) && t.lowlink[v] == t.index[v]
    ensures Returned(g, s, Pop(t, v), v)
  {
    hide Reach, Connected, EdgesDone, Witness;
    var r := Pop(t, v);
    PopEdges(g, s, t, v);
    PopShape(g, s, t, v);
    PopConnected(g, s, t, v);
    assert NoEdgeBelow(g, s, r, s.counter, r.lowlink[v]);
  }

  lemma PopShape<T(!new)>(g: Graph<T>, s: State<T>, t: State<T>, v: T)
    requires Scanning(g, s, t, v, Succ(g, v))
    ensures var r := Pop(t, v);
      && Shape(r) && Grows(s, r) && r.open == s.open && r.gray == s.gray
      && (forall x :: x in r.comp && x !in t.comp ==> x in Segment(t, v) && r.comp[x] == t.closed)
  {
    hide Connected, EdgesDone, LowScan, Reach;
    var r := Pop(t, v);
    assert forall x :: x in t.open && x !in s.open ==> x in Segment(t, v);
  }

  lemma PopConnected<T(!new)>(g: Graph<T>, s: State<T>, t: State<T>, v: T)
    requires Scanning(g, s, t, v, Succ(g, v)) && Shape(Pop(t, v))
    ensures Connected(g, Pop(t, v))
  {
    hide Reach, EdgesDone, LowScan;
    var r := Pop(t, v);
    PopShape(g, s, t, v);
    forall x, y {:trigger Reach(g, x, y)} | x in r.comp && y in r.comp && r.comp[x] == r.comp[y]
      ensures Reach(g, x, y)
    {
      if x !in t.comp {
        assert y in Segment(t, v);
        SegmentReachesRoot(g, s, t, v, Succ(g, v), x);
        ReachTrans(g, x, v, y);
      } else {
        assert y in t.comp;
      }
    }
    forall y {:trigger ReachesGray(g, r, y)} | y in r.open ensures ReachesGray(g, r, y) {
      assert ReachesGray(g, s, y);
      var c :| c in s.gray && s.index[c] <= s.index[y] && Reach(g, y, c);
      assert c in r.gray && r.index[c] <= r.index[y];
    }
  }
}
