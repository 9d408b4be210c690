/** `build_publish_dependency_graph`: which dependencies order the publication. */
module PublishGraph {
  import opened Wrappers
  import opened Names
  import opened Graphs
  import opened TarjanSearch

  /** One `dependencies` entry of cargo metadata; a registry dependency has a `source`. */
  datatype Dependency = Dependency(name: Name, source: Option<string>, kind: Option<string>)

  /** `publish` is absent, or the list of registries the crate may be published to. */
  datatype Package = Package(
    id: string, name: Name, version: string, dependencies: seq<Dependency>, publish: Option<seq<string>>)

  ghost function PackageNames(packages: seq<Package>): set<Name> {
    set i | 0 <= i < |packages| :: packages[i].name
  }

  /** A workspace-internal dependency: no external source and a known name. */
  predicate Internal(names: set<Name>, d: Dependency) {
    d.source == None && d.name in names
  }

  predicate IsDev(d: Dependency) {
    d.kind == Some("dev")
  }

  /** Package entry `p` of the list makes `v` depend on `w`, as a dev dependency or otherwise. */
  ghost predicate Declares(packages: seq<Package>, dev: bool, v: Name, w: Name) {
    exists i, j :: 0 <= i < |packages| && 0 <= j < |packages[i].dependencies|
      && DeclaredAt(packages, dev, i, j, v, w)
  }

  ghost predicate DeclaredAt(packages: seq<Package>, dev: bool, i: int, j: int, v: Name, w: Name)
    requires 0 <= i < |packages| && 0 <= j < |packages[i].dependencies|
  {
    var d := packages[i].dependencies[j];
    packages[i].name == v && d.name == w && Internal(PackageNames(packages), d) && IsDev(d) == dev
  }

  /** The declared dependencies of one sort, as a graph over all packages. */
  ghost function Declared(packages: seq<Package>, dev: bool): Graph<Name> {
    var names := PackageNames(packages);
    map v | v in names :: set w | w in names && Declares(packages, dev, v, w)
  }

  lemma DeclaredEdges(packages: seq<Package>, dev: bool)
    ensures forall v, w :: Edge(Declared(packages, dev), v, w) <==> Declares(packages, dev, v, w)
  {
    forall v, w | Declares(packages, dev, v, w) ensures v in PackageNames(packages) && w in PackageNames(packages) {
      var i, j :| 0 <= i < |packages| && 0 <= j < |packages[i].dependencies| && DeclaredAt(packages, dev, i, j, v, w);
    }
  }

  /** `normal_deps[name] | dev_deps[name]` for every package. */
  function Union(normal: Graph<Name>, dev: Graph<Name>): Graph<Name> {
    map v | v in normal.Keys + dev.Keys :: Succ(normal, v) + Succ(dev, v)
  }

  /** The policy: every normal edge, and the dev edges between crates that do not reach each other. */
  ghost predicate IsKeptGraph(normal: Graph<Name>, dev: Graph<Name>, kept: Graph<Name>) {
    && kept.Keys == normal.Keys
    && forall v, w :: Edge(kept, v, w) <==>
        Edge(normal, v, w) || (Edge(dev, v, w) && !Mutual(Union(normal, dev), v, w))
  }

  /** The publication graph of a list of packages. */
  ghost function Kept(packages: seq<Package>): Graph<Name> {
    var normal, dev := Declared(packages, false), Declared(packages, true);
    map v | v in normal :: normal[v] + set w | w in Succ(dev, v) && !Mutual(Union(normal, dev), v, w)
  }

  lemma KeptIsKept(packages: seq<Package>)
    ensures IsKeptGraph(Declared(packages, false), Declared(packages, true), Kept(packages))
    ensures Kept(packages).Keys == PackageNames(packages)
    ensures forall v, w :: Edge(Kept(packages), v, w) ==> w in Kept(packages)
  {
    hide Mutual;
  }

  // ----- the policy in cargo's own terms -----

  /** Some package named `v` has a dependency without an external source on some package named `w`, of kind "dev" or
      of any other kind. */
  ghost predicate DependsOn(packages: seq<Package>, dev: bool, v: Name, w: Name) {
    && (exists p, d :: p in packages && d in p.dependencies && p.name == v && d.name == w
                       && d.source.None? && (dev <==> d.kind.Some? && d.kind.value == "dev"))
    && exists q :: q in packages && q.name == w
  }

  lemma DeclaredIs(packages: seq<Package>, dev: bool, v: Name, w: Name)
    ensures Edge(Declared(packages, dev), v, w) <==> DependsOn(packages, dev, v, w)
  {
    DeclaredEdges(packages, dev);
    if DependsOn(packages, dev, v, w) {
      var p, d :| p in packages && d in p.dependencies && p.name == v && d.name == w
        && d.source.None? && (dev <==> d.kind.Some? && d.kind.value == "dev");
      var i :| 0 <= i < |packages| && packages[i] == p;
      var j :| 0 <= j < |p.dependencies| && p.dependencies[j] == d;
      assert DeclaredAt(packages, dev, i, j, v, w);
    }
    if Declares(packages, dev, v, w) {
      var i, j :| 0 <= i < |packages| && 0 <= j < |packages[i].dependencies| && DeclaredAt(packages, dev, i, j, v, w);
      assert packages[i] in packages && packages[i].dependencies[j] in packages[i].dependencies;
      var k :| 0 <= k < |packages| && packages[k].name == w;
      assert packages[k] in packages;
    }
  }

  /** Every edge of the publication graph, and no other: what a crate depends on in any other way than for
      development, and those of its dev dependencies that do not lead back to it through dependencies of any kind. */
  lemma KeptEdgeIff(packages: seq<Package>, all: Graph<Name>, v: Name, w: Name)
    requires forall a, b :: Edge(all, a, b) <==> DependsOn(packages, false, a, b) || DependsOn(packages, true, a, b)
    ensures Edge(Kept(packages), v, w) <==>
      DependsOn(packages, false, v, w) || (DependsOn(packages, true, v, w) && !Reach(all, w, v))
  {
    hide Reach, DependsOn, Declared;
    KeptIsKept(packages);
    var normal, dev := Declared(packages, false), Declared(packages, true);
    var full := Union(normal, dev);
    forall a, b ensures Edge(full, a, b) <==> Edge(all, a, b) {
      DeclaredIs(packages, false, a, b);
      DeclaredIs(packages, true, a, b);
      assert Edge(full, a, b) <==> Edge(normal, a, b) || Edge(dev, a, b);
    }
    DeclaredIs(packages, false, v, w);
    DeclaredIs(packages, true, v, w);
    if Reach(all, w, v) { ReachMonotone(all, full, w, v); }
    if Reach(full, w, v) { ReachMonotone(full, all, w, v); }
    if Edge(dev, v, w) { ReachEdge(full, v, w); }
  }

  // ----- what the policy achieves -----

  lemma KeptBelowUnion(normal: Graph<Name>, dev: Graph<Name>, kept: Graph<Name>, v: Name, w: Name)
    requires IsKeptGraph(normal, dev, kept) && Reach(kept, v, w)
    ensures Reach(Union(normal, dev), v, w)
  {
    hide Reach, Mutual;
    ReachMonotone(kept, Union(normal, dev), v, w);
  }

  /** Every edge that lies on a cycle of the kept graph is a normal edge. */
  lemma CyclesAreNormal(normal: Graph<Name>, dev: Graph<Name>, kept: Graph<Name>, v: Name, w: Name)
    requires IsKeptGraph(normal, dev, kept) && Edge(kept, v, w) && Reach(kept, w, v)
    ensures Edge(normal, v, w)
  {
    hide Reach;
    var full := Union(normal, dev);
    KeptBelowUnion(normal, dev, kept, w, v);
    assert Edge(full, v, w);
    ReachEdge(full, v, w);
  }

  /** Dropping the dev edges inside components breaks every cycle a dev edge takes part in, and no
      other: the kept graph has a cycle exactly when the normal dependencies have one. */
  lemma KeptAcyclicIffNormalAcyclic(normal: Graph<Name>, dev: Graph<Name>, kept: Graph<Name>)
    requires IsKeptGraph(normal, dev, kept)
    ensures Acyclic(kept) <==> Acyclic(normal)
  {
    hide Reach, Mutual;
    if v, w :| Edge(normal, v, w) && Reach(normal, w, v) {
      ReachMonotone(normal, kept, w, v);
      assert Edge(kept, v, w) && OnCycle(kept, v);
      assert OnCycle(normal, v);
    }
    if v, w :| Edge(kept, v, w) && Reach(kept, w, v) {
      assert OnCycle(kept, v);
      ReachEdge(kept, v, w);
      CyclesAreNormal(normal, dev, kept, v, w);
      CycleSurvives(normal, dev, kept, v, w);
      assert OnCycle(normal, v);
    }
  }

  /** A kept walk back to `v` from a node `v` reaches uses normal edges only. */
  lemma CycleSurvives(normal: Graph<Name>, dev: Graph<Name>, kept: Graph<Name>, v: Name, w: Name)
    requires IsKeptGraph(normal, dev, kept) && Reach(kept, v, w) && Reach(kept, w, v)
    ensures Reach(normal, w, v)
  {
    var p :| WalkFromTo(kept, p, w, v);
    WalkSurvives(normal, dev, kept, v, w, p);
  }

  lemma {:induction false} WalkSurvives(
    normal: Graph<Name>, dev: Graph<Name>, kept: Graph<Name>, v: Name, w: Name, p: seq<Name>)
    requires IsKeptGraph(normal, dev, kept) && Reach(kept, v, w) && WalkFromTo(kept, p, w, v)
    ensures Reach(normal, w, v)
    decreases |p|
  {
    hide Reach, Mutual;
    if |p| == 1 {
      ReachRefl(normal, v);
    } else {
      var x, q := p[1], p[1..];
      assert Edge(kept, w, x) && WalkFromTo(kept, q, x, v);
      assert Reach(kept, x, v) by { WalkReaches(kept, q, x, v); }
      ReachEdge(kept, w, x);
      ReachTrans(kept, v, w, x);
      assert Reach(kept, x, w) by { ReachTrans(kept, x, v, w); }
      CyclesAreNormal(normal, dev, kept, w, x);
      WalkSurvives(normal, dev, kept, v, x, q);
      ReachEdge(normal, w, x);
      ReachTrans(normal, w, x, v);
    }
  }

  lemma WalkReaches<T(!new)>(g: Graph<T>, p: seq<T>, v: T, w: T)
    requires WalkFromTo(g, p, v, w)
    ensures Reach(g, v, w)
  {
  }

  // ----- the construction -----

  /** Declared by a package before position `i`, or among the first `j` dependencies of package `i`. */
  ghost predicate DeclaredSoFar(packages: seq<Package>, dev: bool, i: nat, j: nat, v: Name, w: Name) {
    exists a, b :: 0 <= a < |packages| && 0 <= b < |packages[a].dependencies| && (a < i || (a == i && b < j))
      && DeclaredAt(packages, dev, a, b, v, w)
  }

  ghost predicate CollectedSoFar(packages: seq<Package>, dev: bool, g: Graph<Name>, i: nat, j: nat) {
    && g.Keys == PackageNames(packages)
    && forall v, w :: Edge(g, v, w) <==> DeclaredSoFar(packages, dev, i, j, v, w)
  }

  /** Recording dependency `j` of package `i` where it belongs, or skipping it. */
  lemma CollectStep(packages: seq<Package>, dev: bool, g: Graph<Name>, h: Graph<Name>, i: nat, j: nat)
    requires i < |packages| && j < |packages[i].dependencies|
    requires CollectedSoFar(packages, dev, g, i, j)
    requires var d, n := packages[i].dependencies[j], packages[i].name;
      n in g && h == if Internal(PackageNames(packages), d) && IsDev(d) == dev then g[n := g[n] + {d.name}] else g
    ensures CollectedSoFar(packages, dev, h, i, j + 1)
  {
    forall v, w ensures Edge(h, v, w) <==> DeclaredSoFar(packages, dev, i, j + 1, v, w) {
      assert DeclaredSoFar(packages, dev, i, j + 1, v, w) <==>
        DeclaredSoFar(packages, dev, i, j, v, w) || DeclaredAt(packages, dev, i, j, v, w);
      assert Edge(h, v, w) <==> Edge(g, v, w) || DeclaredAt(packages, dev, i, j, v, w);
    }
  }

  lemma CollectNext(packages: seq<Package>, dev: bool, g: Graph<Name>, i: nat)
    requires i < |packages| && CollectedSoFar(packages, dev, g, i, |packages[i].dependencies|)
    ensures CollectedSoFar(packages, dev, g, i + 1, 0)
  {
    forall v, w ensures DeclaredSoFar(packages, dev, i + 1, 0, v, w)
      <==> DeclaredSoFar(packages, dev, i, |packages[i].dependencies|, v, w)
    {
    }
  }

  /** The loop that sorts the declared dependencies into `normal_deps` and `dev_deps`. */
  method CollectDependencies(packages: seq<Package>) returns (normal: Graph<Name>, dev: Graph<Name>)
    ensures normal == Declared(packages, false) && dev == Declared(packages, true)
  {
    var names := set i | 0 <= i < |packages| :: packages[i].name;
    normal := map v | v in names :: {};
    dev := map v | v in names :: {};
    for i := 0 to |packages|
      invariant CollectedSoFar(packages, false, normal, i, 0) && CollectedSoFar(packages, true, dev, i, 0)
    {
      var n := packages[i].name;
      var ds := packages[i].dependencies;
      for j := 0 to |ds|
        invariant CollectedSoFar(packages, false, normal, i, j) && CollectedSoFar(packages, true, dev, i, j)
      {
        ghost var normal0, dev0 := normal, dev;
        assert n in names;
        if Internal(names, ds[j]) {
          if IsDev(ds[j]) {
            dev := dev[n := dev[n] + {ds[j].name}];
          } else {
            normal := normal[n := normal[n] + {ds[j].name}];
          }
        }
        CollectStep(packages, false, normal0, normal, i, j);
        CollectStep(packages, true, dev0, dev, i, j);
        hide CollectedSoFar;
      }
      CollectNext(packages, false, normal, i);
      CollectNext(packages, true, dev, i);
    }
    CollectAll(packages, false, normal);
    CollectAll(packages, true, dev);
  }

  lemma CollectAll(packages: seq<Package>, dev: bool, g: Graph<Name>)
    requires CollectedSoFar(packages, dev, g, |packages|, 0)
    ensures g == Declared(packages, dev)
  {
    DeclaredEdges(packages, dev);
    forall v, w ensures DeclaredSoFar(packages, dev, |packages|, 0, v, w) <==> Declares(packages, dev, v, w) {
    }
    SameGraph(g, Declared(packages, dev));
  }

  /** `node_to_scc`: the component each explored node is listed in. */
  method NumberNodes(ghost g: Graph<Name>, ghost nodes: seq<Name>, sccs: seq<seq<Name>>)
    returns (number: map<Name, nat>)
    requires IsSccList(g, nodes, sccs)
    ensures forall v :: Explored(g, nodes, v) ==> v in number
    ensures forall v, w :: v in number && w in number ==> (number[v] == number[w] <==> Mutual(g, v, w))
  {
    number := map[];
    for i := 0 to |sccs|
      invariant forall v :: v in number ==> number[v] < i && v in sccs[number[v]]
      invariant forall k, v :: 0 <= k < i && v in sccs[k] ==> v in number
    {
      for j := 0 to |sccs[i]|
        invariant forall v :: v in number ==> number[v] <= i && v in sccs[number[v]]
        invariant forall k, v :: 0 <= k < i && v in sccs[k] ==> v in number
        invariant forall k :: 0 <= k < j ==> sccs[i][k] in number
      {
        number := number[sccs[i][j] := i];
      }
    }
  }

  /** `{package["name"] for package in packages}`, as a list without repetitions. */
  method NamesOf(packages: seq<Package>) returns (names: seq<Name>)
    ensures Elements(names) == PackageNames(packages) && NoDup(names)
  {
    names := [];
    for i := 0 to |packages|
      invariant NoDup(names)
      invariant forall k :: 0 <= k < i ==> packages[k].name in names
      invariant forall n :: n in names ==> n in PackageNames(packages)
    {
      if packages[i].name !in names {
        names := names + [packages[i].name];
      }
    }
  }

  lemma AllExplored(g: Graph<Name>, names: seq<Name>)
    requires forall v :: v in g ==> v in names
    ensures forall v :: v in g ==> Explored(g, names, v)
  {
    forall v | v in g ensures Explored(g, names, v) {
      ReachRefl(g, v);
      assert v in names && Reach(g, v, v);
    }
  }

  /** The last loop: normal dependencies, plus dev dependencies into another component. */
  method DropInnerDevEdges(normal: Graph<Name>, dev: Graph<Name>, number: map<Name, nat>) returns (kept: Graph<Name>)
    requires normal.Keys == dev.Keys && forall v, w :: Edge(dev, v, w) ==> v in number && w in number
    requires forall v, w :: v in number && w in number ==>
      (number[v] == number[w] <==> Mutual(Union(normal, dev), v, w))
    ensures kept == map v | v in normal :: normal[v] + set w | w in Succ(dev, v) && !Mutual(Union(normal, dev), v, w)
  {
    hide Mutual, Union;
    assert forall v, w :: v in dev && w in dev[v] ==> Edge(dev, v, w);
    kept := map v | v in normal :: normal[v] + set w | w in dev[v] && number[w] != number[v];
    forall v | v in normal
      ensures kept[v] == normal[v] + set w | w in Succ(dev, v) && !Mutual(Union(normal, dev), v, w)
    {
      assert forall w :: w in dev[v] ==> Edge(dev, v, w);
    }
  }

  /** `build_publish_dependency_graph(packages)`: the same graph whatever the set iteration order. */
  method BuildPublishGraph(packages: seq<Package>) returns (kept: Graph<Name>)
    ensures kept == Kept(packages)
  {
    var normal, dev := CollectDependencies(packages);
    hide Mutual, IsSccList, Explored, Declares;
    var full := Union(normal, dev);
    assert full.Keys == PackageNames(packages) == normal.Keys == dev.Keys;
    assert forall v, w :: Edge(dev, v, w) ==> v in full && w in full;
    var names := NamesOf(packages);
    names := Sort(names);
    assert forall v :: v in full ==> v in Elements(names);
    hide Union, Declared;
    var sccs := Sccs(full, names);
    var number := NumberNodes(full, names, sccs);
    AllExplored(full, names);
    kept := DropInnerDevEdges(normal, dev, number);
  }
}
