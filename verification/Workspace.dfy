/** `compute_publish_order` and `derive_crates` on cargo metadata. */
module Workspace {
  import opened Wrappers
  import opened Names
  import opened Graphs
  import opened PublishGraph
  import opened Kahn
  import opened PublishOrder
  import N = Naming

  datatype AllowEntry = Str(name: Name) | NotAString

  /** `[workspace.metadata.publish.allow]` as found in the JSON. */
  datatype AllowList = Absent | NotAList | Listed(entries: seq<AllowEntry>)

  datatype Metadata = Metadata(packages: seq<Package>, members: seq<string>, allow: AllowList)

  datatype Error =
    | Cycle | NothingPublishable
    | AllowNotList | AllowNotString | AllowUnknown | AllowEmpty | AllowDrift

  datatype Result<T> = Ok(value: T) | Err(error: Error)

  datatype Published = Published(name: Name, version: string)

  datatype CrateEntry = CrateEntry(name: Name, version: string, publishOrder: nat, internalDependencies: seq<Name>)

  // ----- dictionaries keyed by name -----

  /** `packages` is the value list of a dictionary filled from `list`: the last package wins. */
  ghost predicate IsByName(list: seq<Package>, packages: seq<Package>) {
    && (forall i, j :: 0 <= i < j < |packages| ==> packages[i].name != packages[j].name)
    && (forall p :: p in packages <==> LastNamed(list, p))
  }

  ghost predicate LastNamed(list: seq<Package>, p: Package) {
    exists i :: 0 <= i < |list| && list[i] == p && forall k :: i < k < |list| ==> list[k].name != p.name
  }

  lemma LastNamedSnoc(list: seq<Package>, q: Package, p: Package)
    ensures LastNamed(list + [q], p) <==> p == q || (LastNamed(list, p) && p.name != q.name)
  {
    var more := list + [q];
    assert more[|list|] == q;
    if LastNamed(list, p) && p.name != q.name {
      var i :| 0 <= i < |list| && list[i] == p && forall k :: i < k < |list| ==> list[k].name != p.name;
      assert more[i] == p;
    }
    if LastNamed(more, p) && p != q {
      var i :| 0 <= i < |more| && more[i] == p && forall k :: i < k < |more| ==> more[k].name != p.name;
      assert list[i] == p && forall k :: i < k < |list| ==> list[k] == more[k];
    }
  }

  method ByName(list: seq<Package>) returns (packages: seq<Package>)
    ensures IsByName(list, packages)
  {
    packages := [];
    for i := 0 to |list|
      invariant IsByName(list[..i], packages)
    {
      assert list[..i + 1] == list[..i] + [list[i]];
      packages := SetItem(list[..i], packages, list[i]);
    }
    assert list[..|list|] == list;
  }

  /** `packages[q.name] = q`. */
  method SetItem(ghost list: seq<Package>, packages: seq<Package>, q: Package) returns (r: seq<Package>)
    requires IsByName(list, packages)
    ensures IsByName(list + [q], r)
  {
    var at := |packages|;
    for j := 0 to |packages|
      invariant at == |packages| || (0 <= at < j && packages[at].name == q.name)
      invariant at == |packages| ==> forall k :: 0 <= k < j ==> packages[k].name != q.name
    {
      if packages[j].name == q.name {
        at := j;
      }
    }
    r := if at < |packages| then packages[at := q] else packages + [q];
    Replaced(list, packages, q, at, r);
  }

  lemma Replaced(list: seq<Package>, packages: seq<Package>, q: Package, at: nat, r: seq<Package>)
    requires IsByName(list, packages) && at <= |packages|
    requires at < |packages| ==> packages[at].name == q.name
    requires at == |packages| ==> forall k :: 0 <= k < |packages| ==> packages[k].name != q.name
    requires r == if at < |packages| then packages[at := q] else packages + [q]
    ensures IsByName(list + [q], r)
  {
    forall p ensures p in r <==> LastNamed(list + [q], p) {
      LastNamedSnoc(list, q, p);
      assert p in r <==> p == q || (p in packages && p.name != q.name) by {
        assert r[at] == q;
        if p in packages && p.name != q.name {
          var k :| 0 <= k < |packages| && packages[k] == p;
          assert r[k] == p;
        }
        if p in r && p != q {
          var k :| 0 <= k < |r| && r[k] == p;
          assert packages[k] == p;
        }
      }
    }
  }

  // ----- publish-topo.py -----

  /** The packages whose id is a workspace member, in metadata order. */
  function MemberPackages(packages: seq<Package>, members: seq<string>): seq<Package> {
    if packages == [] then []
    else
      var last := packages[|packages| - 1];
      MemberPackages(packages[..|packages| - 1], members) + (if last.id in members then [last] else [])
  }

  predicate Publishable(p: Package) {
    p.publish == None || p.publish.value != []
  }

  /** What the caller asked to be published, when the request is well formed. */
  ghost function AllowedNames(meta: Metadata, fromMetadata: bool): set<Name> {
    if fromMetadata then
      set p | p in MemberPackages(meta.packages, meta.members) && Publishable(p) :: p.name
    else if meta.allow.Listed? then
      set e | e in meta.allow.entries && e.Str? :: e.name
    else
      {}
  }

  ghost predicate AllowWellFormed(meta: Metadata, fromMetadata: bool, names: set<Name>) {
    && AllowedNames(meta, fromMetadata) != {}
    && (!fromMetadata && meta.allow.Listed? ==> forall e :: e in meta.allow.entries ==> e.Str? && e.name in names)
  }

  /** Entry `i` is the first that is no string naming a member, and this is what is wrong with it. */
  ghost predicate FirstBad(entries: seq<AllowEntry>, names: set<Name>, i: nat, e: Error) {
    && i < |entries| && (forall k :: 0 <= k < i ==> entries[k].Str? && entries[k].name in names)
    && if entries[i].NotAString? then e.AllowNotString? else entries[i].name !in names && e.AllowUnknown?
  }

  /** What each refusal of a request means. */
  ghost predicate RefusedFor(meta: Metadata, fromMetadata: bool, names: set<Name>, e: Error) {
    if fromMetadata then e.NothingPublishable? && AllowedNames(meta, true) == {}
    else match meta.allow
      case NotAList => e.AllowNotList?
      case Absent => e.AllowEmpty?
      case Listed(entries) =>
        if entries == [] then e.AllowEmpty? else exists i: nat :: FirstBad(entries, names, i, e)
  }

  /** The allowlist loop: refuse non-strings and unknown crates, skip repetitions. */
  method ReadEntries(entries: seq<AllowEntry>, names: set<Name>) returns (r: Result<seq<Name>>)
    ensures r.Ok? <==> forall k :: 0 <= k < |entries| ==> entries[k].Str? && entries[k].name in names
    ensures r.Ok? ==> forall k :: 0 <= k < |entries| ==> entries[k].name in r.value
    ensures r.Ok? ==> forall n :: n in r.value ==> Str(n) in entries
    ensures r.Err? ==> r.error != Cycle && exists i: nat :: FirstBad(entries, names, i, r.error)
  {
    var allowed: seq<Name> := [];
    for i := 0 to |entries|
      invariant forall k :: 0 <= k < i ==> entries[k].Str? && entries[k].name in names && entries[k].name in allowed
      invariant forall n :: n in allowed ==> Str(n) in entries && n in names
    {
      if entries[i].NotAString? {
        assert FirstBad(entries, names, i, AllowNotString);
        return Err(AllowNotString);
      }
      if entries[i].name !in allowed {
        if entries[i].name !in names {
          assert FirstBad(entries, names, i, AllowUnknown);
          return Err(AllowUnknown);
        }
        assert Str(entries[i].name) == entries[i];
        allowed := allowed + [entries[i].name];
      }
    }
    r := Ok(allowed);
  }

  method ReadAllowlist(meta: Metadata, names: set<Name>) returns (r: Result<set<Name>>)
    ensures r.Ok? <==> AllowWellFormed(meta, false, names)
    ensures r.Ok? ==> r.value == AllowedNames(meta, false)
    ensures r.Err? ==> r.error != Cycle && RefusedFor(meta, false, names, r.error)
  {
    if meta.allow.NotAList? {
      return Err(AllowNotList);
    }
    var entries := if meta.allow.Listed? then meta.allow.entries else [];
    var a := ReadEntries(entries, names);
    if a.Err? {
      return Err(a.error);
    }
    var s := set n | n in a.value;
    assert s == AllowedNames(meta, false);
    if a.value == [] {
      return Err(AllowEmpty);
    }
    assert a.value[0] in s;
    r := Ok(s);
  }

  ghost predicate IsNamed(packages: seq<Package>, n: Name, version: string) {
    exists p :: p in packages && p.name == n && p.version == version
  }

  /** The whole of `compute_publish_order`: `packages` is the dictionary of members, `order` the
      sorted workspace. It succeeds exactly when the normal dependencies are acyclic and the request
      is well formed, and then lists the requested crates in the sorted order. */
  ghost predicate PublishSpec(
    meta: Metadata, fromMetadata: bool, r: Result<seq<Published>>, packages: seq<Package>, order: seq<Name>)
  {
    && IsByName(MemberPackages(meta.packages, meta.members), packages)
    && IsKahnOrder(Kept(packages), order)
    && (r == Err(Cycle) <==> !Acyclic(Declared(packages, false)))
    && (r.Ok? <==> Acyclic(Declared(packages, false)) && AllowWellFormed(meta, fromMetadata, PackageNames(packages)))
    && (r.Ok? ==> PublishedAs(r.value, packages, Filter(order, AllowedNames(meta, fromMetadata))))
    && (r.Err? && r.error != Cycle ==> RefusedFor(meta, fromMetadata, PackageNames(packages), r.error))
  }

  ghost predicate PublishedAs(list: seq<Published>, packages: seq<Package>, names: seq<Name>) {
    |list| == |names| && forall i :: 0 <= i < |list| ==>
      list[i].name == names[i] && IsNamed(packages, names[i], list[i].version)
  }

  /** What `compute_publish_order` answers. */
  ghost predicate Publishes(meta: Metadata, fromMetadata: bool, r: Result<seq<Published>>) {
    exists packages, order :: PublishSpec(meta, fromMetadata, r, packages, order)
  }

  method ComputePublishOrder(meta: Metadata, fromMetadata: bool)
    returns (r: Result<seq<Published>>, ghost packages: seq<Package>, ghost order: seq<Name>)
    ensures PublishSpec(meta, fromMetadata, r, packages, order)
    ensures Publishes(meta, fromMetadata, r)
  {
    hide IsByName, IsKahnOrder, Acyclic, Kept, Declared, AllowWellFormed, PublishedAs, FirstBad;
    var list := MemberPackages(meta.packages, meta.members);
    var dict := ByName(list);
    packages := dict;
    var deps := BuildPublishGraph(dict);
    var sorted := SortByDegree(deps);
    order := sorted;
    CompleteIffNormalAcyclic(dict, sorted);
    OneNodePerPackage(list, dict);
    if |sorted| != |dict| {
      return Err(Cycle), packages, order;
    }
    var allowed: set<Name>;
    if fromMetadata {
      allowed := set p | p in list && Publishable(p) :: p.name;
      FromMetadataWellFormed(meta, dict);
      if allowed == {} {
        return Err(NothingPublishable), packages, order;
      }
    } else {
      var a := ReadAllowlist(meta, set p | p in dict :: p.name);
      PackageNamesSame(dict);
      if a.Err? {
        return Err(a.error), packages, order;
      }
      allowed := a.value;
    }
    var out := Emit(dict, sorted, allowed);
    r := Ok(out);
  }

  lemma PackageNamesSame(packages: seq<Package>)
    ensures PackageNames(packages) == set p | p in packages :: p.name
  {
  }

  lemma FromMetadataWellFormed(meta: Metadata, packages: seq<Package>)
    ensures AllowWellFormed(meta, true, PackageNames(packages)) <==> AllowedNames(meta, true) != {}
  {
  }

  lemma OneNodePerPackage(list: seq<Package>, packages: seq<Package>)
    requires IsByName(list, packages)
    ensures |Kept(packages)| == |packages|
  {
    KeptIsKept(packages);
    var names := seq(|packages|, i requires 0 <= i < |packages| => packages[i].name);
    NoDupLength(names);
    assert forall i :: 0 <= i < |packages| ==> names[i] == packages[i].name;
    assert Elements(names) == PackageNames(packages);
    assert |Kept(packages)| == |Kept(packages).Keys|;
  }

  /** The sort lists every crate exactly when the normal dependencies have no cycle. */
  lemma CompleteIffNormalAcyclic(packages: seq<Package>, order: seq<Name>)
    requires IsKahnOrder(Kept(packages), order)
    ensures |order| == |Kept(packages)| <==> Acyclic(Declared(packages, false))
    ensures Elements(order) == PackageNames(packages) <==> Acyclic(Declared(packages, false))
    ensures Elements(order) <= PackageNames(packages)
  {
    hide Acyclic, Kept, Declared;
    KeptIsKept(packages);
    KahnCompleteIffAcyclic(Kept(packages), order);
    KeptAcyclicIffNormalAcyclic(Declared(packages, false), Declared(packages, true), Kept(packages));
    GreedyBasics(Kept(packages), order);
  }

  /** The final loop: the allowed crates with their versions. */
  method Emit(packages: seq<Package>, order: seq<Name>, allowed: set<Name>) returns (list: seq<Published>)
    requires Elements(order) <= PackageNames(packages)
    ensures PublishedAs(list, packages, Filter(order, allowed))
  {
    list := [];
    for i := 0 to |order|
      invariant PublishedAs(list, packages, Filter(order[..i], allowed))
    {
      assert order[..i + 1][..i] == order[..i];
      if order[i] in allowed {
        assert order[i] in Elements(order);
        var p := Lookup(packages, order[i]);
        list := list + [Published(order[i], p.version)];
      }
    }
    assert order[..|order|] == order;
  }

  method Lookup(packages: seq<Package>, n: Name) returns (p: Package)
    requires n in PackageNames(packages)
    ensures p in packages && p.name == n
  {
    var i := 0;
    while packages[i].name != n
      invariant 0 <= i < |packages| && forall k :: 0 <= k < i ==> packages[k].name != n
      decreases |packages| - i
    {
      i := i + 1;
    }
    p := packages[i];
  }

  // ----- generate_release_topology.py -----

  /** `{package["id"]: package for package in packages}`. */
  function ById(packages: seq<Package>): map<string, Package> {
    if packages == [] then map[]
    else
      var last := packages[|packages| - 1];
      ById(packages[..|packages| - 1])[last.id := last]
  }

  /** `[packages[member_id] for member_id in member_ids if member_id in packages]`. */
  function MembersById(byId: map<string, Package>, members: seq<string>): seq<Package> {
    if members == [] then []
    else
      var last := members[|members| - 1];
      MembersById(byId, members[..|members| - 1]) + (if last in byId then [byId[last]] else [])
  }

  ghost function PublishableNames(meta: Metadata): set<Name> {
    set p | p in MembersById(ById(meta.packages), meta.members) && Publishable(p) :: p.name
  }

  ghost predicate AllStrings(meta: Metadata) {
    meta.allow.Listed? && forall e :: e in meta.allow.entries ==> e.Str?
  }

  /** The whole of `derive_crates`: it succeeds exactly when the allowlist is a list of strings naming
      the publishable members and the allowed part of the publication graph is acyclic, and then lists
      that part in its own sorted order. */
  ghost predicate DeriveSpec(meta: Metadata, r: Result<seq<CrateEntry>>, packages: seq<Package>, order: seq<Name>) {
    var allowed := AllowedNames(meta, false);
    var deps := Induced(Kept(packages), allowed);
    && IsByName(MembersById(ById(meta.packages), meta.members), packages)
    && (r.Ok? <==> AllStrings(meta) && allowed <= PackageNames(packages)
                   && PublishableNames(meta) == allowed && Acyclic(deps))
    && (r.Err? ==> r.error == if !AllStrings(meta) then AllowNotList
                              else if !(allowed <= PackageNames(packages)) then AllowUnknown
                              else if PublishableNames(meta) != allowed then AllowDrift else Cycle)
    && (r.Ok? ==> IsKahnOrder(deps, order) && DerivedAs(r.value, packages, deps, order))
  }

  ghost predicate DerivedAs(list: seq<CrateEntry>, packages: seq<Package>, deps: Graph<Name>, names: seq<Name>) {
    |list| == |names| && forall i :: 0 <= i < |list| ==>
      && list[i].name == names[i] && IsNamed(packages, names[i], list[i].version)
      && list[i].publishOrder == i + 1
      && IsListing(list[i].internalDependencies, Succ(deps, names[i]))
  }

  /** What `derive_crates` answers. */
  ghost predicate Derives(meta: Metadata, r: Result<seq<CrateEntry>>) {
    exists packages, order :: DeriveSpec(meta, r, packages, order)
  }

  method DeriveCrates(meta: Metadata)
    returns (r: Result<seq<CrateEntry>>, ghost packages: seq<Package>, ghost order: seq<Name>)
    ensures DeriveSpec(meta, r, packages, order)
    ensures Derives(meta, r)
  {
    hide IsByName, IsKahnOrder, Acyclic, Kept, DerivedAs;
    var members := MembersById(ById(meta.packages), meta.members);
    var dict := ByName(members);
    packages, order := dict, [];
    var strings := meta.allow.Listed? && forall e :: e in meta.allow.entries ==> e.Str?;
    if !strings {
      return Err(AllowNotList), packages, order;
    }
    var allowed := set e | e in meta.allow.entries && e.Str? :: e.name;
    var names := set p | p in dict :: p.name;
    PackageNamesSame(dict);
    if !(allowed <= names) {
      return Err(AllowUnknown), packages, order;
    }
    var publishable := set p | p in members && Publishable(p) :: p.name;
    if publishable != allowed {
      return Err(AllowDrift), packages, order;
    }
    var kept := BuildPublishGraph(dict);
    var deps := Induced(kept, allowed);
    InducedInside(dict, allowed);
    var sorted := SortByStriking(deps);
    order := sorted;
    KahnCompleteIffAcyclic(deps, sorted);
    if |sorted| != |allowed| {
      return Err(Cycle), packages, order;
    }
    KahnInside(deps, sorted);
    var out := Describe(dict, deps, sorted);
    r := Ok(out);
  }

  lemma KahnInside(deps: Graph<Name>, order: seq<Name>)
    requires IsKahnOrder(deps, order)
    ensures Elements(order) <= deps.Keys
  {
    GreedyBasics(deps, order);
  }

  lemma InducedInside(packages: seq<Package>, allowed: set<Name>)
    requires allowed <= PackageNames(packages)
    ensures var deps := Induced(Kept(packages), allowed);
      && deps.Keys == allowed && |deps| == |allowed| && deps.Keys <= PackageNames(packages)
      && forall v, w :: Edge(deps, v, w) ==> w in deps
  {
    hide Kept;
    KeptIsKept(packages);
    var deps := Induced(Kept(packages), allowed);
    assert deps.Keys == allowed;
    assert |deps| == |deps.Keys|;
  }

  /** The final loop of `derive_crates`. */
  method Describe(packages: seq<Package>, deps: Graph<Name>, order: seq<Name>) returns (list: seq<CrateEntry>)
    requires Elements(order) <= PackageNames(packages)
    ensures DerivedAs(list, packages, deps, order)
  {
    list := [];
    for i := 0 to |order|
      invariant DerivedAs(list, packages, deps, order[..i])
    {
      assert order[i] in Elements(order);
      var p := Lookup(packages, order[i]);
      var internal := SortedList(Succ(deps, order[i]));
      list := list + [CrateEntry(order[i], p.version, i + 1, internal)];
    }
    assert order[..|order|] == order;
  }

  // ----- the packages in cargo's own terms -----

  /** Entry `i` of the metadata is the last workspace member of its name. */
  ghost predicate LastMember(packages: seq<Package>, members: seq<string>, i: nat, p: Package) {
    && i < |packages| && packages[i] == p && p.id in members
    && forall k :: i < k < |packages| && packages[k].id in members ==> packages[k].name != p.name
  }

  lemma LastMemberSnoc(packages: seq<Package>, members: seq<string>, x: Package, i: nat, p: Package)
    ensures LastMember(packages + [x], members, i, p) <==>
      || (i == |packages| && p == x && x.id in members)
      || (LastMember(packages, members, i, p) && !(x.id in members && x.name == p.name))
  {
    var more := packages + [x];
    assert more[|packages|] == x && forall k :: 0 <= k < |packages| ==> more[k] == packages[k];
  }

  lemma {:induction false} MembersInOrder(packages: seq<Package>, members: seq<string>, p: Package)
    ensures LastNamed(MemberPackages(packages, members), p) <==>
      exists i: nat :: LastMember(packages, members, i, p)
  {
    hide LastNamed, LastMember;
    if packages == [] {
      NoneNamed(p);
      forall i: nat ensures !LastMember(packages, members, i, p) {
        NoMember(members, i, p);
      }
    } else {
      var front, x := packages[..|packages| - 1], packages[|packages| - 1];
      MembersInOrder(front, members, p);
      LastNamedSnoc(MemberPackages(front, members), x, p);
      assert x.id !in members ==> MemberPackages(packages, members) == MemberPackages(front, members);
      assert packages == front + [x];
      var n := |front|;
      forall i: nat
        ensures LastMember(packages, members, i, p) <==>
          || (i == |front| && p == x && x.id in members)
          || (LastMember(front, members, i, p) && !(x.id in members && x.name == p.name))
      {
        LastMemberSnoc(front, members, x, i, p);
      }
      assert p == x && x.id in members ==> LastMember(packages, members, n, p);
    }
  }

  lemma NoneNamed(p: Package)
    ensures !LastNamed([], p)
  {
  }

  lemma NoMember(members: seq<string>, i: nat, p: Package)
    ensures !LastMember([], members, i, p)
  {
  }

  /** The publish script's dictionary holds, for every name of a workspace member, the last member of that name. */
  lemma PackagesOfPublish(meta: Metadata, packages: seq<Package>, p: Package)
    requires IsByName(MemberPackages(meta.packages, meta.members), packages)
    ensures p in packages <==> exists i: nat :: LastMember(meta.packages, meta.members, i, p)
  {
    MembersInOrder(meta.packages, meta.members, p);
  }

  /** The last package with this id. */
  ghost predicate LastWithId(packages: seq<Package>, id: string, p: Package) {
    exists i :: 0 <= i < |packages| && packages[i] == p && p.id == id
      && forall k :: i < k < |packages| ==> packages[k].id != id
  }

  lemma LastWithIdSnoc(packages: seq<Package>, x: Package, id: string, p: Package)
    ensures LastWithId(packages + [x], id, p) <==>
      (x.id == id && p == x) || (x.id != id && LastWithId(packages, id, p))
  {
    var more := packages + [x];
    assert more[|packages|] == x;
    if x.id != id && LastWithId(packages, id, p) {
      var i :| 0 <= i < |packages| && packages[i] == p && p.id == id
        && forall k :: i < k < |packages| ==> packages[k].id != id;
      assert more[i] == p;
    }
    if LastWithId(more, id, p) && p != x {
      var i :| 0 <= i < |more| && more[i] == p && p.id == id
        && forall k :: i < k < |more| ==> more[k].id != id;
      assert packages[i] == p && forall k :: i < k < |packages| ==> packages[k] == more[k];
    }
  }

  lemma {:induction false} ByIdIs(packages: seq<Package>, id: string, p: Package)
    ensures id in ById(packages) && ById(packages)[id] == p <==> LastWithId(packages, id, p)
  {
    hide LastWithId;
    if packages == [] {
      NoneWithId(id, p);
    } else {
      var front, x := packages[..|packages| - 1], packages[|packages| - 1];
      ByIdIs(front, id, p);
      assert packages == front + [x];
      LastWithIdSnoc(front, x, id, p);
    }
  }

  lemma NoneWithId(id: string, p: Package)
    ensures !LastWithId([], id, p)
  {
  }

  /** Member id `i` stands for `p`, and no later one stands for a package of the same name. */
  ghost predicate LastListed(packages: seq<Package>, members: seq<string>, i: nat, p: Package) {
    && i < |members| && LastWithId(packages, members[i], p)
    && forall k, q :: i < k < |members| && LastWithId(packages, members[k], q) ==> q.name != p.name
  }

  lemma LastListedSnoc(packages: seq<Package>, members: seq<string>, x: string, i: nat, p: Package)
    ensures LastListed(packages, members + [x], i, p) <==>
      || (i == |members| && LastWithId(packages, x, p))
      || (LastListed(packages, members, i, p) && forall q :: LastWithId(packages, x, q) ==> q.name != p.name)
  {
    hide LastWithId;
    var more := members + [x];
    assert more[|members|] == x;
    assert forall k :: 0 <= k < |members| ==> more[k] == members[k];
  }

  lemma {:induction false} ListedInOrder(packages: seq<Package>, members: seq<string>, p: Package)
    ensures LastNamed(MembersById(ById(packages), members), p) <==>
      exists i: nat :: LastListed(packages, members, i, p)
  {
    hide LastNamed, LastListed, LastWithId, ById;
    if members == [] {
      NoneNamed(p);
      forall i: nat ensures !LastListed(packages, members, i, p) {
        NoneListed(packages, i, p);
      }
    } else {
      var front, x := members[..|members| - 1], members[|members| - 1];
      ListedInOrder(packages, front, p);
      var byId := ById(packages);
      if x in byId {
        LastNamedSnoc(MembersById(byId, front), byId[x], p);
      }
      forall q ensures x in byId && byId[x] == q <==> LastWithId(packages, x, q) {
        ByIdIs(packages, x, q);
      }
      assert x !in byId ==> MembersById(byId, members) == MembersById(byId, front);
      assert members == front + [x];
      var n := |front|;
      forall i: nat
        ensures LastListed(packages, members, i, p) <==>
          || (i == |front| && LastWithId(packages, x, p))
          || (LastListed(packages, front, i, p) && forall q :: LastWithId(packages, x, q) ==> q.name != p.name)
      {
        LastListedSnoc(packages, front, x, i, p);
      }
      assert LastWithId(packages, x, p) ==> LastListed(packages, members, n, p);
    }
  }

  lemma NoneListed(packages: seq<Package>, i: nat, p: Package)
    ensures !LastListed(packages, [], i, p)
  {
  }

  /** The generator's dictionary holds, for every name of a listed member id, the package of the last such id. */
  lemma PackagesOfGenerator(meta: Metadata, packages: seq<Package>, p: Package)
    requires IsByName(MembersById(ById(meta.packages), meta.members), packages)
    ensures p in packages <==> exists i: nat :: LastListed(meta.packages, meta.members, i, p)
  {
    ListedInOrder(meta.packages, meta.members, p);
  }

  /** A crate is asked for when the metadata lists a workspace member of that name whose `publish` is absent or names
      at least one registry. */
  lemma PublishableAre(meta: Metadata, n: Name)
    ensures n in AllowedNames(meta, true) <==>
      exists p :: p in meta.packages && p.id in meta.members && p.name == n
        && (p.publish.None? || exists registry :: registry in p.publish.value)
  {
    forall p ensures Publishable(p) <==> p.publish.None? || exists registry :: registry in p.publish.value {
      if p.publish.Some? && p.publish.value != [] {
        assert p.publish.value[0] in p.publish.value;
      }
    }
    forall p ensures p in MemberPackages(meta.packages, meta.members) <==> p in meta.packages && p.id in meta.members {
      MemberPackagesHold(meta.packages, meta.members, p);
    }
  }

  /** On cargo's metadata both scripts mean the same crates by publishable. */
  lemma SamePublishable(meta: Metadata)
    requires CargoUnique(meta)
    ensures PublishableNames(meta) == AllowedNames(meta, true)
  {
    forall p
      ensures p in MembersById(ById(meta.packages), meta.members) <==>
        p in MemberPackages(meta.packages, meta.members)
    {
      SameMembers(meta, p);
    }
  }

  // ----- the two agree -----

  /** What cargo guarantees: package ids are unique, and so are the names of workspace members. */
  ghost predicate CargoUnique(meta: Metadata) {
    && (forall i, j :: 0 <= i < j < |meta.packages| ==> meta.packages[i].id != meta.packages[j].id)
    && (forall p, q :: IsMember(meta, p) && IsMember(meta, q) && p.name == q.name ==> p == q)
  }

  ghost predicate IsMember(meta: Metadata, p: Package) {
    p in meta.packages && p.id in meta.members
  }

  lemma {:induction false} MemberPackagesHold(packages: seq<Package>, members: seq<string>, p: Package)
    ensures p in MemberPackages(packages, members) <==> p in packages && p.id in members
  {
    if packages != [] {
      MemberPackagesHold(packages[..|packages| - 1], members, p);
      assert packages == packages[..|packages| - 1] + [packages[|packages| - 1]];
    }
  }

  lemma {:induction false} ByIdHolds(packages: seq<Package>, p: Package)
    requires forall i, j :: 0 <= i < j < |packages| ==> packages[i].id != packages[j].id
    ensures p in packages <==> p.id in ById(packages) && ById(packages)[p.id] == p
    ensures forall id :: id in ById(packages) ==> ById(packages)[id].id == id && ById(packages)[id] in packages
  {
    if packages != [] {
      var front := packages[..|packages| - 1];
      ByIdHolds(front, p);
      assert packages == front + [packages[|packages| - 1]];
    }
  }

  lemma {:induction false} MembersByIdHold(byId: map<string, Package>, members: seq<string>, p: Package)
    ensures p in MembersById(byId, members) <==> exists id :: id in members && id in byId && byId[id] == p
  {
    if members != [] {
      MembersByIdHold(byId, members[..|members| - 1], p);
      assert members == members[..|members| - 1] + [members[|members| - 1]];
    }
  }

  lemma SameMembers(meta: Metadata, p: Package)
    requires CargoUnique(meta)
    ensures p in MembersById(ById(meta.packages), meta.members) <==> p in MemberPackages(meta.packages, meta.members)
  {
    MemberPackagesHold(meta.packages, meta.members, p);
    ByIdHolds(meta.packages, p);
    MembersByIdHold(ById(meta.packages), meta.members, p);
  }

  /** With unique names the dictionary holds exactly the packages it was filled from. */
  lemma ByNameHolds(list: seq<Package>, packages: seq<Package>, p: Package)
    requires IsByName(list, packages)
    requires forall a, b :: a in list && b in list && a.name == b.name ==> a == b
    ensures p in packages <==> p in list
  {
    if p in list {
      LastOccurrence(list, p);
    }
  }

  lemma {:induction false} LastOccurrence(list: seq<Package>, p: Package)
    requires p in list && forall a, b :: a in list && b in list && a.name == b.name ==> a == b
    ensures LastNamed(list, p)
  {
    var front, last := list[..|list| - 1], list[|list| - 1];
    assert list == front + [last];
    LastNamedSnoc(front, last, p);
    if p != last {
      LastOccurrence(front, p);
    }
  }

  /** Both scripts work on the same packages, hence on the same publication graph. */
  lemma SameKept(meta: Metadata, packages: seq<Package>, packages': seq<Package>)
    requires CargoUnique(meta)
    requires IsByName(MemberPackages(meta.packages, meta.members), packages)
    requires IsByName(MembersById(ById(meta.packages), meta.members), packages')
    ensures forall p :: p in packages <==> p in packages'
    ensures Kept(packages) == Kept(packages') && PackageNames(packages) == PackageNames(packages')
  {
    hide Kept, IsByName, LastNamed;
    var list, list' := MemberPackages(meta.packages, meta.members), MembersById(ById(meta.packages), meta.members);
    forall p ensures (p in list <==> p in list') && (p in list ==> IsMember(meta, p)) {
      SameMembers(meta, p);
      MemberPackagesHold(meta.packages, meta.members, p);
    }
    forall p ensures p in packages <==> p in packages' {
      ByNameHolds(list, packages, p);
      ByNameHolds(list', packages', p);
    }
    KeptByElements(packages, packages');
  }

  lemma DeclaresByElements(packages: seq<Package>, packages': seq<Package>, dev: bool, v: Name, w: Name)
    requires forall p :: p in packages ==> p in packages'
    requires PackageNames(packages) == PackageNames(packages') && Declares(packages, dev, v, w)
    ensures Declares(packages', dev, v, w)
  {
    var i, j :| 0 <= i < |packages| && 0 <= j < |packages[i].dependencies| && DeclaredAt(packages, dev, i, j, v, w);
    assert packages[i] in packages';
    var k :| 0 <= k < |packages'| && packages'[k] == packages[i];
    assert DeclaredAt(packages', dev, k, j, v, w);
  }

  lemma KeptByElements(packages: seq<Package>, packages': seq<Package>)
    requires forall p :: p in packages <==> p in packages'
    ensures PackageNames(packages) == PackageNames(packages') && Kept(packages) == Kept(packages')
  {
    hide Declares;
    PackageNamesSame(packages);
    PackageNamesSame(packages');
    forall dev: bool, v, w ensures Declares(packages, dev, v, w) <==> Declares(packages', dev, v, w) {
      if Declares(packages, dev, v, w) { DeclaresByElements(packages, packages', dev, v, w); }
      if Declares(packages', dev, v, w) { DeclaresByElements(packages', packages, dev, v, w); }
    }
    forall dev: bool ensures Declared(packages, dev) == Declared(packages', dev) {
      DeclaredEdges(packages, dev);
      DeclaredEdges(packages', dev);
      SameGraph(Declared(packages, dev), Declared(packages', dev));
    }
  }

  /** On cargo's metadata, when the allowlist is closed under the kept dependencies, the release
      topology lists the same crates in the same order as the publish workflow. */
  lemma SameCrateSequence(meta: Metadata, r: Result<seq<Published>>, packages: seq<Package>, order: seq<Name>,
                          r': Result<seq<CrateEntry>>, packages': seq<Package>, order': seq<Name>)
    requires CargoUnique(meta)
    requires PublishSpec(meta, false, r, packages, order) && DeriveSpec(meta, r', packages', order')
    requires r.Ok? && r'.Ok? && ClosedUnder(Kept(packages), AllowedNames(meta, false))
    ensures |r.value| == |r'.value|
    ensures forall i :: 0 <= i < |r.value| ==> r.value[i].name == r'.value[i].name
  {
    hide Kept, IsByName, IsKahnOrder, Acyclic, AllowedNames, Declared;
    SameKept(meta, packages, packages');
    FilterThenSortAgree(Kept(packages), AllowedNames(meta, false), order, order');
  }

  /** Closure can be weakened to insulation, which is exact as long as the crates' names do not matter. */
  lemma SameCrateSequenceIfInsulated(meta: Metadata, r: Result<seq<Published>>, packages: seq<Package>,
                                     order: seq<Name>, r': Result<seq<CrateEntry>>, packages': seq<Package>,
                                     order': seq<Name>)
    requires CargoUnique(meta)
    requires PublishSpec(meta, false, r, packages, order) && DeriveSpec(meta, r', packages', order')
    requires r.Ok? && r'.Ok? && N.Insulated(Kept(packages), AllowedNames(meta, false))
    ensures |r.value| == |r'.value|
    ensures forall i :: 0 <= i < |r.value| ==> r.value[i].name == r'.value[i].name
  {
    hide Kept, IsByName, IsKahnOrder, Acyclic, AllowedNames, Declared, N.Insulated;
    SameKept(meta, packages, packages');
    KeptIsKept(packages);
    KeptAcyclicIffNormalAcyclic(Declared(packages, false), Declared(packages, true), Kept(packages));
    N.InsulatedSameOrder(Kept(packages), AllowedNames(meta, false), order, order');
  }

  /** What publish-topo accepts, the topology generator accepts exactly when the allowlist is free of
      drift: the allowed part of an acyclic graph is acyclic. */
  lemma AcceptedUnlessDrift(meta: Metadata, r: Result<seq<Published>>, packages: seq<Package>, order: seq<Name>,
                            r': Result<seq<CrateEntry>>, packages': seq<Package>, order': seq<Name>)
    requires CargoUnique(meta)
    requires PublishSpec(meta, false, r, packages, order) && DeriveSpec(meta, r', packages', order')
    requires r.Ok?
    ensures r'.Ok? <==> PublishableNames(meta) == AllowedNames(meta, false)
  {
    hide Kept, IsByName, IsKahnOrder, Declared, Acyclic;
    SameKept(meta, packages, packages');
    KeptIsKept(packages);
    KeptAcyclicIffNormalAcyclic(Declared(packages, false), Declared(packages, true), Kept(packages));
    InducedAcyclic(Kept(packages), AllowedNames(meta, false));
  }

  lemma InducedAcyclic(g: Graph<Name>, allowed: set<Name>)
    requires Acyclic(g)
    ensures Acyclic(Induced(g, allowed))
  {
    hide OnCycle;
    var h := Induced(g, allowed);
    forall v ensures !OnCycle(h, v) {
      if OnCycle(h, v) {
        OnCycleMonotone(h, g, v);
      }
    }
  }
}
