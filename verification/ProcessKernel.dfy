/** A small process kernel: what a Linux subreaper can observe of its descendants. */
module ProcessKernel {

  type Pid = nat

  /** Identity of a process for good: serials are never reused, pids are. */
  type Serial = nat

  datatype Proc = Proc(serial: Serial, parent: Pid, subreaper: bool, exited: bool, status: int)

  /** `tree` holds every process descended from the owner that has not been reaped, detached ones
      included; `foreign` the unrelated processes that occupy other pids. `intact` is false once the
      owner has lost its single thread or its subreaper role. `deaths` is the history: the status every
      descendant that has exited so far exited with. */
  datatype Kernel = Kernel(
    owner: Pid, tree: map<Pid, Proc>, foreign: map<Pid, Serial>, next: Serial, intact: bool, deaths: map<Serial, int>)

  /** What other processes may do between two system calls of the owner. */
  datatype Event =
    | Fork(parent: Pid, child: Pid, sibling: bool)  // sibling: CLONE_PARENT
    | Exit(who: Pid, status: int)
    | BecomeSubreaper(who: Pid)
    | Reap(parent: Pid, child: Pid)
    | ForeignStart(pid: Pid)
    | ForeignEnd(pid: Pid)
    | LoseControl

  predicate Free(k: Kernel, pid: Pid) {
    pid != k.owner && pid !in k.tree && pid !in k.foreign
  }

  /** Every descendant hangs from a live, older descendant or from the owner. */
  ghost predicate Valid(k: Kernel) {
    && k.owner !in k.tree && k.owner !in k.foreign && k.tree.Keys !! k.foreign.Keys
    && (forall p :: p in k.tree ==> k.tree[p].serial < k.next)
    && (forall p {:trigger Rooted(k, p)} :: p in k.tree ==> Rooted(k, p))
    && (forall p :: p in k.foreign ==> k.foreign[p] < k.next)
    && (forall p, q :: p in k.tree && q in k.tree && k.tree[p].serial == k.tree[q].serial ==> p == q)
    && (forall p, q :: p in k.tree && q in k.foreign ==> k.tree[p].serial != k.foreign[q])
    && DeathsOk(k)
  }

  /** Exited descendants are on record with their status; live ones are not. */
  ghost predicate DeathsOk(k: Kernel) {
    && (forall s :: s in k.deaths ==> s < k.next)
    && (forall p :: p in k.tree ==> (k.tree[p].exited <==> k.tree[p].serial in k.deaths))
    && (forall p :: p in k.tree && k.tree[p].exited ==> k.tree[p].status == k.deaths[k.tree[p].serial])
  }

  /** What is on record stays on record, and control once lost stays lost. */
  ghost predicate DeathsStay(k: Kernel, k': Kernel) {
    && (forall s :: s in k.deaths ==> s in k'.deaths && k'.deaths[s] == k.deaths[s])
    && (k'.intact ==> k.intact)
  }

  ghost predicate Rooted(k: Kernel, p: Pid)
    requires p in k.tree
  {
    var parent := k.tree[p].parent;
    parent == k.owner || (parent in k.tree && !k.tree[parent].exited && k.tree[parent].serial < k.tree[p].serial)
  }

  predicate IsChild(k: Kernel, p: Pid) {
    p in k.tree && k.tree[p].parent == k.owner
  }

  /** Who adopts the children of `p`: its nearest ancestor that is a subreaper. */
  function Adopter(k: Kernel, p: Pid): Pid
    requires p in k.tree
    decreases k.tree[p].serial
  {
    var q := k.tree[p].parent;
    if q in k.tree && !k.tree[q].subreaper && k.tree[q].serial < k.tree[p].serial then Adopter(k, q) else q
  }

  function AddChild(k: Kernel, pid: Pid, parent: Pid): Kernel {
    k.(tree := k.tree[pid := Proc(k.next, parent, false, false, 0)], next := k.next + 1)
  }

  function Remove(k: Kernel, pid: Pid): Kernel {
    k.(tree := k.tree - {pid})
  }

  function Terminate(k: Kernel, who: Pid, status: int): Kernel
    requires who in k.tree
  {
    var heir := Adopter(k, who);
    k.(deaths := k.deaths[k.tree[who].serial := status],
       tree := map p | p in k.tree ::
         if p == who then k.tree[p].(exited := true, status := status)
         else if k.tree[p].parent == who then k.tree[p].(parent := heir)
         else k.tree[p])
  }

  /** One event; an event that is not possible changes nothing. */
  function Apply(k: Kernel, e: Event): Kernel {
    match e
    case Fork(parent, child, sibling) =>
      if parent in k.tree && !k.tree[parent].exited && Free(k, child)
      then AddChild(k, child, if sibling then k.tree[parent].parent else parent) else k
    case Exit(who, status) =>
      if who in k.tree && !k.tree[who].exited then Terminate(k, who, status) else k
    case BecomeSubreaper(who) =>
      if who in k.tree && !k.tree[who].exited then k.(tree := k.tree[who := k.tree[who].(subreaper := true)]) else k
    case Reap(parent, child) =>
      if parent in k.tree && child in k.tree && k.tree[child].parent == parent && k.tree[child].exited
      then Remove(k, child) else k
    case ForeignStart(pid) =>
      if Free(k, pid) then k.(foreign := k.foreign[pid := k.next], next := k.next + 1) else k
    case ForeignEnd(pid) =>
      k.(foreign := k.foreign - {pid})
    case LoseControl =>
      k.(intact := false)
  }

  function Run(k: Kernel, events: seq<Event>): Kernel
    decreases |events|
  {
    if events == [] then k else Run(Apply(k, events[0]), events[1..])
  }

  // ----- what every event keeps -----

  /** The adopter is the owner or a live descendant older than `p`. */
  lemma {:induction false} AdopterOk(k: Kernel, p: Pid)
    requires Valid(k) && p in k.tree
    ensures var q := Adopter(k, p);
      q == k.owner || (q in k.tree && !k.tree[q].exited && q != p && k.tree[q].serial < k.tree[p].serial)
    decreases k.tree[p].serial
  {
    var q := k.tree[p].parent;
    assert Rooted(k, p);
    if q in k.tree && !k.tree[q].subreaper {
      AdopterOk(k, q);
    }
  }

  ghost predicate AllExited(k: Kernel) {
    forall p :: p in k.tree ==> k.tree[p].exited
  }

  /** The owner's unreaped children stay its children, whatever the others do; and once everybody has exited the
      others do nothing. */
  ghost predicate ChildrenStay(k: Kernel, k': Kernel) {
    && k'.owner == k.owner
    && (forall p :: IsChild(k, p) ==> IsChild(k', p) && k'.tree[p].serial == k.tree[p].serial)
    && (forall p :: IsChild(k, p) && k.tree[p].exited ==> k'.tree[p] == k.tree[p])
    && (AllExited(k) ==> k'.tree == k.tree)
    && k.next <= k'.next && DeathsStay(k, k')
    && (forall p :: p in k'.tree && k'.tree[p].serial < k.next ==> p in k.tree && k.tree[p].serial == k'.tree[p].serial)
  }

  /** Death as seen by the others: only the orphans' parent changes. */
  ghost predicate Died(k: Kernel, k': Kernel, who: Pid, heir: Pid) {
    && k'.owner == k.owner && k'.tree.Keys == k.tree.Keys && k'.foreign == k.foreign && k'.next == k.next
    && (forall p :: p in k.tree ==> SameBut(k.tree[p], k'.tree[p], p == who, k.tree[p].parent == who && p != who, heir))
  }

  ghost predicate SameBut(a: Proc, b: Proc, died: bool, orphan: bool, heir: Pid) {
    b.serial == a.serial && b.exited == (a.exited || died) && b.parent == if orphan then heir else a.parent
  }

  lemma TerminateDied(k: Kernel, who: Pid, status: int)
    requires who in k.tree
    ensures Died(k, Terminate(k, who, status), who, Adopter(k, who))
  {
  }

  lemma TerminateDeaths(k: Kernel, who: Pid, status: int)
    requires Valid(k) && who in k.tree && !k.tree[who].exited
    ensures DeathsOk(Terminate(k, who, status)) && DeathsStay(k, Terminate(k, who, status))
  {
    hide Rooted, Adopter;
  }

  lemma DiedValid(k: Kernel, k': Kernel, who: Pid, heir: Pid)
    requires Valid(k) && who in k.tree && Died(k, k', who, heir)
    requires heir == k.owner
      || (heir in k.tree && !k.tree[heir].exited && heir != who && k.tree[heir].serial < k.tree[who].serial)
    requires DeathsOk(k')
    ensures Valid(k')
  {
    hide DeathsOk;
    forall p {:trigger Rooted(k', p)} | p in k'.tree ensures Rooted(k', p) {
      assert Rooted(k, p);
      assert SameBut(k.tree[p], k'.tree[p], p == who, k.tree[p].parent == who && p != who, heir);
    }
  }

  lemma AddChildOk(k: Kernel, pid: Pid, parent: Pid)
    requires Valid(k) && Free(k, pid) && (parent == k.owner || (parent in k.tree && !k.tree[parent].exited))
    ensures Valid(AddChild(k, pid, parent))
  {
    var k' := AddChild(k, pid, parent);
    forall p {:trigger Rooted(k', p)} | p in k'.tree ensures Rooted(k', p) {
      assert p in k.tree ==> Rooted(k, p);
    }
  }

  /** Reaping a dead process leaves the rest rooted: the dead have no children. */
  lemma RemoveOk(k: Kernel, pid: Pid)
    requires Valid(k) && pid in k.tree && k.tree[pid].exited
    ensures Valid(Remove(k, pid))
  {
    var k' := Remove(k, pid);
    forall p {:trigger Rooted(k', p)} | p in k'.tree ensures Rooted(k', p) {
      assert Rooted(k, p);
    }
  }

  /** A change that leaves parents, serials and deaths alone. */
  lemma SameTreeOk(k: Kernel, k': Kernel)
    requires Valid(k) && k'.owner == k.owner && k'.tree.Keys == k.tree.Keys && k'.next >= k.next
    requires forall p :: p in k.tree ==> SameBut(k.tree[p], k'.tree[p], false, false, 0)
    requires k'.owner !in k'.foreign && k'.tree.Keys !! k'.foreign.Keys
    requires forall p :: p in k'.foreign ==> k'.foreign[p] < k'.next
    requires forall p :: p in k'.foreign ==>
      (p in k.foreign && k.foreign[p] == k'.foreign[p]) || k'.foreign[p] >= k.next
    requires k'.deaths == k.deaths && forall p :: p in k.tree ==> k'.tree[p].status == k.tree[p].status
    ensures Valid(k')
  {
    forall p {:trigger Rooted(k', p)} | p in k'.tree ensures Rooted(k', p) {
      assert Rooted(k, p);
    }
  }

  lemma ApplyValid(k: Kernel, e: Event)
    requires Valid(k)
    ensures Valid(Apply(k, e))
  {
    hide Valid, Terminate, Died;
    match e
    case Exit(who, status) =>
      if who in k.tree && !k.tree[who].exited {
        TerminateDied(k, who, status);
        TerminateDeaths(k, who, status);
        AdopterOk(k, who);
        DiedValid(k, Terminate(k, who, status), who, Adopter(k, who));
      }
    case Fork(parent, child, sibling) =>
      if parent in k.tree && !k.tree[parent].exited && Free(k, child) {
        RootedAt(k, parent);
        AddChildOk(k, child, if sibling then k.tree[parent].parent else parent);
      }
    case Reap(parent, child) =>
      if parent in k.tree && child in k.tree && k.tree[child].parent == parent && k.tree[child].exited {
        RemoveOk(k, child);
      }
    case BecomeSubreaper(who) =>
      BasicFacts(k);
      SameTreeOk(k, Apply(k, e));
    case ForeignStart(pid) =>
      BasicFacts(k);
      SameTreeOk(k, Apply(k, e));
    case ForeignEnd(pid) =>
      BasicFacts(k);
      SameTreeOk(k, Apply(k, e));
    case LoseControl =>
      BasicFacts(k);
      SameTreeOk(k, Apply(k, e));
  }

  lemma RootedAt(k: Kernel, p: Pid)
    requires Valid(k) && p in k.tree
    ensures Rooted(k, p)
  {
  }

  lemma BasicFacts(k: Kernel)
    requires Valid(k)
    ensures k.owner !in k.tree && k.owner !in k.foreign && k.tree.Keys !! k.foreign.Keys
    ensures forall p :: p in k.tree ==> k.tree[p].serial < k.next
    ensures forall p :: p in k.foreign ==> k.foreign[p] < k.next
  {
  }

  /** The dead keep their status and, when they are children of the owner, their parent. */
  lemma TerminateOthers(k: Kernel, who: Pid, status: int)
    requires Valid(k) && who in k.tree
    ensures var k' := Terminate(k, who, status);
      && k'.intact == k.intact
      && forall p :: IsChild(k, p) && p != who ==> k'.tree[p] == k.tree[p]
  {
    hide Rooted, Adopter, DeathsOk;
  }

  lemma ExitStays(k: Kernel, who: Pid, status: int)
    requires Valid(k) && who in k.tree && !k.tree[who].exited
    ensures ChildrenStay(k, Terminate(k, who, status))
  {
    hide Valid, Terminate, DeathsStay;
    BasicFacts(k);
    TerminateDied(k, who, status);
    TerminateDeaths(k, who, status);
    TerminateOthers(k, who, status);
  }

  lemma ForkStays(k: Kernel, pid: Pid, parent: Pid)
    requires Valid(k) && Free(k, pid) && !AllExited(k)
    ensures ChildrenStay(k, AddChild(k, pid, parent))
  {
    hide Valid;
    BasicFacts(k);
  }

  lemma ReapStays(k: Kernel, pid: Pid)
    requires Valid(k) && pid in k.tree && !IsChild(k, pid)
    ensures ChildrenStay(k, Remove(k, pid))
  {
    hide Valid;
    RootedAt(k, pid);
  }

  lemma SameTreeStays(k: Kernel, k': Kernel)
    requires k'.owner == k.owner && k'.tree.Keys == k.tree.Keys && k'.next >= k.next && k'.deaths == k.deaths
    requires forall p :: p in k.tree ==> SameBut(k.tree[p], k'.tree[p], false, false, 0)
    requires forall p :: p in k.tree && k.tree[p].exited ==> k'.tree[p] == k.tree[p]
    requires k'.intact ==> k.intact
    ensures ChildrenStay(k, k')
  {
  }

  lemma ApplyStays(k: Kernel, e: Event)
    requires Valid(k)
    ensures ChildrenStay(k, Apply(k, e))
  {
    hide Valid, Terminate, ChildrenStay;
    BasicFacts(k);
    StaysRefl(k);
    match e
    case Exit(who, status) =>
      if who in k.tree && !k.tree[who].exited {
        ExitStays(k, who, status);
      }
    case Fork(parent, child, sibling) =>
      if parent in k.tree && !k.tree[parent].exited && Free(k, child) {
        ForkStays(k, child, if sibling then k.tree[parent].parent else parent);
      }
    case Reap(parent, child) =>
      if parent in k.tree && child in k.tree && k.tree[child].parent == parent && k.tree[child].exited {
        ReapStays(k, child);
      }
    case BecomeSubreaper(who) =>
      SameTreeStays(k, Apply(k, e));
    case ForeignStart(pid) =>
      SameTreeStays(k, Apply(k, e));
    case ForeignEnd(pid) =>
      SameTreeStays(k, Apply(k, e));
    case LoseControl =>
      SameTreeStays(k, Apply(k, e));
  }

  lemma {:induction false} RunOk(k: Kernel, events: seq<Event>)
    requires Valid(k)
    ensures Valid(Run(k, events)) && ChildrenStay(k, Run(k, events))
    decreases |events|
  {
    hide Valid, Apply, ChildrenStay;
    StaysRefl(k);
    if events != [] {
      ApplyValid(k, events[0]);
      ApplyStays(k, events[0]);
      RunOk(Apply(k, events[0]), events[1..]);
      StaysTrans(k, Apply(k, events[0]), Run(k, events));
    }
  }

  lemma StaysRefl(k: Kernel)
    ensures ChildrenStay(k, k)
  {
  }

  lemma StaysTrans(k: Kernel, k1: Kernel, k2: Kernel)
    requires ChildrenStay(k, k1) && ChildrenStay(k1, k2)
    ensures ChildrenStay(k, k2)
  {
  }

  /** "No children" means "no descendants": the oldest descendant must hang from the owner. */
  lemma NoChildrenNoDescendants(k: Kernel)
    requires Valid(k) && forall p :: !IsChild(k, p)
    ensures k.tree == map[]
  {
    hide Valid;
    if k.tree != map[] {
      assert k.tree.Keys != {};
      var p := Oldest(k, k.tree.Keys);
      var isChild, parent := IsChild(k, p), k.tree[p].parent;
      var older := parent in k.tree.Keys;
      RootedAt(k, p);
    }
  }

  lemma {:induction false} Oldest(k: Kernel, s: set<Pid>) returns (p: Pid)
    requires s != {} && s <= k.tree.Keys
    ensures p in s && forall q :: q in s ==> k.tree[p].serial <= k.tree[q].serial
    decreases |s|
  {
    var first :| first in s;
    p := first;
    var rest := s - {first};
    assert forall x :: x in s ==> x == first || x in rest;
    if rest != {} {
      var q := Oldest(k, rest);
      if k.tree[q].serial < k.tree[first].serial { p := q; }
    }
  }
}
