/** The lease and the processes started under it, together: what keeps a second build out of the slot. */
module SlotSafety {
  import opened Wrappers
  import L = Lease
  import K = ProcessKernel
  import O = OwnedTree
  import A = AdmittedRun

  /** The lease, and for every run the processes that descend from it, whether or not the run is still there. */
  datatype State = State(lease: L.State, trees: map<L.RunId, K.Kernel>)

  const NOTHING := K.Kernel.Kernel(0, map[], map[], 1, true, map[])

  datatype Event =
    | LeaseStep(step: L.Event)
    | Open(run: L.RunId, kernel: K.Kernel)        // the process scope is created, without children
    | Spawn(run: L.RunId, pid: K.Pid)             // Popen under the lease
    | Happen(run: L.RunId, event: K.Event)        // anything the run's processes do, even after its end
    | Reap(run: L.RunId, pid: K.Pid)              // the run, or init once it is gone, reaps an exited child

  function TreeOf(s: State, r: L.RunId): K.Kernel {
    if r in s.trees then s.trees[r] else NOTHING
  }

  predicate Alive(s: State, r: L.RunId) {
    TreeOf(s, r).tree != map[]
  }

  /** The two guards of the protocol. A run starts to release its lease only when no descendant is left, which
      `ReleaseIsAllowed` derives from what a managed run promises; an operator clears the lease of a run that is over
      only after checking the same. Everything else may happen at any time. */
  predicate Allowed(s: State, e: L.Event) {
    match e
    case BeginRelease(r) => !Alive(s, r)
    case OperatorClear => s.lease.lock.Some? ==> !Alive(s, s.lease.lock.value.creator)
    case _ => true
  }

  function Apply(s: State, e: Event): State {
    match e
    case LeaseStep(step) => if Allowed(s, step) then s.(lease := L.Apply(s.lease, step)) else s
    case Open(r, k) =>
      if r !in s.trees && k.tree == map[] then s.(trees := s.trees[r := k]) else s
    case Spawn(r, pid) =>
      if L.StageOf(s.lease, r).Holding? && K.Free(TreeOf(s, r), pid)
      then s.(trees := s.trees[r := K.AddChild(TreeOf(s, r), pid, TreeOf(s, r).owner)]) else s
    case Happen(r, event) => s.(trees := s.trees[r := K.Apply(TreeOf(s, r), event)])
    case Reap(r, pid) =>
      if K.IsChild(TreeOf(s, r), pid) && TreeOf(s, r).tree[pid].exited
      then s.(trees := s.trees[r := K.Remove(TreeOf(s, r), pid)]) else s
  }

  function Run(s: State, events: seq<Event>): State
    decreases |events|
  {
    if events == [] then s else Run(Apply(s, events[0]), events[1..])
  }

  const START := State(L.START, map[])

  /** The lock of a run with living descendants is in place, and that run either holds it or is over. */
  ghost predicate Guarded(s: State, r: L.RunId) {
    && s.lease.lock.Some? && s.lease.lock.value.creator == r
    && (L.StageOf(s.lease, r).Holding? || L.StageOf(s.lease, r).Over?)
  }

  ghost predicate Inv(s: State) {
    L.Inv(s.lease) && forall r {:trigger Guarded(s, r)} :: Alive(s, r) ==> Guarded(s, r)
  }

  /** Without descendants there is nobody to start any. */
  lemma NothingHappens(k: K.Kernel, e: K.Event)
    requires k.tree == map[]
    ensures K.Apply(k, e).tree == map[]
  {
  }

  lemma LeaseStepGuards(s: State, e: L.Event, r: L.RunId)
    requires Inv(s) && Allowed(s, e) && Alive(s, r)
    ensures Guarded(s.(lease := L.Apply(s.lease, e)), r)
  {
    assert Guarded(s, r);
    if L.Actor(e).Some? && L.InSlot(L.StageOf(s.lease, L.Actor(e).value)) {
      assert L.Owner(s.lease, L.Actor(e).value);
    }
  }

  lemma StepInv(s: State, e: Event)
    requires Inv(s)
    ensures Inv(Apply(s, e))
  {
    hide L.Apply, L.Inv, K.Apply, L.Owner;
    var t := Apply(s, e);
    if e.LeaseStep? && Allowed(s, e.step) {
      L.StepInv(s.lease, e.step);
    }
    forall r {:trigger Guarded(t, r)} | Alive(t, r) ensures Guarded(t, r) {
      if e.LeaseStep? {
        if Allowed(s, e.step) {
          LeaseStepGuards(s, e.step, r);
        } else {
          assert Guarded(s, r);
        }
      } else {
        if e.Happen? && e.run == r && !Alive(s, r) {
          NothingHappens(TreeOf(s, r), e.event);
        }
        if Alive(s, r) {
          assert Guarded(s, r);
        } else {
          HoldingOwns(s.lease, r);
        }
      }
    }
  }

  lemma HoldingOwns(s: L.State, r: L.RunId)
    requires L.Inv(s)
    ensures L.StageOf(s, r).Holding? ==> s.lock.Some? && s.lock.value.creator == r
  {
    if L.StageOf(s, r).Holding? {
      assert L.Owner(s, r);
    }
  }

  lemma {:induction false} RunInv(s: State, events: seq<Event>)
    requires Inv(s)
    ensures Inv(Run(s, events))
    decreases |events|
  {
    hide Apply, Inv;
    if events != [] {
      StepInv(s, events[0]);
      RunInv(Apply(s, events[0]), events[1..]);
    }
  }

  /** Over every interleaving of any number of runs, their processes, crashes and the operator: while a
      descendant of one run lives, reaped or not, detached or not, its run crashed or not, no other run is in the
      slot, and the lock it was started under is in place. */
  lemma SlotStaysClosed(events: seq<Event>, a: L.RunId, b: L.RunId)
    requires Alive(Run(START, events), a)
    ensures var s := Run(START, events).lease;
      && s.lock.Some? && s.lock.value.creator == a
      && (L.InSlot(L.StageOf(s, b)) ==> a == b)
  {
    RunInv(START, events);
    var s := Run(START, events);
    assert Guarded(s, a);
    if L.InSlot(L.StageOf(s.lease, b)) {
      assert L.Owner(s.lease, b);
    }
  }

  /** The guard on releasing is needed: from a state in which it is skipped, five steps let a second run create
      the lock while a process of the first is alive. */
  lemma ReleaseGuardIsNeeded(s: State, a: L.RunId, b: L.RunId, ino: L.Ino)
    requires Inv(s) && Alive(s, a) && L.StageOf(s.lease, a).Holding? && L.StageOf(s.lease, b).Waiting?
    ensures var l := L.Run(s.lease, [L.BeginRelease(a), L.CheckLockAgain(a), L.CheckMarker(a), L.RemoveMarker(a, true),
                                     L.RemoveLock(a, true), L.Mkdir(b, ino)]);
      l.lock == Some(L.LockDir(b, ino, map[])) && L.InSlot(L.StageOf(l, b))
  {
    var s1 := L.Apply(s.lease, L.BeginRelease(a));
    var s2 := L.Apply(s1, L.CheckLockAgain(a));
    var s3 := L.Apply(s2, L.CheckMarker(a));
    var s4 := L.Apply(s3, L.RemoveMarker(a, true));
    var s5 := L.Apply(s4, L.RemoveLock(a, true));
    L.ReleaseFrees(s.lease, a);
    assert L.StageOf(s5, b).Waiting?;
    var events := [L.BeginRelease(a), L.CheckLockAgain(a), L.CheckMarker(a), L.RemoveMarker(a, true),
                   L.RemoveLock(a, true), L.Mkdir(b, ino)];
    RunSix(s.lease, events);
  }

  lemma RunSix(s: L.State, e: seq<L.Event>)
    requires |e| == 6
    ensures L.Run(s, e) == L.Apply(L.Apply(L.Apply(L.Apply(L.Apply(L.Apply(s, e[0]), e[1]), e[2]), e[3]), e[4]), e[5])
  {
    hide L.Apply;
    RunFive(L.Apply(s, e[0]), e[1..]);
  }

  /** The machine's state once the run `r` has come to its end with this process scope. */
  ghost function AfterRun(s: State, r: L.RunId, tree: O.ClippyTree?): State
    reads tree
  {
    s.(trees := s.trees[r := if tree == null then NOTHING else tree.k])
  }

  /** The guard on releasing is what a managed run promises: holding the lease, it comes to release it only in a
      state in which the machine allows that, and the release then frees the slot. */
  method ReleaseIsAllowed(w: O.World, script: A.Script, ghost s: State, r: L.RunId)
    returns (released: bool, tree: O.ClippyTree?, ghost t: State)
    requires O.WorldOk(w) && Inv(s) && L.StageOf(s.lease, r).Holding?
    ensures t == AfterRun(s, r, tree) && Inv(t)
    ensures released ==> A.NobodyLeft(tree)
    ensures released ==> Allowed(t, L.BeginRelease(r))
    ensures released ==> Run(t, Steps(ReleaseSteps(r))).lease.lock == None
  {
    hide L.Inv, L.Apply, Run, O.Account, A.EndsIn;
    var code, removed, settled, cancelled, result, attempted;
    ghost var launched, leader, end, stage, rounds;
    code, tree, launched, removed, settled, cancelled, result, leader, released, end, stage, attempted, rounds :=
      A.ManagedRun(w, script);
    t := AfterRun(s, r, tree);
    HoldingOwns(s.lease, r);
    forall q {:trigger Guarded(t, q)} | Alive(t, q) ensures Guarded(t, q) {
      var guarded := Guarded(s, q);
    }
    if released {
      assert !Alive(t, r);
      ReleaseRuns(t, r);
    }
  }

  function ReleaseSteps(r: L.RunId): seq<L.Event> {
    [L.BeginRelease(r), L.CheckLockAgain(r), L.CheckMarker(r), L.RemoveMarker(r, true), L.RemoveLock(r, true)]
  }

  function Steps(events: seq<L.Event>): seq<Event> {
    if events == [] then [] else [LeaseStep(events[0])] + Steps(events[1..])
  }

  lemma {:induction false} AllowedSteps(s: State, events: seq<L.Event>)
    requires forall i :: 0 <= i < |events| ==>
      !events[i].OperatorClear? && (events[i].BeginRelease? ==> !Alive(s, events[i].run))
    ensures Run(s, Steps(events)) == s.(lease := L.Run(s.lease, events))
    decreases |events|
  {
    hide L.Apply;
    if events != [] {
      var t := s.(lease := L.Apply(s.lease, events[0]));
      assert Apply(s, LeaseStep(events[0])) == t;
      assert Steps(events)[1..] == Steps(events[1..]);
      assert forall r :: Alive(t, r) == Alive(s, r);
      AllowedSteps(t, events[1..]);
    }
  }

  lemma ReleaseRuns(s: State, r: L.RunId)
    requires Inv(s) && !Alive(s, r) && L.StageOf(s.lease, r).Holding?
    ensures Run(s, Steps(ReleaseSteps(r))).lease.lock == None
  {
    hide L.Apply, L.Inv;
    var e := ReleaseSteps(r);
    AllowedSteps(s, e);
    L.ReleaseFrees(s.lease, r);
    RunFive(s.lease, e);
  }

  lemma RunFive(s: L.State, e: seq<L.Event>)
    requires |e| == 5
    ensures L.Run(s, e) == L.Apply(L.Apply(L.Apply(L.Apply(L.Apply(s, e[0]), e[1]), e[2]), e[3]), e[4])
  {
    hide L.Apply;
    var s1 := L.Apply(s, e[0]);
    var s2 := L.Apply(s1, e[1]);
    var s3 := L.Apply(s2, e[2]);
    var s4 := L.Apply(s3, e[3]);
    assert e[1..][1..] == e[2..] && e[2..][1..] == e[3..] && e[3..][1..] == e[4..] && e[4..][1..] == [];
    assert L.Run(s, e) == L.Run(s1, e[1..]) == L.Run(s2, e[2..]) == L.Run(s3, e[3..]) == L.Run(s4, e[4..]);
    assert L.Run(s4, e[4..]) == L.Run(L.Apply(s4, e[4]), []);
  }
}
