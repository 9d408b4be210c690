/** The part of `main` between taking the lease and returning an exit code, for a managed run. */
module AdmittedRun {
  import opened Wrappers
  import opened ProcessKernel
  import opened OwnedTree

  /** How a stage ends: normally, with an error `main` turns into a refusal, or by KeyboardInterrupt. */
  datatype Outcome = Fine | Refused | Interrupted

  /** A version probe: the pid its child gets, how the probe ends once the child runs. */
  datatype Probe = Probe(pid: Pid, outcome: Outcome)

  /** The product command: whether it can be started, its pid, what befalls each polling turn. When the
      turns run out before the leader has exited the run is taken to be interrupted there. */
  datatype Product = Product(spawn: Outcome, pid: Pid, turns: seq<Outcome>)

  /** The outcomes `main` meets on its way; `setup` covers everything before the scope exists. */
  datatype Script = Script(
    clippy: bool, setup: Outcome, scope: Outcome, probes: seq<Probe>, recheck: Outcome, product: Product,
    timeout: nat, grace: nat, tables: seq<ChildTable>, restored: bool,
    releaseInterrupted: bool, removed: bool, absent: bool)

  /** Probe `i` was started as `ran[i]`, and so on; the first `n` of them went well. */
  ghost predicate Probed(probes: seq<Probe>, ran: seq<Serial>, n: nat, leaders0: map<Serial, Pid>,
                         leaders: map<Serial, Pid>, codes: map<Serial, int>)
  {
    && n <= |ran| <= |probes|
    && (forall i :: 0 <= i < |ran| ==> ran[i] in leaders && ran[i] !in leaders0 && leaders[ran[i]] == probes[i].pid)
    && (forall i :: 0 <= i < n ==> probes[i].outcome.Fine? && ran[i] in codes && codes[ran[i]] == 0)
  }

  /** The process at this pid has not exited. */
  ghost predicate Running(k: Kernel, pid: Pid) {
    pid in k.tree && !k.tree[pid].exited
  }

  /** How a probe that was started ends: unless it was cancelled, its status is collected if it has exited. */
  ghost predicate ProbeEnds(p: Probe, leader: Serial, k: Kernel, cancelled: bool, codes: map<Serial, int>,
                            exc: Outcome)
  {
    if cancelled then exc.Interrupted?
    else
      && (leader !in codes ==> Running(k, p.pid))
      && if !p.outcome.Fine? then exc == p.outcome
         else if leader in codes && codes[leader] == 0 then exc.Fine?
         else exc.Refused?
  }

  /** How probing ended: either every probe went well, or the first that did not could not be started, was cancelled,
      ended as scripted, or did not exit with 0. */
  ghost predicate ProbesEnd(probes: seq<Probe>, ran: seq<Serial>, n: nat, k: Kernel, cancelled: bool,
                            codes: map<Serial, int>, exc: Outcome)
  {
    && n <= |ran| <= |probes|
    && if n == |probes| then exc.Fine? && !cancelled
       else if |ran| == n then exc.Refused? && !Free(k, probes[n].pid)
       else |ran| == n + 1 && !exc.Fine? && ProbeEnds(probes[n], ran[n], k, cancelled, codes, exc)
  }

  /** `tree.probe(...)`: start the probe, bind it, wait for it, check its status. */
  method RunProbe(tree: ClippyTree, p: Probe) returns (exc: Outcome, ghost started: bool, ghost leader: Serial)
    requires tree.Inv() && tree.opening == {} && !tree.cancelled
    modifies tree
    ensures tree.Inv() && tree.opening == {} && tree.failed == old(tree.failed)
    ensures tree.sent == old(tree.sent) && tree.stopping == old(tree.stopping)
    ensures tree.reaped == old(tree.reaped)
    ensures Calm(old(tree.cancelled), old(tree.schedule)) ==> Calm(tree.cancelled, tree.schedule)
    ensures started <==> Free(old(tree.k), p.pid)
    ensures !started ==>
      exc.Refused? && tree.k == old(tree.k) && tree.leaders == old(tree.leaders) && tree.codes == old(tree.codes)
      && !tree.cancelled
    ensures started ==>
      && leader !in old(tree.leaders) && tree.leaders == old(tree.leaders)[leader := p.pid]
      && tree.codes - {leader} == old(tree.codes) - {leader}
      && ProbeEnds(p, leader, tree.k, tree.cancelled, tree.codes, exc)
  {
    hide Owns, Valid, ChildrenStay, DeathsStay, AfterTurn, Calm;
    started, leader := false, 0;
    if !Free(tree.k, p.pid) {
      return Refused, false, 0;
    }
    FreshSerial(tree.k, tree.handles, tree.fds, tree.opening, tree.codes, tree.leaders);
    var l := tree.Launch(p.pid);
    leader, started := l, true;
    if tree.cancelled {
      return Interrupted, true, l;
    }
    var code := tree.WaitLeader(p.pid, l);
    if tree.cancelled {
      exc := Interrupted;
    } else if !p.outcome.Fine? {
      exc := p.outcome;
    } else {
      exc := if code == Some(0) then Fine else Refused;
    }
  }

  /** The probes one after another, until one does not go well. */
  method RunProbes(tree: ClippyTree, probes: seq<Probe>)
    returns (exc: Outcome, ghost launched: bool, ghost ran: seq<Serial>, ghost n: nat)
    requires tree.Inv() && tree.opening == {} && !tree.cancelled
    modifies tree
    ensures tree.Inv() && tree.opening == {} && tree.failed == old(tree.failed)
    ensures tree.sent == old(tree.sent) && tree.stopping == old(tree.stopping)
    ensures MoreLeaders(old(tree.leaders), tree.leaders)
    ensures if launched then tree.leaders != map[] else tree.leaders == old(tree.leaders) && tree.k == old(tree.k)
    ensures Probed(probes, ran, n, old(tree.leaders), tree.leaders, tree.codes)
    ensures ProbesEnd(probes, ran, n, tree.k, tree.cancelled, tree.codes, exc)
    ensures |tree.leaders| == |old(tree.leaders)| + |ran| && tree.reaped == old(tree.reaped)
    ensures Calm(old(tree.cancelled), old(tree.schedule)) ==> !tree.cancelled
  {
    hide Owns, Valid, ChildrenStay, ProbeEnds, Probed, ProbesEnd, Calm;
    exc, launched, ran, n := Fine, false, [], 0;
    var i := 0;
    ProbedNone(probes, tree.leaders, tree.codes);
    while i < |probes| && exc.Fine?
      invariant tree.Inv() && tree.opening == {} && tree.failed == old(tree.failed)
      invariant tree.sent == old(tree.sent) && tree.stopping == old(tree.stopping)
      invariant MoreLeaders(old(tree.leaders), tree.leaders)
      invariant if launched then tree.leaders != map[] else tree.leaders == old(tree.leaders) && tree.k == old(tree.k)
      invariant Probed(probes, ran, n, old(tree.leaders), tree.leaders, tree.codes)
      invariant exc.Fine? ==> n == i == |ran| && i <= |probes| && !tree.cancelled
      invariant |tree.leaders| == |old(tree.leaders)| + |ran| && tree.reaped == old(tree.reaped)
      invariant Calm(old(tree.cancelled), old(tree.schedule)) ==> Calm(tree.cancelled, tree.schedule)
      invariant !exc.Fine? ==> ProbesEnd(probes, ran, n, tree.k, tree.cancelled, tree.codes, exc)
      decreases |probes| - i
    {
      ghost var leaders1, codes1, started, leader := tree.leaders, tree.codes, false, 0;
      exc, started, leader := RunProbe(tree, probes[i]);
      if started {
        ProbedMore(probes, ran, old(tree.leaders), leaders1, codes1, leader, tree.leaders, tree.codes, tree.k,
                   tree.cancelled, exc);
        assert leader in tree.leaders;
        launched, ran := true, ran + [leader];
      }
      ProbesEndHere(probes, ran, i, tree.k, tree.cancelled, tree.codes, exc, started);
      if exc.Fine? { n := n + 1; }
      i := i + 1;
    }
    ProbesEndWell(probes, ran, n, tree.k, tree.cancelled, tree.codes, exc);
    CalmNow(tree.cancelled, tree.schedule);
  }

  lemma CalmNow(cancelled: bool, schedule: seq<Turn>)
    ensures Calm(cancelled, schedule) ==> !cancelled
  {
  }

  lemma ProbedNone(probes: seq<Probe>, leaders: map<Serial, Pid>, codes: map<Serial, int>)
    ensures Probed(probes, [], 0, leaders, leaders, codes)
  {
  }

  lemma ProbedMore(probes: seq<Probe>, ran: seq<Serial>, leaders0: map<Serial, Pid>, leaders1: map<Serial, Pid>,
                   codes1: map<Serial, int>, leader: Serial, leaders: map<Serial, Pid>, codes: map<Serial, int>,
                   k: Kernel, cancelled: bool, exc: Outcome)
    requires Probed(probes, ran, |ran|, leaders0, leaders1, codes1) && |ran| < |probes|
    requires MoreLeaders(leaders0, leaders1) && leader !in leaders1
    requires leaders == leaders1[leader := probes[|ran|].pid] && codes - {leader} == codes1 - {leader}
    requires ProbeEnds(probes[|ran|], leader, k, cancelled, codes, exc)
    ensures Probed(probes, ran + [leader], |ran|, leaders0, leaders, codes)
    ensures exc.Fine? ==> Probed(probes, ran + [leader], |ran| + 1, leaders0, leaders, codes)
  {
    forall i | 0 <= i < |ran| ensures ran[i] in codes && codes[ran[i]] == 0 {
      assert ran[i] in codes1 - {leader} && (codes - {leader})[ran[i]] == codes[ran[i]];
    }
  }

  lemma ProbesEndHere(probes: seq<Probe>, ran: seq<Serial>, i: nat, k: Kernel, cancelled: bool,
                      codes: map<Serial, int>, exc: Outcome, started: bool)
    requires i < |probes| && |ran| == (if started then i + 1 else i)
    requires if started then ProbeEnds(probes[i], ran[i], k, cancelled, codes, exc)
      else exc.Refused? && !Free(k, probes[i].pid)
    ensures !exc.Fine? ==> ProbesEnd(probes, ran, i, k, cancelled, codes, exc)
    ensures exc.Fine? ==> !cancelled
  {
  }

  lemma ProbesEndWell(probes: seq<Probe>, ran: seq<Serial>, n: nat, k: Kernel, cancelled: bool,
                      codes: map<Serial, int>, exc: Outcome)
    requires exc.Fine? ==> n == |ran| == |probes| && !cancelled
    requires !exc.Fine? ==> ProbesEnd(probes, ran, n, k, cancelled, codes, exc)
    ensures ProbesEnd(probes, ran, n, k, cancelled, codes, exc)
  {
  }

  /** How the call ended: with the leader's status, or at turn `n` as scripted, for lack of the scope, or because the
      turns ran out. */
  ghost predicate CallEnds(product: Product, n: nat, intact: bool, exc: Outcome) {
    && n <= |product.turns| && (forall i :: 0 <= i < n ==> product.turns[i].Fine?)
    && if n == |product.turns| then exc.Interrupted?
       else if !product.turns[n].Fine? then exc == product.turns[n]
       else exc.Fine? || (exc.Refused? && !intact)
  }

  /** One polling turn: serve adopted children, then look at the leader. */
  method PollLeader(tree: ClippyTree, pid: Pid, leader: Serial) returns (ok: bool, code: Option<int>)
    requires tree.Inv() && tree.opening == {}
    requires leader in tree.leaders && tree.leaders[leader] == pid && leader !in tree.codes
    modifies tree
    ensures tree.Inv() && tree.opening == {} && tree.failed == old(tree.failed) && tree.leaders == old(tree.leaders)
    ensures tree.sent == old(tree.sent) && tree.stopping == old(tree.stopping) && old(tree.reaped) <= tree.reaped
    ensures ok <==> old(tree.k.intact)
    ensures !ok ==>
      code.None? && tree.k == old(tree.k) && tree.handles == old(tree.handles) && tree.reaped == old(tree.reaped)
    ensures if code.Some? then ExitedAt(tree.leaders, tree.k, leader, pid, code.value)
      else tree.codes == old(tree.codes) && (ok ==> Running(tree.k, pid))
    ensures old(tree.schedule) == [] ==> tree.schedule == []
    ensures ok && old(tree.schedule) == [] && code.None? ==>
      |tree.reaped| == |old(tree.reaped)| + 128 || NothingToTake(tree.k, tree.handles, tree.codes)
  {
    hide Owns, Valid, ChildrenStay, DeathsStay, NothingToTake;
    ok := tree.ReapAdopted();
    if !ok {
      return false, None;
    }
    code := tree.WaitLeader(pid, leader);
  }

  /** `call_clippy(...)`: start the leader, then serve adopted children and poll the leader. The result
      is the status the leader exited with. */
  method CallLeader(tree: ClippyTree, product: Product)
    returns (exc: Outcome, result: Option<int>, ghost launched: bool, ghost leader: Serial, ghost n: nat)
    requires tree.Inv() && tree.opening == {}
    modifies tree
    ensures tree.Inv() && tree.opening == {} && tree.failed == old(tree.failed)
    ensures tree.sent == old(tree.sent) && tree.stopping == old(tree.stopping)
    ensures result.Some? <==> exc.Fine?
    ensures exc.Fine? ==> launched
    ensures launched <==> leader in tree.leaders && leader !in old(tree.leaders)
    ensures MoreLeaders(old(tree.leaders), tree.leaders) && old(tree.reaped) <= tree.reaped
    ensures |tree.leaders| == |old(tree.leaders)| + if launched then 1 else 0
    ensures !launched ==> tree.leaders == old(tree.leaders) && tree.k == old(tree.k)
    // without a status the leader was not started, or its status was not collected
    ensures launched <==> product.spawn.Fine? && Free(old(tree.k), product.pid)
    ensures !launched ==> exc == if product.spawn.Interrupted? then Interrupted else Refused
    ensures launched ==> CallEnds(product, n, tree.k.intact, exc)
    ensures launched && result.None? ==> leader !in tree.codes
    // it is polled in every turn, after adopted children that have exited were taken
    ensures launched && result.None? && n > 0 ==> Running(tree.k, product.pid)
    ensures launched && result.None? && n > 0 && old(tree.schedule) == [] ==>
      |tree.reaped| >= |old(tree.reaped)| + 128 || NothingToTake(tree.k, tree.handles, tree.codes)
    ensures result.Some? ==> ExitedAt(tree.leaders, tree.k, leader, product.pid, result.value)
  {
    hide Owns, Valid, ChildrenStay, DeathsStay, NothingToTake;
    result, launched, leader, n := None, false, 0, 0;
    FreshSerial(tree.k, tree.handles, tree.fds, tree.opening, tree.codes, tree.leaders);
    if !product.spawn.Fine? || !Free(tree.k, product.pid) {
      exc := if product.spawn.Interrupted? then Interrupted else Refused;
      return;
    }
    var started := tree.Launch(product.pid);
    leader, launched := started, true;
    var i := 0;
    while i < |product.turns|
      invariant tree.Inv() && tree.opening == {} && tree.failed == old(tree.failed)
      invariant tree.sent == old(tree.sent) && tree.stopping == old(tree.stopping)
      invariant leader == started && launched && tree.leaders == old(tree.leaders)[started := product.pid]
      invariant leader !in old(tree.leaders) && leader !in tree.codes
      invariant n == i <= |product.turns| && forall j :: 0 <= j < i ==> product.turns[j].Fine?
      invariant n > 0 ==> Running(tree.k, product.pid)
      invariant old(tree.schedule) == [] ==> tree.schedule == []
      invariant old(tree.reaped) <= tree.reaped
      invariant n > 0 && old(tree.schedule) == [] ==>
        |tree.reaped| >= |old(tree.reaped)| + 128 || NothingToTake(tree.k, tree.handles, tree.codes)
      decreases |product.turns| - i
    {
      if !product.turns[i].Fine? {
        exc := product.turns[i];
        return;
      }
      var ok, code := PollLeader(tree, product.pid, started);
      if !ok {
        exc := Refused;
        return;
      }
      if code.Some? {
        exc, result := Fine, code;
        return;
      }
      i, n := i + 1, n + 1;
    }
    exc := Interrupted;
  }

  /** The stage that ended an attempt. */
  datatype Stage = Setup | Scope | Probing | Recheck | Calling | Done

  /** What each stage means for how the attempt ended. */
  ghost predicate EndsIn(stage: Stage, s: Script, exc: Outcome, launchAttempted: bool, owned: bool) {
    && (owned <==> !stage.Setup? && !stage.Scope?)
    && (launchAttempted <==> stage.Calling? || stage.Done? || (s.clippy && (stage.Probing? || stage.Recheck?)))
    && (exc.Fine? <==> stage.Done?)
    && (if stage.Setup? then exc == s.setup else s.setup.Fine?)
    && (stage.Scope? ==> exc == s.scope) && (owned ==> s.scope.Fine?)
    && (stage.Probing? ==> s.clippy)
    && (stage.Recheck? ==> exc == s.recheck) && (stage.Calling? || stage.Done? ==> s.recheck.Fine?)
    && (s.clippy && (stage.Recheck? || stage.Calling? || stage.Done?) ==>
          forall i :: 0 <= i < |s.probes| ==> s.probes[i].outcome.Fine?)
  }

  /** Why a probe or the product ended an attempt that came to it. */
  ghost predicate EndsWell(stage: Stage, s: Script, exc: Outcome, k: Kernel, cancelled: bool, codes: map<Serial, int>,
                           ran: seq<Serial>, n: nat, started: bool)
  {
    && (stage.Probing? ==> ProbesEnd(s.probes, ran, n, k, cancelled, codes, exc))
    && (stage.Calling? ==>
          if started then CallEnds(s.product, n, k.intact, exc)
          else exc == if s.product.spawn.Interrupted? then Interrupted else Refused)
  }

  /** The `try` block. A child exists only when a launch was attempted under an owned scope. */
  method Attempt(w: World, s: Script)
    returns (tree: ClippyTree?, exc: Outcome, result: Option<int>, launchAttempted: bool, ghost launched: bool,
             ghost leader: Serial, ghost stage: Stage, ghost ran: seq<Serial>, ghost n: nat, ghost started: bool)
    requires WorldOk(w)
    ensures tree != null ==> fresh(tree) && tree.Inv() && tree.opening == {} && !tree.failed
    ensures tree != null ==> tree.sent == [] && !tree.stopping
    ensures launched ==> launchAttempted && tree != null
    ensures tree != null ==> (launched <==> tree.leaders != map[]) && (!launched ==> tree.k.tree == map[])
    ensures EndsIn(stage, s, exc, launchAttempted, tree != null)
    ensures tree != null ==> EndsWell(stage, s, exc, tree.k, tree.cancelled, tree.codes, ran, n, started)
    ensures tree != null ==>
      Excused(w, s, stage, exc, tree.leaders, tree.codes, tree.reaped != [], tree.k.intact)
    ensures result.Some? <==> exc.Fine?
    ensures exc.Fine? ==> launched
    ensures result.Some? ==> ExitedAt(tree.leaders, tree.k, leader, s.product.pid, result.value)
  {
    hide Owns, Valid, ChildrenStay, ExitedAt, CallEnds, ProbesEnd, Probed, Calm, Excused;
    tree, exc, result, launchAttempted, launched, leader := null, s.setup, None, false, false, 0;
    stage, ran, n, started := Setup, [], 0, false;
    if !exc.Fine? { return; }
    exc, stage := s.scope, Scope;
    if !exc.Fine? { return; }
    var t := new ClippyTree(w.owner, w.foreign, w.next, w.turns);
    tree := t;
    if s.clippy {
      launchAttempted, stage := true, Probing;
      exc, launched, ran, n := RunProbes(t, s.probes);
      ProbesFine(s.probes, ran, n, map[], t.leaders, t.k, t.cancelled, t.codes, exc);
      ProbesExcused(w, s, exc, ran, n, t.leaders, t.codes, t.k, t.cancelled);
      if !exc.Fine? { return; }
    }
    exc, stage := s.recheck, Recheck;
    RecheckExcused(w, s, exc, t.leaders, t.codes, t.k.intact);
    if !exc.Fine? { return; }
    launchAttempted, stage := true, Calling;
    exc, result, started, leader, n := CallLeader(t, s.product);
    launched := launched || started;
    if exc.Fine? { stage := Done; }
    CallExcused(w, s, exc, n, started, t.leaders, t.codes, t.reaped != [], t.k.intact, leader);
  }

  ghost predicate SomeProbe(s: Script, o: Outcome) {
    exists i :: 0 <= i < |s.probes| && s.probes[i].outcome == o
  }

  ghost predicate SomeTurn(s: Script, o: Outcome) {
    exists i :: 0 <= i < |s.product.turns| && s.product.turns[i] == o
  }

  ghost predicate SomeCancel(w: World) {
    exists i :: 0 <= i < |w.turns| && w.turns[i].cancel
  }

  /** The status of some leader is not collected, or not 0. */
  ghost predicate SomeUnwell(leaders: map<Serial, Pid>, codes: map<Serial, int>) {
    exists l :: l in leaders && (l in codes ==> codes[l] != 0)
  }

  ghost predicate SomeUncollected(leaders: map<Serial, Pid>, codes: map<Serial, int>) {
    exists l :: l in leaders && l !in codes
  }

  function ProbesDue(s: Script): nat {
    if s.clippy then |s.probes| else 0
  }

  /** What can be seen afterwards of why an attempt did not end well. A probe was interrupted or refused as scripted, by
      a cancellation, because it could not be started, or because of its status; the product was not started, or its
      call was interrupted or refused as scripted, for want of its status, or for loss of the scope. Once something
      was reaped for `finish` the statuses seen then need not be those seen before. */
  ghost predicate Excused(w: World, s: Script, stage: Stage, exc: Outcome, leaders: map<Serial, Pid>,
                          codes: map<Serial, int>, reaped: bool, intact: bool)
  {
    var due := ProbesDue(s);
    match stage
    case Setup => true
    case Scope => true
    case Probing =>
      && |leaders| <= due && (exc.Interrupted? ==> SomeProbe(s, Interrupted) || SomeCancel(w))
      && (exc.Refused? ==> SomeProbe(s, Refused) || |leaders| < due || reaped || SomeUnwell(leaders, codes))
    case Recheck => |leaders| == due
    case Calling =>
      if |leaders| == due then exc == if s.product.spawn.Interrupted? then Interrupted else Refused
      else
        && |leaders| == due + 1
        && (exc.Interrupted? ==> SomeTurn(s, Interrupted) || reaped || SomeUncollected(leaders, codes))
        && (exc.Refused? ==> SomeTurn(s, Refused) || !intact)
    case Done => |leaders| == due + 1
  }

  lemma ProbesExcused(w: World, s: Script, exc: Outcome, ran: seq<Serial>, n: nat, leaders: map<Serial, Pid>,
                      codes: map<Serial, int>, k: Kernel, cancelled: bool)
    requires s.clippy && |leaders| == |ran| && Probed(s.probes, ran, n, map[], leaders, codes)
    requires ProbesEnd(s.probes, ran, n, k, cancelled, codes, exc) && (Calm(false, w.turns) ==> !cancelled)
    ensures !exc.Fine? ==> Excused(w, s, Probing, exc, leaders, codes, false, k.intact)
    ensures exc.Fine? ==> |leaders| == ProbesDue(s)
  {
    if !exc.Fine? {
      if |ran| == n + 1 {
        assert ran[n] in leaders && s.probes[n].outcome == s.probes[n].outcome;
      }
      if cancelled {
        assert SomeCancel(w);
      }
    }
  }

  lemma RecheckExcused(w: World, s: Script, exc: Outcome, leaders: map<Serial, Pid>, codes: map<Serial, int>,
                       intact: bool)
    requires |leaders| == ProbesDue(s)
    ensures Excused(w, s, Recheck, exc, leaders, codes, false, intact)
  {
  }

  lemma CallExcused(w: World, s: Script, exc: Outcome, n: nat, started: bool, leaders: map<Serial, Pid>,
                    codes: map<Serial, int>, reaped: bool, intact: bool, leader: Serial)
    requires |leaders| == ProbesDue(s) + if started then 1 else 0
    requires exc.Fine? ==> started
    requires !started ==> exc == if s.product.spawn.Interrupted? then Interrupted else Refused
    requires started ==> CallEnds(s.product, n, intact, exc) && leader in leaders
    requires started && !exc.Fine? ==> leader !in codes
    ensures Excused(w, s, if exc.Fine? then Done else Calling, exc, leaders, codes, reaped, intact)
  {
  }

  /** Finishing takes no excuse away. */
  lemma ExcusedStill(w: World, s: Script, stage: Stage, exc: Outcome, leaders: map<Serial, Pid>,
                     codes: map<Serial, int>, reaped: bool, intact: bool, codes': map<Serial, int>, reaped': bool,
                     intact': bool)
    requires Excused(w, s, stage, exc, leaders, codes, reaped, intact)
    requires (reaped ==> reaped') && (!reaped' ==> codes' == codes) && (intact' ==> intact)
    ensures Excused(w, s, stage, exc, leaders, codes', reaped', intact')
  {
  }

  lemma ProbesFine(probes: seq<Probe>, ran: seq<Serial>, n: nat, leaders0: map<Serial, Pid>,
                   leaders: map<Serial, Pid>, k: Kernel, cancelled: bool, codes: map<Serial, int>, exc: Outcome)
    requires Probed(probes, ran, n, leaders0, leaders, codes) && ProbesEnd(probes, ran, n, k, cancelled, codes, exc)
    ensures exc.Fine? ==> forall i :: 0 <= i < |probes| ==> probes[i].outcome.Fine?
  {
  }

  /** No process that descends from this run is left. */
  ghost predicate NobodyLeft(tree: ClippyTree?)
    reads tree
  {
    tree == null || tree.k.tree == map[]
  }

  /** The tree's part of the `finally` block: whatever is left is stopped unless the attempt ended well. */
  method FinishAttempt(t: ClippyTree, s: Script, exc: Outcome) returns (r: Settlement, ghost rounds: seq<Round>)
    requires t.Inv() && t.opening == {} && !t.failed && t.sent == [] && !t.stopping
    modifies t
    ensures t.Inv() && t.leaders == old(t.leaders) && DeathsStay(old(t.k), t.k)
    ensures r.treeSettled <==> s.restored && SettledBy(rounds)
    ensures r.treeSettled ==> t.k.tree == map[] && t.fds == map[]
    ensures !r.treeSettled ==> t.failed || !s.restored || t.now >= s.timeout
    ensures old(t.k).tree == map[] ==> t.k.tree == map[]
    ensures r.cancelled == t.cancelled && (exc.Interrupted? || old(t.cancelled) ==> t.cancelled)
    ensures Account(rounds, s.tables, [], t.sent, !exc.Fine?, false, t.failed,
                    SettledBy(rounds))
    ensures t.sent != [] ==> t.stopping
    ensures LostTruly(rounds, t.k.intact)
    ensures old(t.reaped) <= t.reaped && (t.reaped == [] ==> t.codes == old(t.codes))
  {
    hide Owns, Valid, ChildrenStay, Account, Graceful, AllExited, AllReaped, AfterTurn, DeathsStay, CodesKept, Truthful,
         CodesAfterReaps, NoStale, Overwritable, Calm;
    if exc.Interrupted? { t.cancelled := true; }
    ghost var stop := !exc.Fine? || t.cancelled;
    r, rounds := t.Finish(!exc.Fine?, s.timeout, s.grace, s.tables, s.restored);
    AccountAnyway(rounds, s.tables, [], t.sent, stop, false, t.failed, SettledBy(rounds),
                  !exc.Fine?);
  }

  /** The run as a whole. `released` says whether it came to release its lease, `removed` whether that removed the
      lock directory, `end` and `stage` how and where the attempt ended, `rounds` what `finish` did. */
  method ManagedRun(w: World, s: Script)
    returns (code: int, tree: ClippyTree?, ghost launched: bool, removed: bool, settled: bool, cancelled: bool,
             result: Option<int>, ghost leader: Serial, released: bool, ghost end: Outcome, ghost stage: Stage,
             attempted: bool, ghost rounds: seq<Round>)
    requires WorldOk(w)
    // the lease goes only after kernel closure, once anything ran under it, or when no launch was attempted
    ensures launched <==> tree != null && tree.leaders != map[]
    ensures released && launched ==> settled && tree.k.tree == map[] && tree.fds == map[]
    ensures released ==> NobodyLeft(tree)
    ensures removed <==> released && s.removed
    ensures released <==> settled || !attempted
    // where the attempt ended, and that whatever is left is stopped unless it ended well
    ensures EndsIn(stage, s, end, attempted, tree != null)
    ensures tree != null ==> Excused(w, s, stage, end, tree.leaders, tree.codes, tree.reaped != [], tree.k.intact)
    ensures tree != null ==>
      Account(rounds, s.tables, [], tree.sent, !end.Fine?, false, tree.failed,
              SettledBy(rounds))
    ensures tree != null ==> LostTruly(rounds, tree.k.intact) && (tree.sent != [] ==> tree.stopping)
    ensures settled <==> tree != null && s.restored && SettledBy(rounds)
    ensures settled ==> tree.k.tree == map[]
    ensures tree != null && !settled ==> tree.failed || !s.restored || tree.now >= s.timeout
    // a cancellation is one that ended the attempt, one the tree saw, or one while releasing
    ensures cancelled <==>
      end.Interrupted? || (tree != null && tree.cancelled) || (released && s.releaseInterrupted)
    // the product status is the one the leader's process exited with
    ensures result.Some? <==> end.Fine?
    ensures result.Some? ==> tree != null && ExitedAt(tree.leaders, tree.k, leader, s.product.pid, result.value)
    // the exit code, in every case: a refusal, unproven closure or a lock still there; a cancellation; the product's
    ensures code == if end.Refused? || !settled || !s.absent then 75 else if cancelled then 130 else result.value
    ensures end.Interrupted? ==> cancelled
    ensures code == 0 ==> launched
  {
    hide Owns, Valid, ChildrenStay, EndsWell, Account, Excused;
    var t, exc, res, launchAttempted;
    ghost var ran, n, started;
    t, exc, res, launchAttempted, launched, leader, stage, ran, n, started := Attempt(w, s);
    tree, removed, settled, cancelled, result, released := t, false, false, false, res, false;
    end, rounds, attempted := exc, [], launchAttempted;
    var interrupted := exc.Interrupted?;
    var completed := false;
    var treeCancelled := false;
    if t != null {
      var settlement;
      ghost var codes1, reaped1, k1 := t.codes, t.reaped, t.k;
      settlement, rounds := FinishAttempt(t, s, exc);
      ExcusedStill(w, s, stage, exc, t.leaders, codes1, reaped1 != [], k1.intact, t.codes, t.reaped != [], t.k.intact);
      completed := settlement.treeSettled;
      treeCancelled := settlement.cancelled;
    }
    settled := completed;
    if completed || !launchAttempted {
      released, removed := true, s.removed;
      if s.releaseInterrupted { interrupted := true; }
    }
    if t != null {
      completed := completed && s.absent;
    }
    cancelled := interrupted || treeCancelled;
    if exc.Refused? {
      return 75, t, launched, removed, settled, cancelled, res, leader, released, end, stage, attempted, rounds;
    }
    if !completed {
      return 75, t, launched, removed, settled, cancelled, res, leader, released, end, stage, attempted, rounds;
    }
    if interrupted || treeCancelled {
      return 130, t, launched, removed, settled, cancelled, res, leader, released, end, stage, attempted, rounds;
    }
    code := res.value;
  }
}
