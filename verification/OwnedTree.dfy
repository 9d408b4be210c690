/** `ClippyTree`: one exclusively owned scope of child processes under a Linux subreaper. */
module OwnedTree {
  import opened Wrappers
  import opened ProcessKernel

  type Fd = nat

  /** A tracked child: its pidfd and, for a leader started by `Popen`, the process object, named
      here by the serial of the process it started. */
  datatype Handle = Handle(fd: Fd, process: Option<Serial>)

  /** What happens around one system call of the owner: other processes run, a cancellation signal
      may arrive, time passes. */
  datatype Turn = Turn(events: seq<Event>, cancel: bool, delay: nat)

  /** One reading of the child table. */
  datatype ChildTable = Unreadable | Pids(pids: seq<Pid>)

  datatype Settlement = Settlement(treeSettled: bool, cancelled: bool)

  /** `process is None or process.returncode is None`. */
  predicate Awaited(h: Handle, codes: map<Serial, int>) {
    h.process.None? || h.process.value !in codes
  }

  /** The open pidfds are exactly those in `handles`, each held once, and those in `opening`, which
      is empty except inside `track`. */
  ghost predicate FdsHeld(handles: map<Pid, Handle>, fds: map<Fd, Serial>, opening: set<Fd>) {
    && (forall p :: p in handles ==> handles[p].fd in fds && handles[p].fd !in opening)
    && (forall p, q :: p in handles && q in handles && handles[p].fd == handles[q].fd ==> p == q)
    && (forall fd :: fd in fds ==> fd in opening || exists p :: p in handles && handles[p].fd == fd)
    && opening <= fds.Keys
  }

  /** An awaited handle names an unreaped child, through its own pidfd. */
  ghost predicate Bound(k: Kernel, handles: map<Pid, Handle>, fds: map<Fd, Serial>, codes: map<Serial, int>)
  {
    forall p :: p in handles && Awaited(handles[p], codes) ==>
      handles[p].fd in fds && BoundAt(k, p, fds[handles[p].fd], handles[p].process)
  }

  ghost predicate BoundAt(k: Kernel, p: Pid, serial: Serial, process: Option<Serial>) {
    IsChild(k, p) && k.tree[p].serial == serial && (process.Some? ==> process.value == serial)
  }

  /** A leader whose return code is not known yet has not been reaped by anyone. */
  ghost predicate LeadersKept(
    k: Kernel, handles: map<Pid, Handle>, codes: map<Serial, int>, leaders: map<Serial, Pid>)
  {
    && (forall s :: s in codes ==> s in leaders)
    && (forall s :: s in leaders ==> s < k.next && leaders[s] != k.owner)
    && (forall s :: s in leaders && s !in codes ==>
          leaders[s] in handles && handles[leaders[s]].process == Some(s))
    && (forall p :: p in handles && handles[p].process.Some? ==>
          handles[p].process.value in leaders && leaders[handles[p].process.value] == p)
  }

  function LowestUnused(used: set<Fd>, n: Fd): (fd: Fd)
    ensures fd >= n && fd !in used
    decreases |used|
  {
    if n in used then LowestUnused(used - {n}, n + 1) else n
  }

  lemma CodesOfLeaders(k: Kernel, handles: map<Pid, Handle>, fds: map<Fd, Serial>, opening: set<Fd>,
                       codes: map<Serial, int>, leaders: map<Serial, Pid>, s: Serial)
    requires Owns(k, handles, fds, opening, codes, leaders) && s !in leaders
    ensures s !in codes
  {
    hide Valid, FdsHeld, Bound;
  }

  /** What the owner knows about its children, in one predicate. */
  ghost predicate Owns(k: Kernel, handles: map<Pid, Handle>, fds: map<Fd, Serial>, opening: set<Fd>,
                       codes: map<Serial, int>, leaders: map<Serial, Pid>)
  {
    && Valid(k) && FdsHeld(handles, fds, opening) && Bound(k, handles, fds, codes)
    && LeadersKept(k, handles, codes, leaders)
  }

  lemma StillOwns(k: Kernel, k': Kernel, handles: map<Pid, Handle>, fds: map<Fd, Serial>, opening: set<Fd>,
                  codes: map<Serial, int>, leaders: map<Serial, Pid>)
    requires Owns(k, handles, fds, opening, codes, leaders) && Valid(k') && ChildrenStay(k, k')
    ensures Owns(k', handles, fds, opening, codes, leaders)
  {
    hide FdsHeld, Valid;
    forall p | p in handles && Awaited(handles[p], codes)
      ensures handles[p].fd in fds && BoundAt(k', p, fds[handles[p].fd], handles[p].process)
    {
      assert BoundAt(k, p, fds[handles[p].fd], handles[p].process);
    }
  }

  /** Dropping a handle together with its pidfd; a leader's handle only once its code is known. */
  lemma DropOwns(k: Kernel, handles: map<Pid, Handle>, fds: map<Fd, Serial>, opening: set<Fd>,
                 codes: map<Serial, int>, leaders: map<Serial, Pid>, p: Pid)
    requires Owns(k, handles, fds, opening, codes, leaders) && p in handles
    requires handles[p].process.Some? ==> handles[p].process.value in codes
    ensures Owns(k, handles - {p}, fds - {handles[p].fd}, opening, codes, leaders)
  {
    hide Valid, FdsHeld, Bound, LeadersKept;
    DropFds(handles, fds, opening, p);
    DropBound(k, handles, fds, opening, codes, p);
    DropLeader(k, handles, codes, leaders, p);
  }

  lemma DropFds(handles: map<Pid, Handle>, fds: map<Fd, Serial>, opening: set<Fd>, p: Pid)
    requires FdsHeld(handles, fds, opening) && p in handles
    ensures FdsHeld(handles - {p}, fds - {handles[p].fd}, opening)
  {
    var h, f := handles - {p}, fds - {handles[p].fd};
    forall fd | fd in f ensures fd in opening || exists q :: q in h && h[q].fd == fd {
      if fd !in opening {
        var q :| q in handles && handles[q].fd == fd;
        assert q in h;
      }
    }
  }

  lemma DropBound(k: Kernel, handles: map<Pid, Handle>, fds: map<Fd, Serial>, opening: set<Fd>,
                  codes: map<Serial, int>, p: Pid)
    requires FdsHeld(handles, fds, opening) && Bound(k, handles, fds, codes) && p in handles
    ensures Bound(k, handles - {p}, fds - {handles[p].fd}, codes)
  {
    hide BoundAt;
  }

  lemma DropLeader(k: Kernel, handles: map<Pid, Handle>, codes: map<Serial, int>, leaders: map<Serial, Pid>, p: Pid)
    requires LeadersKept(k, handles, codes, leaders) && p in handles
    requires handles[p].process.Some? ==> handles[p].process.value in codes
    ensures LeadersKept(k, handles - {p}, codes, leaders)
  {
  }

  /** A pidfd just opened, not recorded yet. */
  lemma OpenOwns(k: Kernel, handles: map<Pid, Handle>, fds: map<Fd, Serial>,
                 codes: map<Serial, int>, leaders: map<Serial, Pid>, fd: Fd, serial: Serial)
    requires Owns(k, handles, fds, {}, codes, leaders) && fd !in fds
    ensures Owns(k, handles, fds[fd := serial], {fd}, codes, leaders)
    ensures Owns(k, handles, fds[fd := serial] - {fd}, {}, codes, leaders)
  {
    hide Valid;
    assert fds[fd := serial] - {fd} == fds;
    var f := fds[fd := serial];
    forall d | d in f ensures d in {fd} || exists q :: q in handles && handles[q].fd == d {
    }
  }

  lemma RecordFds(handles: map<Pid, Handle>, fds: map<Fd, Serial>, p: Pid, fd: Fd, process: Option<Serial>)
    requires FdsHeld(handles, fds, {fd}) && p !in handles
    ensures FdsHeld(handles[p := Handle(fd, process)], fds, {})
  {
    var h := handles[p := Handle(fd, process)];
    forall d | d in fds ensures exists q :: q in h && h[q].fd == d {
      if d == fd {
        assert h[p].fd == d;
      } else {
        var q :| q in handles && handles[q].fd == d;
        assert h[q].fd == d;
      }
    }
  }

  lemma RecordLeader(k: Kernel, handles: map<Pid, Handle>, codes: map<Serial, int>,
                     leaders: map<Serial, Pid>, p: Pid, h: Handle)
    requires LeadersKept(k, handles, codes, leaders) && p !in handles && p != k.owner
    requires h.process.Some? ==> h.process.value !in leaders && h.process.value < k.next
    ensures LeadersKept(k, handles[p := h], codes, if h.process.Some? then leaders[h.process.value := p] else leaders)
  {
  }

  /** Recording the opened pidfd of an unreaped child. */
  lemma RecordOwns(k: Kernel, handles: map<Pid, Handle>, fds: map<Fd, Serial>, codes: map<Serial, int>,
                   leaders: map<Serial, Pid>, p: Pid, fd: Fd, process: Option<Serial>)
    requires Owns(k, handles, fds, {fd}, codes, leaders) && p !in handles && fd in fds
    requires IsChild(k, p) && k.tree[p].serial == fds[fd]
    requires process.Some? ==> process.value == fds[fd] && process.value !in leaders && process.value < k.next
    ensures Owns(k, handles[p := Handle(fd, process)], fds, {}, codes,
                 if process.Some? then leaders[process.value := p] else leaders)
  {
    hide Valid, FdsHeld, LeadersKept;
    BasicFacts(k);
    RecordFds(handles, fds, p, fd, process);
    RecordLeader(k, handles, codes, leaders, p, Handle(fd, process));
  }

  /** `process.returncode = ...` when `finish` reaps `pid` and finds a handle for it. */
  function CodesAfterReap(handles: map<Pid, Handle>, codes: map<Serial, int>, pid: Pid, status: int): map<Serial, int> {
    if pid in handles && handles[pid].process.Some? then codes[handles[pid].process.value := status] else codes
  }

  function HandlesAfterReaps(handles: map<Pid, Handle>, reaps: seq<(Pid, int)>): map<Pid, Handle> {
    handles - set r | r in reaps :: r.0
  }

  /** The return codes after a series of reaps, each dropping the handle it finds. */
  function CodesAfterReaps(handles: map<Pid, Handle>, codes: map<Serial, int>, reaps: seq<(Pid, int)>)
    : map<Serial, int>
  {
    if reaps == [] then codes
    else
      var front, last := reaps[..|reaps| - 1], reaps[|reaps| - 1];
      CodesAfterReap(HandlesAfterReaps(handles, front), CodesAfterReaps(handles, codes, front), last.0, last.1)
  }

  /** The status with which `pid` was reaped first. */
  function FirstReap(reaps: seq<(Pid, int)>, pid: Pid): Option<int> {
    if reaps == [] then None
    else
      var front, last := reaps[..|reaps| - 1], reaps[|reaps| - 1];
      if FirstReap(front, pid).Some? then FirstReap(front, pid)
      else if last.0 == pid then Some(last.1) else None
  }

  ghost predicate HeldFor(handles: map<Pid, Handle>, leader: Serial) {
    exists p :: p in handles && handles[p].process == Some(leader)
  }

  /** No handle belongs to a leader whose code is already known. */
  ghost predicate NoStale(handles: map<Pid, Handle>, codes: map<Serial, int>) {
    forall p :: p in handles && handles[p].process.Some? ==> handles[p].process.value !in codes
  }

  /** Every recorded code is the status that leader exited with. */
  ghost predicate Truthful(k: Kernel, codes: map<Serial, int>) {
    forall s :: s in codes ==> s in k.deaths && codes[s] == k.deaths[s]
  }

  /** Handles were only dropped, or added without a process object. */
  ghost predicate FewerLeaders(before: map<Pid, Handle>, after: map<Pid, Handle>) {
    forall p :: p in after && after[p].process.Some? ==> p in before && after[p].process == before[p].process
  }

  /** The codes of leaders without a handle are as they were, and no leader gained a handle. */
  ghost predicate CodesKept(h: map<Pid, Handle>, c: map<Serial, int>, h': map<Pid, Handle>, c': map<Serial, int>) {
    && (forall s :: HeldFor(h', s) ==> HeldFor(h, s))
    && forall s :: s in c ==> s in c' && (!HeldFor(h, s) ==> c'[s] == c[s])
  }

  lemma CodesKeptTrans(h: map<Pid, Handle>, c: map<Serial, int>, h1: map<Pid, Handle>, c1: map<Serial, int>,
                       h2: map<Pid, Handle>, c2: map<Serial, int>)
    requires CodesKept(h, c, h1, c1) && CodesKept(h1, c1, h2, c2)
    ensures CodesKept(h, c, h2, c2)
  {
    hide HeldFor;
  }

  lemma FewerRefl(h: map<Pid, Handle>)
    ensures FewerLeaders(h, h)
  {
  }

  lemma FewerTrans(h: map<Pid, Handle>, h1: map<Pid, Handle>, h2: map<Pid, Handle>)
    requires FewerLeaders(h, h1) && FewerLeaders(h1, h2)
    ensures FewerLeaders(h, h2)
  {
  }

  lemma CodesKeptFewer(h: map<Pid, Handle>, h': map<Pid, Handle>, c: map<Serial, int>)
    requires FewerLeaders(h, h')
    ensures CodesKept(h, c, h', c)
  {
    forall s: Serial | HeldFor(h', s) ensures HeldFor(h, s) {
      var p :| p in h' && h'[p].process == Some(s);
      assert p in h && h[p].process == Some(s);
    }
  }

  lemma CodesKeptReap(h: map<Pid, Handle>, c: map<Serial, int>, pid: Pid, status: int)
    ensures CodesKept(h, c, h - {pid}, CodesAfterReap(h, c, pid, status))
  {
    forall s: Serial | HeldFor(h - {pid}, s) ensures HeldFor(h, s) {
      var p :| p in h - {pid} && (h - {pid})[p].process == Some(s);
      assert p in h && h[p].process == Some(s);
    }
  }

  lemma CodesAfterOne(h: map<Pid, Handle>, c: map<Serial, int>, reaps: seq<(Pid, int)>, pid: Pid, status: int)
    ensures CodesAfterReaps(h, c, reaps + [(pid, status)])
      == CodesAfterReap(HandlesAfterReaps(h, reaps), CodesAfterReaps(h, c, reaps), pid, status)
    ensures HandlesAfterReaps(h, reaps + [(pid, status)]) == HandlesAfterReaps(h, reaps) - {pid}
  {
    assert (reaps + [(pid, status)])[..|reaps|] == reaps;
    assert forall r :: r in reaps + [(pid, status)] <==> r in reaps || r == (pid, status);
    assert (set r | r in reaps + [(pid, status)] :: r.0) == (set r | r in reaps :: r.0) + {pid};
  }

  lemma {:induction false} CodesAfterMore(h: map<Pid, Handle>, c: map<Serial, int>, a: seq<(Pid, int)>,
                                          b: seq<(Pid, int)>)
    ensures HandlesAfterReaps(h, a + b) == HandlesAfterReaps(HandlesAfterReaps(h, a), b)
    ensures CodesAfterReaps(h, c, a + b) == CodesAfterReaps(HandlesAfterReaps(h, a), CodesAfterReaps(h, c, a), b)
  {
    if b == [] {
      assert a + b == a;
      assert (set r | r in b :: r.0) == {};
    } else {
      var front, last := b[..|b| - 1], b[|b| - 1];
      CodesAfterMore(h, c, a, front);
      assert a + b == (a + front) + [last] && b == front + [last];
      CodesAfterOne(h, c, a + front, last.0, last.1);
      CodesAfterOne(HandlesAfterReaps(h, a), CodesAfterReaps(h, c, a), front, last.0, last.1);
    }
  }

  /** A leader's recorded code after a series of reaps: when it had a handle, at `pid`, the status `pid` was
      first reaped with, if it was reaped at all; otherwise it is unchanged. */
  lemma {:induction false} CodeAfterReaps(handles: map<Pid, Handle>, codes: map<Serial, int>, reaps: seq<(Pid, int)>,
                                          pid: Pid, leader: Serial)
    requires leader in codes && forall p :: p in handles && handles[p].process == Some(leader) ==> p == pid
    ensures leader in CodesAfterReaps(handles, codes, reaps)
    ensures CodesAfterReaps(handles, codes, reaps)[leader] ==
      if HeldFor(handles, leader) && FirstReap(reaps, pid).Some? then FirstReap(reaps, pid).value else codes[leader]
    ensures pid in HandlesAfterReaps(handles, reaps) <==> pid in handles && FirstReap(reaps, pid).None?
  {
    if reaps == [] {
      assert HandlesAfterReaps(handles, reaps) == handles by {
        assert (set r | r in reaps :: r.0) == {};
      }
    } else {
      var front, last := reaps[..|reaps| - 1], reaps[|reaps| - 1];
      CodeAfterReaps(handles, codes, front, pid, leader);
      assert reaps == front + [last];
      CodesAfterOne(handles, codes, front, last.0, last.1);
    }
  }

  lemma FewerTruth(k: Kernel, k': Kernel, handles: map<Pid, Handle>, handles': map<Pid, Handle>,
                   codes: map<Serial, int>)
    requires DeathsStay(k, k') && FewerLeaders(handles, handles')
    ensures NoStale(handles, codes) ==> NoStale(handles', codes)
    ensures Truthful(k, codes) ==> Truthful(k', codes)
  {
  }

  /** Without stale handles a reap gives a code only to the leader that exited there. */
  lemma ReapTruth(k: Kernel, handles: map<Pid, Handle>, fds: map<Fd, Serial>, codes: map<Serial, int>,
                  leaders: map<Serial, Pid>, pid: Pid)
    requires Owns(k, handles, fds, {}, codes, leaders) && IsChild(k, pid) && k.tree[pid].exited
    requires NoStale(handles, codes)
    ensures NoStale(handles - {pid}, CodesAfterReap(handles, codes, pid, k.tree[pid].status))
    ensures Truthful(k, codes) ==> Truthful(k, CodesAfterReap(handles, codes, pid, k.tree[pid].status))
  {
    hide FdsHeld, Rooted;
    if pid in handles {
      assert BoundAt(k, pid, fds[handles[pid].fd], handles[pid].process);
    }
  }

  /** `waitid(P_PIDFD, ...)` does not raise: the process behind the pidfd is an unreaped child. */
  predicate Waitable(k: Kernel, serial: Serial) {
    exists p :: p in k.tree && k.tree[p].parent == k.owner && k.tree[p].serial == serial
  }

  predicate NamedAt(k: Kernel, pid: Pid, serial: Serial) {
    (pid in k.tree && k.tree[pid].serial == serial) || (pid in k.foreign && k.foreign[pid] == serial)
  }

  /** A pidfd opened at `pid` that proves waitable names the child at `pid`, whatever happened since. */
  lemma WaitableStaysAt(k: Kernel, k': Kernel, pid: Pid, serial: Serial)
    requires Valid(k) && Valid(k') && ChildrenStay(k, k') && NamedAt(k, pid, serial)
    ensures Waitable(k', serial) <==> IsChild(k', pid) && k'.tree[pid].serial == serial
  {
    if Waitable(k', serial) {
      var p :| p in k'.tree && k'.tree[p].parent == k'.owner && k'.tree[p].serial == serial;
      assert p in k.tree && k.tree[p].serial == serial;
    }
  }

  /** The kernel after the next entry of the schedule. */
  function AfterTurn(k: Kernel, schedule: seq<Turn>): Kernel {
    if schedule == [] then k else Run(k, schedule[0].events)
  }

  /** A signal: its target, whether that was an unreaped child of the owner then, SIGKILL or SIGTERM, when. */
  datatype Signal = Signal(to: Serial, child: bool, kill: bool, at: nat)

  /** `reap_adopted` has nothing left to take: no child has exited, or a leader `Popen` waits for has. */
  ghost predicate NothingToTake(k: Kernel, handles: map<Pid, Handle>, codes: map<Serial, int>) {
    || (forall p :: IsChild(k, p) ==> !k.tree[p].exited)
    || (exists p :: IsChild(k, p) && k.tree[p].exited && p in handles
                    && handles[p].process.Some? && handles[p].process.value !in codes)
  }

  /** Children are left and none of them has exited. */
  ghost predicate OnlyLive(k: Kernel) {
    && (exists p :: IsChild(k, p))
    && forall p :: IsChild(k, p) ==> !k.tree[p].exited
  }

  /** Every handle still awaited has been signalled. */
  ghost predicate AllSignalled(handles: map<Pid, Handle>, fds: map<Fd, Serial>, codes: map<Serial, int>,
                               signals: seq<Signal>)
  {
    forall p :: p in handles && (handles[p].process.None? || handles[p].process.value !in codes) ==>
      handles[p].fd in fds && SignalledAt(signals, fds[handles[p].fd])
  }

  ghost predicate SignalledAt(signals: seq<Signal>, to: Serial) {
    exists i :: 0 <= i < |signals| && signals[i].to == to
  }

  /** Every listed child has a handle, and none that belongs to a leader whose code is known already. */
  ghost predicate AllBound(pids: seq<Pid>, handles: map<Pid, Handle>, codes: map<Serial, int>) {
    forall p :: p in pids ==> p in handles && Awaited(handles[p], codes)
  }

  lemma NoneBound(handles: map<Pid, Handle>, codes: map<Serial, int>)
    ensures AllBound([], handles, codes)
  {
  }

  lemma BoundMore(pids: seq<Pid>, i: nat, h: map<Pid, Handle>, h': map<Pid, Handle>, codes: map<Serial, int>)
    requires i < |pids| && AllBound(pids[..i], h, codes) && pids[i] in h' && Awaited(h'[pids[i]], codes)
    requires h' == h || h' - {pids[i]} == h - {pids[i]}
    ensures AllBound(pids[..i + 1], h', codes)
  {
    forall p | p in pids[..i + 1] ensures p in h' && Awaited(h'[p], codes) {
      if p != pids[i] {
        assert p in pids[..i];
        assert p in h - {pids[i]} && (h' - {pids[i]})[p] == h'[p] && (h - {pids[i]})[p] == h[p];
      }
    }
  }

  /** One turn of `finish`, as it happened: the child table it would read, whether the scope was intact, who was left
      after draining, whether it was to stop them, how it ended, the handles then, and the signals it sent. */
  datatype Round = Round(
    table: ChildTable, intact: bool, left: Kernel, stopping: bool, settled: bool, failed: bool,
    handles: map<Pid, Handle>, fds: map<Fd, Serial>, codes: map<Serial, int>, signals: seq<Signal>)

  /** A turn fails when the scope is lost, or while stopping, when the table cannot be read or lists a pid that is no
      child. It settles when nobody is left. Otherwise only live children are left, and if they are to be stopped
      then every listed one is bound and every one bound has been signalled. */
  ghost predicate RoundOk(r: Round) {
    if !r.intact then r.failed && !r.settled && r.signals == []
    else if r.settled then !r.failed && r.left.tree == map[] && r.signals == []
    else
      && OnlyLive(r.left)
      && if !r.stopping then !r.failed && r.signals == []
         else if r.failed then r.table.Unreadable? || exists p :: p in r.table.pids && !IsChild(r.left, p)
         else && r.table.Pids? && AllBound(r.table.pids, r.handles, r.codes)
              && AllSignalled(r.handles, r.fds, r.codes, r.signals)
  }

  /** These handles and pidfds are the ones the turn left. */
  ghost predicate KeptBy(r: Round, handles: map<Pid, Handle>, fds: map<Fd, Serial>) {
    r.handles == handles && r.fds == fds
  }

  lemma NoRound(intact: bool)
    ensures LostTruly([], intact)
  {
  }

  lemma LastRound(rounds: seq<Round>, r: Round, handles: map<Pid, Handle>, fds: map<Fd, Serial>, intact: bool)
    requires KeptBy(r, handles, fds) && (!r.intact ==> !intact)
    ensures var more := rounds + [r];
      more[|more| - 1] == r && KeptBy(more[|more| - 1], handles, fds) && LostTruly(more, intact)
  {
  }

  lemma RoundMade(r: Round)
    requires !r.intact ==> r.failed && !r.settled && r.signals == []
    requires r.intact && r.settled ==> !r.failed && r.left.tree == map[] && r.signals == []
    requires r.intact && !r.settled ==> OnlyLive(r.left)
    requires r.intact && !r.settled && !r.stopping ==> !r.failed && r.signals == []
    requires r.intact && !r.settled && r.stopping && r.failed ==>
      r.table.Unreadable? || exists p :: p in r.table.pids && !IsChild(r.left, p)
    requires r.intact && !r.settled && r.stopping && !r.failed ==>
      && r.table.Pids? && AllBound(r.table.pids, r.handles, r.codes)
      && AllSignalled(r.handles, r.fds, r.codes, r.signals)
    ensures RoundOk(r)
  {
    hide OnlyLive, AllBound, AllSignalled;
  }

  lemma RoundSignals(r: Round)
    requires RoundOk(r)
    ensures (r.signals != [] ==> r.stopping) && (!r.intact ==> r.failed)
  {
    hide OnlyLive, AllBound, AllSignalled;
  }

  function TableAt(tables: seq<ChildTable>, turn: nat): ChildTable {
    if turn < |tables| then tables[turn] else Pids([])
  }

  /** The last turn settled. */
  ghost predicate SettledBy(rounds: seq<Round>) {
    rounds != [] && rounds[|rounds| - 1].settled
  }

  /** When the last turn found the scope lost, it is. */
  ghost predicate LostTruly(rounds: seq<Round>, intact: bool) {
    rounds != [] && !rounds[|rounds| - 1].intact ==> !intact
  }

  ghost function Signals(rounds: seq<Round>): seq<Signal> {
    if rounds == [] then [] else Signals(rounds[..|rounds| - 1]) + rounds[|rounds| - 1].signals
  }

  /** The loop, turn by turn: all but the last neither settle nor fail, the last one decides, and what was sent is what
      the turns sent. Once stopping, every turn stops. */
  ghost predicate Account(rounds: seq<Round>, tables: seq<ChildTable>, sent0: seq<Signal>, sent: seq<Signal>,
                          stop: bool, failed0: bool, failed: bool, settled: bool)
  {
    && (forall i :: 0 <= i < |rounds| ==> RoundOk(rounds[i]) && rounds[i].table == TableAt(tables, i))
    && (forall i :: 0 <= i < |rounds| - 1 ==> !rounds[i].settled && !rounds[i].failed)
    && (stop ==> forall i :: 0 <= i < |rounds| ==> rounds[i].stopping)
    && sent == sent0 + Signals(rounds)
    && (settled <==> SettledBy(rounds))
    && (failed <==> failed0 || (rounds != [] && rounds[|rounds| - 1].failed))
  }

  lemma AccountNone(tables: seq<ChildTable>, sent: seq<Signal>, stop: bool, failed: bool)
    ensures Account([], tables, sent, sent, stop, failed, failed, false)
  {
  }

  lemma AccountSettled(rounds: seq<Round>, tables: seq<ChildTable>, sent0: seq<Signal>, sent: seq<Signal>, stop: bool,
                       failed0: bool, failed: bool, settled: bool)
    requires Account(rounds, tables, sent0, sent, stop, failed0, failed, settled) && (settled ==> !failed)
    ensures settled <==> SettledBy(rounds)
    ensures Account(rounds, tables, sent0, sent, stop, failed0, failed, SettledBy(rounds))
    ensures failed0 ==> !SettledBy(rounds)
  {
  }

  lemma AccountAnyway(rounds: seq<Round>, tables: seq<ChildTable>, sent0: seq<Signal>, sent: seq<Signal>, stop: bool,
                      failed0: bool, failed: bool, settled: bool, less: bool)
    requires Account(rounds, tables, sent0, sent, stop, failed0, failed, settled) && (less ==> stop)
    ensures Account(rounds, tables, sent0, sent, less, failed0, failed, settled)
  {
    hide RoundOk;
  }

  lemma AccountMore(rounds: seq<Round>, tables: seq<ChildTable>, sent0: seq<Signal>, before: seq<Signal>,
                    sent: seq<Signal>, stop: bool, failed0: bool, r: Round)
    requires Account(rounds, tables, sent0, before, stop, failed0, false, false)
    requires RoundOk(r) && r.table == TableAt(tables, |rounds|) && sent == before + r.signals && (stop ==> r.stopping)
    ensures Account(rounds + [r], tables, sent0, sent, stop, failed0, r.failed, r.settled)
  {
    hide RoundOk;
    assert (rounds + [r])[..|rounds|] == rounds;
  }

  /** SIGKILL exactly once the grace period is over. */
  ghost predicate Graceful(signals: seq<Signal>, from: nat, killFrom: nat) {
    forall i :: from <= i < |signals| ==> (signals[i].kill <==> signals[i].at >= killFrom)
  }

  /** The codes and handles are those after the reaps. */
  ghost predicate Folded(h0: map<Pid, Handle>, c0: map<Serial, int>, reaps: seq<(Pid, int)>,
                         h: map<Pid, Handle>, c: map<Serial, int>)
  {
    h == HandlesAfterReaps(h0, reaps) && c == CodesAfterReaps(h0, c0, reaps)
  }

  /** Every child that had exited was reaped, before any other process at its pid, with its status. */
  ghost predicate AllReaped(k: Kernel, reaps: seq<(Pid, int)>) {
    forall p :: IsChild(k, p) && k.tree[p].exited ==> FirstReap(reaps, p) == Some(k.tree[p].status)
  }

  /** Every child that had exited in `first` was reaped or is still there. */
  ghost predicate Owed(first: Kernel, k: Kernel, reaps: seq<(Pid, int)>) {
    forall p :: IsChild(first, p) && first.tree[p].exited ==>
      (FirstReap(reaps, p) == Some(first.tree[p].status)
       || (FirstReap(reaps, p).None? && p in k.tree && k.tree[p] == first.tree[p]))
  }

  /** Nobody cancels: not so far, and not in the turns to come. */
  ghost predicate Calm(cancelled: bool, schedule: seq<Turn>) {
    !cancelled && forall i :: 0 <= i < |schedule| ==> !schedule[i].cancel
  }

  /** A recorded code is safe at the pid of its leader's handle: the child that has exited there reports the same
      status, or nobody is there and nobody is left to start anything. */
  ghost predicate SafeAt(k: Kernel, p: Pid, code: int) {
    if IsChild(k, p) && k.tree[p].exited then k.tree[p].status == code else AllExited(k)
  }

  /** This code is recorded for the leader and safe. */
  ghost predicate Fixed(k: Kernel, h: map<Pid, Handle>, c: map<Serial, int>, leader: Serial, code: int) {
    && leader in c && c[leader] == code
    && forall p :: p in h && h[p].process == Some(leader) ==> SafeAt(k, p, code)
  }

  /** What finishing upholds. When no handle was stale none has become so, and true codes are still true; a safe
      code is still recorded and safe; without descendants there are none later. */
  ghost predicate Upheld(k0: Kernel, h0: map<Pid, Handle>, c0: map<Serial, int>,
                         k: Kernel, h: map<Pid, Handle>, c: map<Serial, int>)
  {
    && (NoStale(h0, c0) ==> NoStale(h, c) && (Truthful(k0, c0) ==> Truthful(k, c)))
    && (forall leader, code :: Fixed(k0, h0, c0, leader, code) ==> Fixed(k, h, c, leader, code))
    && (k0.tree == map[] ==> k.tree == map[])
  }

  /** What binding and signalling children may have done: nothing is reaped and no leader gains a handle. */
  ghost predicate Tracked(k0: Kernel, h0: map<Pid, Handle>, k: Kernel, h: map<Pid, Handle>) {
    ChildrenStay(k0, k) && FewerLeaders(h0, h)
  }

  /** Where the draining loop stands: what was reaped since it began, and what that did. */
  ghost predicate Drained(k0: Kernel, h0: map<Pid, Handle>, c0: map<Serial, int>, first: Kernel, reaps: seq<(Pid, int)>,
                          k: Kernel, h: map<Pid, Handle>, c: map<Serial, int>)
  {
    && DeathsStay(k0, k) && Folded(h0, c0, reaps, h, c) && Owed(first, k, reaps) && Upheld(k0, h0, c0, k, h, c)
    && first.owner == k.owner
  }

  /** What serving adopted children may have done so far. */
  ghost predicate Served(k0: Kernel, h0: map<Pid, Handle>, k: Kernel, h: map<Pid, Handle>) {
    DeathsStay(k0, k) && FewerLeaders(h0, h)
  }

  /** What some turns of `finish` did to codes and handles; without stopping, just what the reaps did. */
  ghost predicate Progress(k0: Kernel, h0: map<Pid, Handle>, c0: map<Serial, int>, reaps: seq<(Pid, int)>,
                           stopping: bool, k: Kernel, h: map<Pid, Handle>, c: map<Serial, int>)
  {
    && DeathsStay(k0, k) && CodesKept(h0, c0, h, c) && Upheld(k0, h0, c0, k, h, c)
    && (!stopping ==> Folded(h0, c0, reaps, h, c)) && (reaps == [] ==> c == c0)
  }

  /** The machine the scope is created on. */
  datatype World = World(owner: Pid, foreign: map<Pid, Serial>, next: Serial, turns: seq<Turn>)

  ghost predicate WorldOk(w: World) {
    w.owner !in w.foreign && forall p :: p in w.foreign ==> w.foreign[p] < w.next
  }

  /** The leader started at `pid` has exited, with this status. */
  ghost predicate ExitedAt(leaders: map<Serial, Pid>, k: Kernel, leader: Serial, pid: Pid, status: int) {
    leader in leaders && leaders[leader] == pid && leader in k.deaths && k.deaths[leader] == status
  }

  ghost predicate MoreLeaders(before: map<Serial, Pid>, after: map<Serial, Pid>) {
    forall s :: s in before ==> s in after && after[s] == before[s]
  }

  /** `finish` may write another process's status over this leader's: its handle is still there, and at its pid a
      child has exited with another status, or any process may yet turn up there because a child is alive. */
  ghost predicate Overwritable(k: Kernel, failed: bool, h: map<Pid, Handle>, c: map<Serial, int>, leader: Serial) {
    && k.intact && !failed && leader in c
    && exists p :: p in h && h[p].process == Some(leader) && Threatened(k, p, c[leader])
  }

  /** Every code that cannot be overwritten is as it was. */
  ghost predicate Spared(k0: Kernel, failed0: bool, h0: map<Pid, Handle>, c0: map<Serial, int>, c: map<Serial, int>) {
    forall leader :: leader in c0 && !Overwritable(k0, failed0, h0, c0, leader) ==>
      leader in c && c[leader] == c0[leader]
  }

  ghost predicate Threatened(k: Kernel, p: Pid, code: int) {
    if IsChild(k, p) && k.tree[p].exited then k.tree[p].status != code
    else exists q :: IsChild(k, q) && !k.tree[q].exited
  }

  ghost predicate ThreatenedBy(k: Kernel, p: Pid, c: Pid, code: int) {
    if IsChild(k, p) && k.tree[p].exited then k.tree[p].status != code else IsChild(k, c) && !k.tree[c].exited
  }

  class ClippyTree {
    var k: Kernel
    var handles: map<Pid, Handle>
    var fds: map<Fd, Serial>
    var codes: map<Serial, int>
    var reaped: seq<(Pid, int)>
    var failed: bool
    var cancelled: bool
    var stopping: bool
    var now: nat
    var schedule: seq<Turn>
    ghost var opening: set<Fd>
    ghost var leaders: map<Serial, Pid>
    ghost var sent: seq<Signal>

    ghost predicate Inv()
      reads this
    {
      && Owns(k, handles, fds, opening, codes, leaders)
      && forall i :: 0 <= i < |sent| ==> sent[i].child
    }

    /** The scope starts with no children and no handles. */
    constructor (owner: Pid, foreign: map<Pid, Serial>, next: Serial, turns: seq<Turn>)
      requires owner !in foreign && forall p :: p in foreign ==> foreign[p] < next
      ensures Inv() && opening == {} && k.tree == map[] && handles == map[] && schedule == turns
      ensures !failed && !cancelled && !stopping && sent == [] && leaders == map[] && codes == map[] && reaped == []
      ensures k == Kernel.Kernel(owner, map[], foreign, next, true, map[])
    {
      k := Kernel.Kernel(owner, map[], foreign, next, true, map[]);
      handles, fds, codes, reaped := map[], map[], map[], [];
      failed, cancelled, stopping, now, schedule := false, false, false, 0, turns;
      opening, leaders, sent := {}, map[], [];
    }

    /** Between two system calls: whatever the schedule says the rest of the system does. */
    method Interfere()
      requires Inv()
      modifies this`k, this`schedule, this`now, this`cancelled
      ensures Inv() && ChildrenStay(old(k), k) && (old(cancelled) ==> cancelled)
      ensures k == AfterTurn(old(k), old(schedule))
      ensures schedule == if old(schedule) == [] then [] else old(schedule)[1..]
      ensures cancelled == (old(cancelled) || (old(schedule) != [] && old(schedule)[0].cancel))
      ensures now == old(now) + if old(schedule) == [] then 0 else old(schedule)[0].delay
      ensures Calm(old(cancelled), old(schedule)) ==> Calm(cancelled, schedule)
    {
      hide Owns, ChildrenStay, Valid, Run;
      StaysRefl(k);
      if schedule != [] {
        OwnsValid(k, handles, fds, opening, codes, leaders);
        RunOk(k, schedule[0].events);
        StillOwns(k, Run(k, schedule[0].events), handles, fds, opening, codes, leaders);
        k := Run(k, schedule[0].events);
        now := now + schedule[0].delay;
        cancelled := cancelled || schedule[0].cancel;
        schedule := schedule[1..];
      }
    }

    /** `track(pid, process)`. It fails, with nothing left open, when the pid is gone or does not name
        a child; for a leader just started it never fails and never mistakes it for an older handle. */
    method Track(pid: Pid, process: Option<Serial>) returns (ok: bool)
      requires Inv() && opening == {}
      requires process.Some? ==> IsChild(k, pid) && k.tree[pid].serial == process.value && process.value < k.next
      requires process.Some? ==> process.value !in leaders && (pid in handles ==> !Awaited(handles[pid], codes))
      modifies this`k, this`schedule, this`now, this`cancelled, this`handles, this`fds, this`opening, this`leaders
      ensures Inv() && opening == {} && ChildrenStay(old(k), k) && |schedule| <= |old(schedule)| && now >= old(now)
      ensures (ok <==> pid in handles) && (IsChild(old(k), pid) ==> ok)
      ensures old(cancelled) ==> cancelled
      ensures process.Some? ==> handles[pid].process == process && leaders == old(leaders)[process.value := pid]
      ensures process.None? ==> leaders == old(leaders) && FewerLeaders(old(handles), handles)
      // a stale handle never hides the child now at its pid
      ensures ok ==> Awaited(handles[pid], codes)
      ensures if pid in old(handles) && Awaited(old(handles)[pid], codes) then handles == old(handles)
              else handles - {pid} == old(handles) - {pid}
      ensures old(schedule) == [] ==> schedule == [] && k == old(k) && cancelled == old(cancelled)
      ensures Calm(old(cancelled), old(schedule)) ==> Calm(cancelled, schedule)
    {
      hide Owns, ChildrenStay, Valid, Waitable;
      if process.Some? { CodesOfLeaders(k, handles, fds, opening, codes, leaders, process.value); }
      if pid in handles {
        var h := handles[pid];
        if Awaited(h, codes) {
          StaysRefl(k);
          return true;
        }
        DropOwns(k, handles, fds, opening, codes, leaders, pid);
        handles := handles - {pid};
        fds := fds - {h.fd};
      }
      ok := Bind(pid, process);
    }

    /** The second half of `track`: open a pidfd and keep it only if it proves to name a child. */
    method Bind(pid: Pid, process: Option<Serial>) returns (ok: bool)
      requires Inv() && opening == {} && pid !in handles
      requires process.Some? ==> IsChild(k, pid) && k.tree[pid].serial == process.value && process.value < k.next
      requires process.Some? ==> process.value !in leaders
      modifies this`k, this`schedule, this`now, this`cancelled, this`handles, this`fds, this`opening, this`leaders
      ensures Inv() && opening == {} && ChildrenStay(old(k), k) && |schedule| <= |old(schedule)| && now >= old(now)
      ensures (ok <==> pid in handles) && (IsChild(old(k), pid) ==> ok)
      ensures old(cancelled) ==> cancelled
      ensures process.Some? ==> leaders == old(leaders)[process.value := pid]
      ensures process.None? ==> leaders == old(leaders)
      ensures if ok then handles[pid].process == process && handles == old(handles)[pid := handles[pid]]
              else handles == old(handles)
      ensures old(schedule) == [] ==> schedule == [] && k == old(k) && cancelled == old(cancelled)
      ensures Calm(old(cancelled), old(schedule)) ==> Calm(cancelled, schedule)
    {
      hide Owns, ChildrenStay, Valid, AfterTurn;
      ghost var k0 := k;
      Interfere();
      ChildStays(k0, k, pid);
      AfterNoTurn(k0);
      OwnsValid(k, handles, fds, opening, codes, leaders);
      if pid !in k.tree && pid !in k.foreign {
        return false;
      }
      var serial := if pid in k.tree then k.tree[pid].serial else k.foreign[pid];
      var fd := LowestUnused(fds.Keys, 0);
      OpenOwns(k, handles, fds, codes, leaders, fd, serial);
      fds, opening := fds[fd := serial], {fd};
      ghost var k1 := k;
      ok := Confirm(pid, process, fd);
      StaysTrans(k0, k1, k);
    }

    /** `waitid(P_PIDFD, fd)`, then record the pidfd just opened, or close it. */
    method Confirm(pid: Pid, process: Option<Serial>, fd: Fd) returns (ok: bool)
      requires Inv() && opening == {fd} && fd in fds && NamedAt(k, pid, fds[fd]) && pid !in handles
      requires process.Some? ==> IsChild(k, pid) && k.tree[pid].serial == process.value && process.value < k.next
      requires process.Some? ==> process.value !in leaders
      modifies this`k, this`schedule, this`now, this`cancelled, this`handles, this`fds, this`opening, this`leaders
      ensures Inv() && opening == {} && ChildrenStay(old(k), k) && |schedule| <= |old(schedule)| && now >= old(now)
      ensures (ok <==> pid in handles) && (IsChild(old(k), pid) ==> ok)
      ensures old(cancelled) ==> cancelled
      ensures process.Some? ==> leaders == old(leaders)[process.value := pid]
      ensures process.None? ==> leaders == old(leaders)
      ensures if ok then handles[pid].process == process && handles == old(handles)[pid := handles[pid]]
              else handles == old(handles)
      ensures old(schedule) == [] ==> schedule == [] && k == old(k) && cancelled == old(cancelled)
      ensures Calm(old(cancelled), old(schedule)) ==> Calm(cancelled, schedule)
    {
      hide Owns, ChildrenStay, Valid, Waitable, AfterTurn;
      ghost var k1 := k;
      OwnsValid(k, handles, fds, opening, codes, leaders);
      SerialAt(k, pid, fds[fd]);
      Interfere();
      AfterNoTurn(k1);
      ChildStays(k1, k, pid);
      OwnsValid(k, handles, fds, opening, codes, leaders);
      WaitableStaysAt(k1, k, pid, fds[fd]);
      if Waitable(k, fds[fd]) {
        RecordOwns(k, handles, fds, codes, leaders, pid, fd, process);
        handles := handles[pid := Handle(fd, process)];
        opening := {};
        if process.Some? { leaders := leaders[process.value := pid]; }
        ok := true;
      } else {
        CloseOpening(k, handles, fds, fd, codes, leaders);
        fds, opening := fds - {fd}, {};
        ok := false;
      }
    }

    /** `Popen` followed by `track`: the new leader is a child and its handle is recorded. */
    method Launch(pid: Pid) returns (leader: Serial)
      requires Inv() && opening == {} && Free(k, pid)
      modifies this`k, this`schedule, this`now, this`cancelled, this`handles, this`fds, this`opening, this`leaders
      ensures Inv() && opening == {} && leader == old(k.next) && leaders == old(leaders)[leader := pid]
      ensures pid in handles && handles[pid].process == Some(leader) && leader !in codes
      ensures old(cancelled) ==> cancelled
      ensures DeathsStay(old(k), k) && |schedule| <= |old(schedule)|
      ensures Calm(old(cancelled), old(schedule)) ==> Calm(cancelled, schedule)
      ensures old(schedule) == [] ==>
        schedule == [] && cancelled == old(cancelled) && k == AddChild(old(k), pid, old(k).owner)
    {
      hide Owns, ChildrenStay, Valid;
      leader := k.next;
      LaunchOwns(k, handles, fds, codes, leaders, pid);
      k := AddChild(k, pid, k.owner);
      ghost var k1 := k;
      var ok := Track(pid, Some(leader));
      StaysDeaths(k1, k);
    }

    /** `Popen.wait(timeout=...)`: collect the leader's status if it has exited. */
    method WaitLeader(pid: Pid, leader: Serial) returns (code: Option<int>)
      requires Inv() && opening == {} && leader in leaders && leaders[leader] == pid && leader !in codes
      modifies this`k, this`schedule, this`now, this`cancelled, this`codes
      ensures Inv() && opening == {}
      ensures code.Some? <==> leader in codes
      ensures code.Some? ==> codes == old(codes)[leader := code.value]
      ensures code.None? ==> codes == old(codes)
      ensures var k1 := AfterTurn(old(k), old(schedule));
        pid in k1.tree && code == (if k1.tree[pid].exited then Some(k1.tree[pid].status) else None)
        && k == (if code.Some? then Remove(k1, pid) else k1)
      ensures code.Some? ==> leader in k.deaths && k.deaths[leader] == code.value
      ensures schedule == if old(schedule) == [] then [] else old(schedule)[1..]
      ensures Calm(old(cancelled), old(schedule)) ==> Calm(cancelled, schedule)
      ensures DeathsStay(old(k), k)
      ensures old(cancelled) ==> cancelled
    {
      hide Owns, ChildrenStay, Valid;
      ghost var k0 := k;
      Interfere();
      StaysDeaths(k0, k);
      LeaderIsChild(k, handles, fds, codes, leaders, leader);
      OwnsValid(k, handles, fds, opening, codes, leaders);
      if !k.tree[pid].exited {
        return None;
      }
      ChildDeath(k, pid);
      var status := k.tree[pid].status;
      CodeOwns(k, handles, fds, codes, leaders, leader, status);
      codes := codes[leader := status];
      ReapOwns(k, handles, fds, codes, leaders, pid);
      k := Remove(k, pid);
      code := Some(status);
    }

    /** `reap_adopted()`: drain exited children until a leader that `Popen` still owes a status is in
        front. No status of such a leader is consumed. */
    method ReapAdopted() returns (ok: bool)
      requires Inv() && opening == {}
      modifies this`k, this`schedule, this`now, this`cancelled, this`handles, this`fds, this`reaped
      ensures Inv() && opening == {} && codes == old(codes) && leaders == old(leaders)
      ensures forall s :: s in leaders && s !in codes ==> IsChild(k, leaders[s]) && k.tree[leaders[s]].serial == s
      ensures ok == old(k.intact) && old(reaped) <= reaped && (!ok ==> k == old(k) && reaped == old(reaped))
      ensures !ok ==> handles == old(handles)
      ensures ok ==> |reaped| == |old(reaped)| + 128 || NothingToTake(k, handles, codes)
      ensures DeathsStay(old(k), k) && FewerLeaders(old(handles), handles)
      ensures old(cancelled) ==> cancelled
      ensures old(schedule) == [] ==> schedule == []
    {
      hide Owns, ChildrenStay, Valid, AfterTurn, Served, NothingToTake;
      ServedRefl(k, handles);
      ghost var k0, h0 := k, handles;
      ok := k.intact;
      var turn, more := 0, true;
      while ok && turn < 128 && more
        invariant Inv() && opening == {} && codes == old(codes) && leaders == old(leaders)
        invariant old(cancelled) ==> cancelled
        invariant turn <= 128 && old(reaped) <= reaped && |reaped| == |old(reaped)| + turn
        invariant !ok ==> k == old(k) && reaped == old(reaped) && handles == old(handles)
        invariant Served(k0, h0, k, handles)
        invariant old(schedule) == [] ==> schedule == []
        invariant !more ==> NothingToTake(k, handles, codes)
        decreases 128 - turn, more
      {
        ghost var k1 := k;
        Interfere();
        ServedTurn(k0, h0, k1, k, handles);
        var exited := set p | p in k.tree && k.tree[p].parent == k.owner && k.tree[p].exited;
        if exited == {} {
          NoneExited(k, handles, codes, exited);
          more := false;
        } else {
          var pid :| pid in exited;
          if pid in handles && handles[pid].process.Some? && handles[pid].process.value !in codes {
            LeaderInFront(k, handles, codes, pid);
            more := false;
          } else {
            TakeNext(pid, k0, h0);
            turn := turn + 1;
          }
        }
      }
      ServedMeans(k0, h0, k, handles);
      AwaitedLeaders(k, handles, fds, codes, leaders);
    }

    /** The wait for the exited child `waitid` has shown; it stays there for it. */
    method TakeNext(pid: Pid, ghost k0: Kernel, ghost h0: map<Pid, Handle>)
      requires Inv() && opening == {} && IsChild(k, pid) && k.tree[pid].exited && Served(k0, h0, k, handles)
      requires pid in handles ==> !(handles[pid].process.Some? && handles[pid].process.value !in codes)
      modifies this`k, this`schedule, this`now, this`cancelled, this`handles, this`fds, this`reaped
      ensures Inv() && Served(k0, h0, k, handles) && (old(cancelled) ==> cancelled)
      ensures old(schedule) == [] ==> schedule == []
      ensures reaped == old(reaped) + [(pid, old(k.tree[pid].status))]
    {
      hide Owns, ChildrenStay, Valid, AfterTurn, Served;
      ghost var k1 := k;
      Interfere();
      ServedTurn(k0, h0, k1, k, handles);
      ExitedStays(k1, k, pid);
      ServedTake(k0, h0, k, handles, pid);
      TakeAdopted(pid);
    }

    /** `waitpid(event.si_pid)` of an exited child nobody awaits: drop its handle, record its status. */
    method TakeAdopted(pid: Pid)
      requires Inv() && opening == {} && IsChild(k, pid) && k.tree[pid].exited
      requires pid in handles ==> !(handles[pid].process.Some? && handles[pid].process.value !in codes)
      modifies this`k, this`handles, this`fds, this`reaped
      ensures Inv() && k == Remove(old(k), pid) && handles == old(handles) - {pid}
      ensures reaped == old(reaped) + [(pid, old(k.tree[pid].status))]
    {
      hide Owns, ChildrenStay, Valid;
      reaped := reaped + [(pid, k.tree[pid].status)];
      if pid in handles {
        DropOwns(k, handles, fds, opening, codes, leaders, pid);
        fds := fds - {handles[pid].fd};
        handles := handles - {pid};
      }
      ReapOwns(k, handles, fds, codes, leaders, pid);
      k := Remove(k, pid);
    }

    /** The inner loop of `finish`: reap until nothing has exited. `settled` means the kernel answered
        ECHILD, and then no descendant is left at all. Whoever had exited by then is reaped, and the codes and
        handles are exactly those after the reaps. */
    method Drain() returns (settled: bool)
      requires Inv() && opening == {}
      modifies this`k, this`schedule, this`now, this`cancelled, this`handles, this`fds, this`reaped, this`codes
      ensures Inv() && opening == {} && now >= old(now)
      ensures if settled then k.tree == map[] else OnlyLive(k)
      ensures old(schedule) == [] && AllExited(old(k)) ==> settled
      ensures old(cancelled) ==> cancelled
      ensures DeathsStay(old(k), k) && old(reaped) <= reaped
      ensures Folded(old(handles), old(codes), reaped[|old(reaped)|..], handles, codes)
      ensures AllReaped(AfterTurn(old(k), old(schedule)), reaped[|old(reaped)|..])
      ensures Upheld(old(k), old(handles), old(codes), k, handles, codes)
      ensures Calm(old(cancelled), old(schedule)) ==> Calm(cancelled, schedule)
    {
      hide Calm;
      hide Owns, ChildrenStay, Valid, AfterTurn, OnlyLive, AllExited, Drained, Folded, Upheld, AllReaped, DeathsStay;
      ghost var n, quiet := |reaped|, schedule == [] && AllExited(k);
      ghost var k0, h0, c0 := k, handles, codes;
      Interfere();
      ghost var first := k;
      AfterNoTurn(k0);
      DrainedStart(k0, first, handles, codes, reaped);
      while true
        invariant Inv() && opening == {} && now >= old(now)
        invariant old(cancelled) ==> cancelled
        invariant quiet ==> schedule == [] && AllExited(k)
        invariant Calm(old(cancelled), old(schedule)) ==> Calm(cancelled, schedule)
        invariant n <= |reaped| && old(reaped) <= reaped && Drained(k0, h0, c0, first, reaped[n..], k, handles, codes)
        decreases |schedule|, |k.tree|
      {
        var children := set p | p in k.tree && k.tree[p].parent == k.owner;
        if children == {} {
          OwnsValid(k, handles, fds, opening, codes, leaders);
          assert forall p :: IsChild(k, p) ==> p in children;
          NoChildrenNoDescendants(k);
          DrainedEnd(k0, h0, c0, first, reaped[n..], k, handles, codes);
          return true;
        }
        var exited := set p | p in children && k.tree[p].exited;
        if exited == {} {
          StillLive(k, children, exited);
          DrainedEnd(k0, h0, c0, first, reaped[n..], k, handles, codes);
          QuietLive(k);
          return false;
        }
        var pid :| pid in exited;
        ReapNext(pid, k0, h0, c0, first, n);
      }
    }

    /** One turn of the inner loop: reap `pid`; then the next system call. */
    method ReapNext(pid: Pid, ghost k0: Kernel, ghost h0: map<Pid, Handle>, ghost c0: map<Serial, int>,
                    ghost first: Kernel, ghost n: nat)
      requires Inv() && opening == {} && IsChild(k, pid) && k.tree[pid].exited && n <= |reaped|
      requires Drained(k0, h0, c0, first, reaped[n..], k, handles, codes)
      modifies this`k, this`schedule, this`now, this`cancelled, this`handles, this`fds, this`reaped, this`codes
      ensures Inv() && now >= old(now) && (old(cancelled) ==> cancelled)
      ensures old(reaped) <= reaped && Drained(k0, h0, c0, first, reaped[n..], k, handles, codes)
      ensures |schedule| < |old(schedule)| || (schedule == old(schedule) && |k.tree| < |old(k.tree)|)
      ensures old(schedule) == [] && AllExited(old(k)) ==> schedule == [] && AllExited(k)
      ensures Calm(old(cancelled), old(schedule)) ==> Calm(cancelled, schedule)
    {
      hide Owns, ChildrenStay, Valid, AfterTurn, AllExited, Drained, CodesAfterReap, Calm;
      ghost var k1, r1 := k, reaped;
      DrainedReap(k0, h0, c0, first, reaped[n..], k, handles, fds, codes, leaders, pid);
      QuietRemove(k, pid);
      ReapOne(pid);
      assert reaped[n..] == r1[n..] + [(pid, k1.tree[pid].status)];
      ghost var k2 := k;
      Interfere();
      AfterNoTurn(k2);
      DrainedTurn(k0, h0, c0, first, reaped[n..], k2, k, handles, codes);
    }

    /** `waitpid(-1)` returned `pid`: drop its handle and give a tracked process object its code. */
    method ReapOne(pid: Pid)
      requires Inv() && opening == {} && IsChild(k, pid) && k.tree[pid].exited
      modifies this`k, this`handles, this`fds, this`reaped, this`codes
      ensures Inv() && |k.tree| < |old(k.tree)| && k == Remove(old(k), pid)
      ensures reaped == old(reaped) + [(pid, old(k.tree[pid].status))]
      ensures codes == CodesAfterReap(old(handles), old(codes), pid, old(k.tree[pid].status))
      ensures handles == old(handles) - {pid}
    {
      hide Owns, ChildrenStay, Valid;
      var status := k.tree[pid].status;
      reaped := reaped + [(pid, status)];
      if pid in handles {
        var h := handles[pid];
        if h.process.Some? {
          HandleLeader(k, handles, fds, codes, leaders, pid);
          CodeOwns(k, handles, fds, codes, leaders, h.process.value, status);
          codes := codes[h.process.value := status];
        }
        DropOwns(k, handles, fds, opening, codes, leaders, pid);
        handles := handles - {pid};
        fds := fds - {h.fd};
      }
      ReapOwns(k, handles, fds, codes, leaders, pid);
      RemoveShrinks(k, pid);
      k := Remove(k, pid);
    }

    /** The stopping part of one turn of `finish`: bind the listed children, then signal every bound
        child through its pidfd. False when something raised. */
    method StopChildren(table: ChildTable, killFrom: nat) returns (ok: bool)
      requires Inv() && opening == {}
      modifies this`k, this`schedule, this`now, this`cancelled, this`handles, this`fds, this`opening,
               this`leaders, this`sent
      ensures Inv() && opening == {} && now >= old(now) && leaders == old(leaders)
      ensures Tracked(old(k), old(handles), k, handles)
      ensures old(sent) <= sent && Graceful(sent, |old(sent)|, killFrom)
      ensures ok ==> table.Pids? && AllBound(table.pids, handles, codes)
      ensures ok ==> AllSignalled(handles, fds, codes, sent[|old(sent)|..])
      ensures !ok ==> table.Unreadable? || exists p :: p in table.pids && !IsChild(old(k), p)
      ensures old(cancelled) ==> cancelled
    {
      hide Owns, ChildrenStay, Valid, Waitable, AfterTurn, Graceful, AllSignalled, Tracked, FewerLeaders, AllBound;
      NoSignals(sent, killFrom);
      TrackedRefl(k, handles);
      NoneBound(handles, codes);
      if table.Unreadable? {
        return false;
      }
      for i := 0 to |table.pids|
        invariant Inv() && opening == {} && now >= old(now) && sent == old(sent) && leaders == old(leaders)
        invariant AllBound(table.pids[..i], handles, codes)
        invariant old(cancelled) ==> cancelled
        invariant Tracked(old(k), old(handles), k, handles)
      {
        ghost var k1, h1 := k, handles;
        ok := Track(table.pids[i], None);
        TrackedMore(old(k), old(handles), k1, h1, k, handles);
        if !ok {
          TrackedChild(old(k), old(handles), k1, h1, table.pids[i]);
          return false;
        }
        BoundMore(table.pids, i, h1, handles, codes);
      }
      assert table.pids[..|table.pids|] == table.pids;
      ok := true;
      ghost var k1 := k;
      SignalChildren(killFrom);
      FewerRefl(handles);
      TrackedMore(old(k), old(handles), k1, handles, k, handles);
    }

    /** The loop over `list(self.handles.items())`. */
    method SignalChildren(killFrom: nat)
      requires Inv() && opening == {}
      modifies this`k, this`schedule, this`now, this`cancelled, this`sent
      ensures Inv() && now >= old(now) && ChildrenStay(old(k), k)
      ensures old(sent) <= sent && Graceful(sent, |old(sent)|, killFrom)
      ensures AllSignalled(handles, fds, codes, sent[|old(sent)|..])
      ensures old(cancelled) ==> cancelled
    {
      hide Owns, ChildrenStay, Valid, Waitable, AfterTurn, Graceful, SignalledAt;
      NoSignals(sent, killFrom);
      StaysRefl(k);
      var todo := handles.Keys;
      while todo != {}
        invariant Inv() && now >= old(now) && todo <= handles.Keys && ChildrenStay(old(k), k)
        invariant old(sent) <= sent && Graceful(sent, |old(sent)|, killFrom)
        invariant forall p :: p in handles && p !in todo && Awaited(handles[p], codes) ==>
          handles[p].fd in fds && SignalledAt(sent[|old(sent)|..], fds[handles[p].fd])
        invariant old(cancelled) ==> cancelled
        decreases todo
      {
        var pid :| pid in todo;
        todo := todo - {pid};
        var h := handles[pid];
        OwnsValid(k, handles, fds, opening, codes, leaders);
        if Awaited(h, codes) {
          AwaitedWaitable(k, handles, fds, opening, codes, leaders, pid);
          if !Waitable(k, fds[h.fd]) {
            assert false;  // an awaited handle names an unreaped child, so the check never raises
          }
          ghost var k1 := k;
          Interfere();
          StaysTrans(old(k), k1, k);
          AwaitedWaitable(k, handles, fds, opening, codes, leaders, pid);
          AddSignal(sent, |old(sent)|, killFrom, Signal(fds[h.fd], Waitable(k, fds[h.fd]), now >= killFrom, now));
          sent := sent + [Signal(fds[h.fd], Waitable(k, fds[h.fd]), now >= killFrom, now)];
        }
      }
    }

    /** The draining part of one turn; a cancellation that came meanwhile asks for the rest to be stopped. */
    method DrainTurn() returns (settled: bool)
      requires Inv() && opening == {} && k.intact
      modifies this`k, this`schedule, this`now, this`cancelled, this`handles, this`fds, this`reaped, this`codes,
               this`stopping
      ensures Inv() && opening == {} && now >= old(now)
      ensures if settled then k.tree == map[] else OnlyLive(k)
      ensures (old(cancelled) ==> cancelled) && (stopping <==> old(stopping) || cancelled)
      ensures old(schedule) == [] && AllExited(old(k)) ==> settled
      ensures old(reaped) <= reaped
      ensures TurnReaped(old(k), old(handles), old(codes), AfterTurn(old(k), old(schedule)), reaped[|old(reaped)|..],
                         stopping, k, handles, codes)
      ensures !old(stopping) && Calm(old(cancelled), old(schedule)) ==> !stopping && Calm(cancelled, schedule)
    {
      hide Owns, ChildrenStay, Valid, AfterTurn, OnlyLive, AllExited, Folded, Upheld, AllReaped, DeathsStay, TurnReaped;
      ghost var k0, h0, c0, first, n := k, handles, codes, AfterTurn(k, schedule), |reaped|;
      settled := Drain();
      stopping := stopping || cancelled;
      TurnDrained(k0, h0, c0, first, reaped[n..], stopping, k, handles, codes);
    }

    /** One turn of `finish`: drain, then stop what is left when asked to. */
    method FinishTurn(table: ChildTable, killFrom: nat) returns (settled: bool, ghost round: Round)
      requires Inv() && opening == {} && !failed
      modifies this
      ensures Inv() && opening == {} && leaders == old(leaders) && now > old(now)
      ensures settled ==> k.tree == map[] && !failed
      ensures (old(cancelled) ==> cancelled) && (old(stopping) ==> stopping)
      ensures (old(cancelled) ==> old(stopping)) ==> (cancelled ==> stopping)
      ensures RoundOk(round) && round.table == table && round.stopping == stopping && round.intact == old(k).intact
      ensures round.settled == settled && round.failed == failed && sent == old(sent) + round.signals
      ensures KeptBy(round, handles, fds) && round.codes == codes && (!old(k).intact ==> k == old(k))
      ensures Graceful(sent, |old(sent)|, killFrom)
      ensures old(k).intact && old(schedule) == [] && AllExited(old(k)) ==> settled
      ensures old(reaped) <= reaped
      ensures TurnReaped(old(k), old(handles), old(codes), AfterTurn(old(k), old(schedule)), reaped[|old(reaped)|..],
                         stopping, k, handles, codes)
      ensures !old(stopping) && Calm(old(cancelled), old(schedule)) ==> !stopping && Calm(cancelled, schedule)
    {
      hide Owns, ChildrenStay, Valid, AfterTurn, Graceful, AllSignalled, OnlyLive, AllExited, Tracked, AllBound,
           RoundOk, TurnReaped;
      NoSignals(sent, killFrom);
      ghost var k0, h0, c0, left, first, n := k, handles, codes, k, AfterTurn(k, schedule), |reaped|;
      settled := false;
      if !k.intact {
        TurnLost(k, handles, codes, first, reaped, stopping);
        failed := true;
      } else {
        settled := DrainTurn();
        left := k;
        if !settled && stopping {
          ghost var k1, h1 := k, handles;
          var ok := StopChildren(table, killFrom);
          TurnStopped(k0, h0, c0, first, reaped[n..], k1, h1, k, handles, codes);
          failed := !ok;
        }
      }
      round := Round(table, k0.intact, left, stopping, settled, failed, handles, fds, codes, sent[|old(sent)|..]);
      assert RoundOk(round) by { RoundMade(round); }
      now := now + 1;
    }

    /** The `while` loop of `finish`. */
    method Turns(timeout: nat, grace: nat, tables: seq<ChildTable>) returns (settled: bool, ghost rounds: seq<Round>)
      requires Inv() && opening == {}
      modifies this
      ensures Inv() && opening == {} && leaders == old(leaders)
      ensures settled ==> k.tree == map[] && !failed
      ensures !settled ==> failed || now >= old(now) + timeout
      ensures (old(cancelled) ==> cancelled) && (old(stopping) ==> stopping)
      ensures (old(cancelled) ==> old(stopping)) ==> (cancelled ==> stopping)
      ensures Account(rounds, tables, old(sent), sent, old(stopping), old(failed), failed, settled)
      ensures timeout > 0 && !old(failed) ==> rounds != []
      ensures rounds != [] ==> KeptBy(rounds[|rounds| - 1], handles, fds)
      ensures LostTruly(rounds, k.intact)
      ensures old(sent) <= sent && (sent != old(sent) ==> stopping)
      ensures Graceful(sent, |old(sent)|, old(now) + grace)
      ensures timeout > 0 && !old(failed) && old(k).intact && old(schedule) == [] && AllExited(old(k)) ==> settled
      ensures old(reaped) <= reaped
      ensures Finished(old(k), old(failed), old(handles), old(codes), reaped[|old(reaped)|..],
                       !stopping || timeout == 1, k, handles, codes)
      ensures timeout > 0 && !old(failed) && old(k).intact ==>
        AllReaped(AfterTurn(old(k), old(schedule)), reaped[|old(reaped)|..])
      ensures !old(stopping) && Calm(old(cancelled), old(schedule)) ==> !stopping
    {
      hide Owns, ChildrenStay, Valid, Graceful, AllExited, Progress, AllReaped, AfterTurn, Calm;
      hide CodesAfterReaps, Account, RoundOk, TurnReaped, LoopAt, Finished, KeptBy, LostTruly;
      ghost var fds0, failed0 := fds, failed;
      NoSignals(sent, now + grace);
      ghost var k0, h0, c0, first, n := k, handles, codes, AfterTurn(k, schedule), |reaped|;
      LoopStart(k, handles, codes, first, reaped, stopping, failed);
      AccountNone(tables, sent, stopping, failed);
      NoRound(k.intact);
      rounds := [];
      var started, turn := now, 0;
      ghost var quiet := k.intact && schedule == [] && AllExited(k);
      settled := false;
      while now - started < timeout && !settled && !failed
        invariant Inv() && opening == {} && started + turn <= now && leaders == old(leaders)
        invariant settled ==> k.tree == map[] && !failed
        invariant (old(cancelled) ==> cancelled) && (old(stopping) ==> stopping)
        invariant (old(cancelled) ==> old(stopping)) ==> (cancelled ==> stopping)
        invariant |rounds| == turn <= timeout && old(sent) <= sent && old(reaped) <= reaped
        invariant rounds != [] ==> KeptBy(rounds[|rounds| - 1], handles, fds)
        invariant LostTruly(rounds, k.intact)
        invariant Account(rounds, tables, old(sent), sent, old(stopping), old(failed), failed, settled)
        invariant (sent != old(sent) ==> stopping) && Graceful(sent, |old(sent)|, started + grace)
        invariant LoopAt(turn, k0, h0, c0, first, reaped[n..], stopping, failed, k, handles, codes)
        invariant turn == 0 ==>
          now == started && !settled && failed == old(failed) && k == k0 && schedule == old(schedule)
          && |reaped| == n && handles == h0 && codes == c0
        invariant (turn > 0 ==> !old(failed)) && (turn > 0 && quiet ==> settled)
        invariant !old(stopping) && Calm(old(cancelled), old(schedule)) ==> !stopping && Calm(cancelled, schedule)
        decreases timeout - (now - started)
      {
        ghost var before, r1, k1, h1, c1, s1, q1 := sent, reaped, k, handles, codes, stopping, schedule;
        ghost var round;
        settled, round := FinishTurn(TableAt(tables, turn), started + grace);
        RoundSignals(round);
        AccountMore(rounds, tables, old(sent), before, sent, old(stopping), old(failed), round);
        LastRound(rounds, round, handles, fds, k.intact);
        rounds := rounds + [round];
        MoreSignals(before, sent, |old(sent)|, started + grace);
        TailMore(r1, reaped, n);
        LoopNext(turn, k0, h0, c0, first, r1[n..], s1, k1, h1, c1, AfterTurn(k1, q1), reaped[|r1|..], stopping, failed,
                 k, handles, codes);
        turn := turn + 1;
      }
      LoopEnd(turn, k0, failed0, h0, fds0, c0, leaders, first, reaped[n..], stopping, failed, timeout == 1,
              k, handles, codes);
    }

    /** `finish(stop, timeout, grace)`. Every signal sent went to an unreaped child (part of `Inv`); a settled
        tree is an empty one, with every leader's status known and no pidfd left open. When everything has
        exited and nothing interferes, one turn settles it. The code of a leader whose handle is gone survives;
        when no handle is stale every code recorded stays, or is, the status its leader exited with. */
    method Finish(stop: bool, timeout: nat, grace: nat, tables: seq<ChildTable>, restored: bool)
      returns (r: Settlement, ghost rounds: seq<Round>)
      requires Inv() && opening == {}
      modifies this
      ensures Inv() && opening == {} && leaders == old(leaders)
      ensures r.treeSettled ==> k.tree == map[] && handles == map[] && fds == map[]
      ensures r.treeSettled ==> forall s :: s in leaders ==> s in codes
      ensures r.treeSettled ==> !failed && restored
      ensures !r.treeSettled ==> failed || !restored || now >= old(now) + timeout
      ensures r.cancelled == cancelled && (old(cancelled) ==> cancelled)
      ensures (stop || cancelled ==> stopping) && old(sent) <= sent && (sent != old(sent) ==> stopping)
      // turn by turn: who was signalled, and why it ended as it did
      ensures Account(rounds, tables, old(sent), sent, old(stopping) || stop || old(cancelled), old(failed), failed,
                      SettledBy(rounds))
      ensures timeout > 0 && !old(failed) ==> rounds != []
      ensures rounds != [] && !SettledBy(rounds) ==> KeptBy(rounds[|rounds| - 1], handles, fds)
      ensures LostTruly(rounds, k.intact)
      ensures r.treeSettled <==> restored && !old(failed) && SettledBy(rounds)
      ensures Graceful(sent, |old(sent)|, old(now) + grace)
      ensures timeout > 0 && restored && !old(failed) && old(k).intact && old(schedule) == [] && AllExited(old(k)) ==>
        r.treeSettled
      ensures old(reaped) <= reaped
      ensures Finished(old(k), old(failed), old(handles), old(codes), reaped[|old(reaped)|..],
                       !stopping || timeout == 1, k, handles, codes)
      ensures timeout > 0 && !old(failed) && old(k).intact ==>
        AllReaped(AfterTurn(old(k), old(schedule)), reaped[|old(reaped)|..])
      ensures !stop && !old(stopping) && Calm(old(cancelled), old(schedule)) ==> !stopping
    {
      hide Owns, ChildrenStay, Valid, Graceful, AllExited, Progress, AllReaped, AfterTurn, DeathsStay,
           CodesKept, Truthful, CodesAfterReaps, NoStale, Account, Spared, Finished, SettledBy, KeptBy;
      stopping := stopping || stop || cancelled;
      ghost var n := |reaped|;
      var settled;
      settled, rounds := Turns(timeout, grace, tables);
      AccountSettled(rounds, tables, old(sent), sent, old(stopping) || stop || old(cancelled), old(failed), failed,
                     settled);
      ghost var held := handles;
      CloseAll(settled);
      FinishedClosed(old(k), old(failed), old(handles), old(codes), reaped[n..], !stopping || timeout == 1,
                     k, held, handles, codes);
      r := Settlement(settled && !failed && restored, cancelled);
    }

    /** Once nobody is left every pidfd is closed. */
    method CloseAll(settled: bool)
      requires Inv() && opening == {} && (settled ==> k.tree == map[])
      modifies this`handles, this`fds
      ensures Inv() && (settled ==> handles == map[] && fds == map[] && forall s :: s in leaders ==> s in codes)
      ensures !settled ==> handles == old(handles) && fds == old(fds)
      ensures CodesKept(old(handles), codes, handles, codes)
    {
      hide Owns, CodesKept;
      FewerRefl(handles);
      CodesKeptFewer(handles, handles, codes);
      if settled {
        SettledOwns(k, handles, fds, codes, leaders);
        NoHandles(handles, codes);
        handles, fds := map[], map[];
      }
    }
  }

  /** `Overwritable` is exact: from every such state there is a schedule under which `finish` writes another
      process's status over the leader's, in one turn, whether it is to stop the rest or not. From every other
      state `Finish` promises that no schedule does. */
  method OverwriteRecordedCode(tree: ClippyTree, leader: Serial, p: Pid, c: Pid, stop: bool)
    requires tree.Inv() && tree.opening == {} && tree.k.intact && !tree.failed
    requires leader in tree.codes && p in tree.handles && tree.handles[p].process == Some(leader)
    requires ThreatenedBy(tree.k, p, c, tree.codes[leader])
    modifies tree
    ensures tree.Inv() && DeathsStay(old(tree.k), tree.k)
    ensures leader in tree.codes && tree.codes[leader] != old(tree.codes)[leader]
  {
    hide Owns, Valid, DeathsStay, CodesKept, Truthful, NoStale, AllExited, Graceful, Run, CodesAfterReaps, AllReaped,
         ThreatenedBy, Recycle, Overwritable, Threatened;
    OwnsValid(tree.k, tree.handles, tree.fds, tree.opening, tree.codes, tree.leaders);
    OneHandle(tree.k, tree.handles, tree.fds, tree.opening, tree.codes, tree.leaders, leader, p);
    var events := Recycle(tree.k, p, c, tree.codes[leader]);
    Recycled(tree.k, p, c, tree.codes[leader]);
    tree.schedule := [Turn(events, false, 0)];
    ghost var k0, h0, c0, n := tree.k, tree.handles, tree.codes, |tree.reaped|;
    var r;
    ghost var rounds;
    r, rounds := tree.Finish(stop, 1, 0, [], true);
    ReapedFirst(Run(k0, events), tree.reaped[n..], p);
    CodeAfterReaps(h0, c0, tree.reaped[n..], p, leader);
    assert HeldFor(h0, leader);
  }

  /** The two halves meet: a state is overwritable exactly when `OverwriteRecordedCode` applies to it. */
  lemma OverwritableIff(k: Kernel, failed: bool, h: map<Pid, Handle>, c: map<Serial, int>, leader: Serial)
    ensures Overwritable(k, failed, h, c, leader) <==>
      (k.intact && !failed && leader in c
       && exists p, q :: p in h && h[p].process == Some(leader) && ThreatenedBy(k, p, q, c[leader]))
  {
    if Overwritable(k, failed, h, c, leader) {
      var p :| p in h && h[p].process == Some(leader) && Threatened(k, p, c[leader]);
      if IsChild(k, p) && k.tree[p].exited {
        assert ThreatenedBy(k, p, p, c[leader]);
      } else {
        var q :| IsChild(k, q) && !k.tree[q].exited;
        assert ThreatenedBy(k, p, q, c[leader]);
      }
    }
  }

  lemma ReapedFirst(k: Kernel, reaps: seq<(Pid, int)>, p: Pid)
    requires AllReaped(k, reaps) && IsChild(k, p) && k.tree[p].exited
    ensures FirstReap(reaps, p) == Some(k.tree[p].status)
  {
  }

  lemma OneHandle(k: Kernel, handles: map<Pid, Handle>, fds: map<Fd, Serial>, opening: set<Fd>,
                  codes: map<Serial, int>, leaders: map<Serial, Pid>, leader: Serial, p: Pid)
    requires Owns(k, handles, fds, opening, codes, leaders) && p in handles && handles[p].process == Some(leader)
    ensures p != k.owner && forall q :: q in handles && handles[q].process == Some(leader) ==> q == p
  {
    hide Valid, FdsHeld, Bound;
  }

  /** How another status comes to `p`, if none is there: whoever is in the way leaves, `c` forks a sibling that gets
      the pid, and it exits. */
  function Recycle(k: Kernel, p: Pid, c: Pid, code: int): seq<Event> {
    if IsChild(k, p) then
      if k.tree[p].exited then [] else [Exit(p, code + 1)] + []
    else if p in k.foreign then
      [ForeignEnd(p)] + [Fork(c, p, true), Exit(p, code + 1)]
    else if p in k.tree then
      [Exit(p, 0)] + ([Reap(k.tree[p].parent, p)] + [Fork(c, p, true), Exit(p, code + 1)])
    else
      [Fork(c, p, true), Exit(p, code + 1)]
  }

  lemma Recycled(k: Kernel, p: Pid, c: Pid, code: int)
    requires Valid(k) && p != k.owner && ThreatenedBy(k, p, c, code)
    ensures var k' := Run(k, Recycle(k, p, c, code));
      IsChild(k', p) && k'.tree[p].exited && k'.tree[p].status != code
  {
    hide Valid, Run, Adopter;
    BasicFacts(k);
    if IsChild(k, p) {
      if k.tree[p].exited {
        RunNone(k);
      } else {
        RunNone(Apply(k, Exit(p, code + 1)));
        RunFirst(k, Exit(p, code + 1), []);
      }
    } else if p in k.foreign {
      var k1 := Apply(k, ForeignEnd(p));
      RunFirst(k, ForeignEnd(p), [Fork(c, p, true), Exit(p, code + 1)]);
      ForkAndExit(k1, p, c, code + 1);
    } else if p in k.tree {
      RootedAt(k, p);
      var q := k.tree[p].parent;
      var k1 := Apply(k, Exit(p, 0));
      Cleared(k, p, c);
      var k2 := Apply(k1, Reap(q, p));
      RunFirst(k, Exit(p, 0), [Reap(q, p)] + [Fork(c, p, true), Exit(p, code + 1)]);
      RunFirst(k1, Reap(q, p), [Fork(c, p, true), Exit(p, code + 1)]);
      ForkAndExit(k2, p, c, code + 1);
    } else {
      ForkAndExit(k, p, c, code + 1);
    }
  }

  /** A descendant in the way, not a child of the owner, exits and is reaped by its parent. */
  lemma Cleared(k: Kernel, p: Pid, c: Pid)
    requires Valid(k) && p in k.tree && !IsChild(k, p) && IsChild(k, c) && !k.tree[c].exited
    ensures var k' := Apply(Apply(k, Exit(p, 0)), Reap(k.tree[p].parent, p));
      Free(k', p) && IsChild(k', c) && !k'.tree[c].exited
  {
    hide Valid, Adopter;
    BasicFacts(k);
    RootedAt(k, p);
  }

  lemma RunNone(k: Kernel)
    ensures Run(k, []) == k
  {
  }

  lemma RunFirst(k: Kernel, e: Event, rest: seq<Event>)
    ensures Run(k, [e] + rest) == Run(Apply(k, e), rest)
  {
    assert ([e] + rest)[1..] == rest;
  }

  lemma ForkAndExit(k: Kernel, p: Pid, c: Pid, status: int)
    requires Free(k, p) && IsChild(k, c) && !k.tree[c].exited
    ensures var k' := Run(k, [Fork(c, p, true), Exit(p, status)]);
      IsChild(k', p) && k'.tree[p].exited && k'.tree[p].status == status
  {
    hide Adopter;
    var k1 := Apply(k, Fork(c, p, true));
    RunFirst(k, Fork(c, p, true), [Exit(p, status)]);
    RunFirst(k1, Exit(p, status), []);
    assert [Fork(c, p, true)] + [Exit(p, status)] == [Fork(c, p, true), Exit(p, status)];
    assert [Exit(p, status)] + [] == [Exit(p, status)];
    RunNone(Apply(k1, Exit(p, status)));
  }

  /** A run that ends that way: a leader exits with 0 and is collected; the child it leaves behind forks a
      sibling that gets the leader's pid and exits; `finish` then records that status for the leader. */
  method LeaderCodeOverwritten() returns (tree: ClippyTree, leader: Serial)
    ensures fresh(tree) && tree.Inv()
    ensures leader in tree.codes && leader in tree.k.deaths && tree.codes[leader] != tree.k.deaths[leader]
  {
    hide Owns, Valid, ChildrenStay;
    tree := new ClippyTree(1, map[], 0, []);
    leader := tree.Launch(7);
    var events := [Fork(7, 8, false), Exit(7, 0)];
    LeavesOneBehind(tree.k);
    tree.schedule := [Turn(events, false, 0)];
    var code := tree.WaitLeader(7, leader);
    OverwriteRecordedCode(tree, leader, 7, 8, false);
  }

  lemma LeavesOneBehind(k: Kernel)
    requires k == AddChild(Kernel.Kernel(1, map[], map[], 0, true, map[]), 7, 1)
    ensures var k' := Run(k, [Fork(7, 8, false), Exit(7, 0)]);
      && k'.intact && 7 in k'.tree && k'.tree[7].exited && k'.tree[7].status == 0
      && Free(Remove(k', 7), 7) && IsChild(Remove(k', 7), 8) && !k'.tree[8].exited
  {
    var k1 := Apply(k, Fork(7, 8, false));
    var events := [Fork(7, 8, false), Exit(7, 0)];
    assert events[1..] == [Exit(7, 0)] && [Exit(7, 0)][1..] == [];
    assert k1 == AddChild(k, 8, 7) && Adopter(k1, 7) == 1;
    assert Run(k, events) == Run(k1, [Exit(7, 0)]) == Run(Terminate(k1, 7, 0), []);
  }

  lemma FreshSerial(k: Kernel, handles: map<Pid, Handle>, fds: map<Fd, Serial>, opening: set<Fd>,
                    codes: map<Serial, int>, leaders: map<Serial, Pid>)
    requires Owns(k, handles, fds, opening, codes, leaders)
    ensures k.next !in leaders
  {
    hide Valid, FdsHeld, Bound;
  }

  lemma AfterNoTurn(k: Kernel)
    ensures AfterTurn(k, []) == k
  {
  }

  lemma StaysDeaths(k: Kernel, k': Kernel)
    requires ChildrenStay(k, k')
    ensures DeathsStay(k, k')
  {
  }

  lemma DeathsTrans(k: Kernel, k1: Kernel, k2: Kernel)
    requires DeathsStay(k, k1) && DeathsStay(k1, k2)
    ensures DeathsStay(k, k2)
  {
  }

  lemma DeathsRefl(k: Kernel)
    ensures DeathsStay(k, k)
  {
  }

  lemma ChildDeath(k: Kernel, p: Pid)
    requires Valid(k) && p in k.tree && k.tree[p].exited
    ensures k.tree[p].serial in k.deaths && k.deaths[k.tree[p].serial] == k.tree[p].status
  {
  }

  lemma SerialAt(k: Kernel, pid: Pid, serial: Serial)
    requires Valid(k) && NamedAt(k, pid, serial)
    ensures pid in k.tree ==> k.tree[pid].serial == serial
  {
  }

  lemma DrainStart(first: Kernel, h: map<Pid, Handle>, c: map<Serial, int>, reaped: seq<(Pid, int)>)
    ensures Folded(h, c, reaped[|reaped|..], h, c) && Owed(first, first, reaped[|reaped|..])
  {
    var none := reaped[|reaped|..];
    assert none == [] && (set r | r in none :: r.0) == {};
  }

  lemma DrainStep(first: Kernel, h0: map<Pid, Handle>, c0: map<Serial, int>, reaps: seq<(Pid, int)>,
                  k: Kernel, h: map<Pid, Handle>, c: map<Serial, int>, pid: Pid)
    requires Folded(h0, c0, reaps, h, c) && Owed(first, k, reaps) && pid in k.tree
    ensures Folded(h0, c0, reaps + [(pid, k.tree[pid].status)], h - {pid},
                   CodesAfterReap(h, c, pid, k.tree[pid].status))
    ensures Owed(first, Remove(k, pid), reaps + [(pid, k.tree[pid].status)])
  {
    CodesAfterOne(h0, c0, reaps, pid, k.tree[pid].status);
    var more := reaps + [(pid, k.tree[pid].status)];
    assert more[..|more| - 1] == reaps;
  }

  lemma OwedStays(first: Kernel, k: Kernel, k': Kernel, reaps: seq<(Pid, int)>)
    requires Owed(first, k, reaps) && ChildrenStay(k, k') && first.owner == k.owner
    ensures Owed(first, k', reaps)
  {
    forall p | IsChild(first, p) && first.tree[p].exited && FirstReap(reaps, p).None?
      ensures p in k'.tree && k'.tree[p] == first.tree[p]
    {
      assert IsChild(k, p);
    }
  }

  lemma OwedNothing(first: Kernel, k: Kernel, reaps: seq<(Pid, int)>)
    requires Owed(first, k, reaps) && first.owner == k.owner && forall p :: IsChild(k, p) ==> !k.tree[p].exited
    ensures AllReaped(first, reaps)
  {
    forall p | IsChild(first, p) && first.tree[p].exited ensures FirstReap(reaps, p) == Some(first.tree[p].status) {
      assert p in k.tree && k.tree[p] == first.tree[p] ==> IsChild(k, p);
    }
  }

  lemma FixedLater(k: Kernel, h: map<Pid, Handle>, c: map<Serial, int>, k': Kernel, h': map<Pid, Handle>,
                   leader: Serial, code: int)
    requires ChildrenStay(k, k') && FewerLeaders(h, h') && Fixed(k, h, c, leader, code)
    ensures Fixed(k', h', c, leader, code)
  {
    hide DeathsStay;
    forall p | p in h' && h'[p].process == Some(leader) ensures SafeAt(k', p, code) {
      assert SafeAt(k, p, code);
    }
  }

  lemma FixedReap(k: Kernel, h: map<Pid, Handle>, c: map<Serial, int>, pid: Pid, leader: Serial, code: int)
    requires IsChild(k, pid) && k.tree[pid].exited && Fixed(k, h, c, leader, code)
    ensures Fixed(Remove(k, pid), h - {pid}, CodesAfterReap(h, c, pid, k.tree[pid].status), leader, code)
  {
    assert pid in h && h[pid].process == Some(leader) ==> SafeAt(k, pid, code);
    forall p | p in h - {pid} && h[p].process == Some(leader) ensures SafeAt(Remove(k, pid), p, code) {
      assert SafeAt(k, p, code);
    }
  }

  lemma UpheldStart(k: Kernel, k': Kernel, h: map<Pid, Handle>, c: map<Serial, int>)
    requires ChildrenStay(k, k')
    ensures Upheld(k, h, c, k', h, c)
  {
    UpheldRefl(k, h, c);
    FewerRefl(h);
    UpheldLater(k, h, c, k, k', h, h, c);
  }

  lemma UpheldRefl(k: Kernel, h: map<Pid, Handle>, c: map<Serial, int>)
    ensures Upheld(k, h, c, k, h, c)
  {
  }

  lemma UpheldLater(k0: Kernel, h0: map<Pid, Handle>, c0: map<Serial, int>,
                    k: Kernel, k': Kernel, h: map<Pid, Handle>, h': map<Pid, Handle>, c: map<Serial, int>)
    requires Upheld(k0, h0, c0, k, h, c) && ChildrenStay(k, k') && FewerLeaders(h, h')
    ensures Upheld(k0, h0, c0, k', h', c)
  {
    hide FewerLeaders, ChildrenStay, Fixed, NoStale, Truthful;
    StaysDeaths(k, k');
    FewerTruth(k, k', h, h', c);
    NobodyLater(k, k');
    forall leader, code | Fixed(k0, h0, c0, leader, code) ensures Fixed(k', h', c, leader, code) {
      FixedLater(k, h, c, k', h', leader, code);
    }
  }

  lemma NobodyLater(k: Kernel, k': Kernel)
    requires ChildrenStay(k, k')
    ensures k.tree == map[] ==> k'.tree == map[]
  {
  }

  lemma UpheldTrans(k0: Kernel, h0: map<Pid, Handle>, c0: map<Serial, int>, k1: Kernel, h1: map<Pid, Handle>,
                    c1: map<Serial, int>, k2: Kernel, h2: map<Pid, Handle>, c2: map<Serial, int>)
    requires Upheld(k0, h0, c0, k1, h1, c1) && Upheld(k1, h1, c1, k2, h2, c2)
    ensures Upheld(k0, h0, c0, k2, h2, c2)
  {
    hide Fixed, NoStale, Truthful;
  }

  lemma ReapUpheld(k0: Kernel, h0: map<Pid, Handle>, c0: map<Serial, int>, k: Kernel, h: map<Pid, Handle>,
                   fds: map<Fd, Serial>, c: map<Serial, int>, leaders: map<Serial, Pid>, pid: Pid)
    requires Upheld(k0, h0, c0, k, h, c) && Owns(k, h, fds, {}, c, leaders) && IsChild(k, pid) && k.tree[pid].exited
    ensures Upheld(k0, h0, c0, Remove(k, pid), h - {pid}, CodesAfterReap(h, c, pid, k.tree[pid].status))
  {
    hide Owns, CodesAfterReap, NoStale, Fixed;
    assert k.tree != map[];
    if NoStale(h0, c0) {
      ReapTruth(k, h, fds, c, leaders, pid);
    }
    forall leader, code | Fixed(k0, h0, c0, leader, code)
      ensures Fixed(Remove(k, pid), h - {pid}, CodesAfterReap(h, c, pid, k.tree[pid].status), leader, code)
    {
      FixedReap(k, h, c, pid, leader, code);
    }
  }

  lemma DrainedStart(k0: Kernel, first: Kernel, h: map<Pid, Handle>, c: map<Serial, int>, reaped: seq<(Pid, int)>)
    requires ChildrenStay(k0, first)
    ensures Drained(k0, h, c, first, reaped[|reaped|..], first, h, c)
  {
    StaysDeaths(k0, first);
    DrainStart(first, h, c, reaped);
    UpheldStart(k0, first, h, c);
  }

  lemma DrainedReap(k0: Kernel, h0: map<Pid, Handle>, c0: map<Serial, int>, first: Kernel, reaps: seq<(Pid, int)>,
                    k: Kernel, h: map<Pid, Handle>, fds: map<Fd, Serial>, c: map<Serial, int>,
                    leaders: map<Serial, Pid>, pid: Pid)
    requires Drained(k0, h0, c0, first, reaps, k, h, c)
    requires Owns(k, h, fds, {}, c, leaders) && IsChild(k, pid) && k.tree[pid].exited
    ensures Drained(k0, h0, c0, first, reaps + [(pid, k.tree[pid].status)], Remove(k, pid), h - {pid},
                    CodesAfterReap(h, c, pid, k.tree[pid].status))
  {
    hide Folded, Owed, Upheld, Owns, CodesAfterReap;
    DrainStep(first, h0, c0, reaps, k, h, c, pid);
    ReapUpheld(k0, h0, c0, k, h, fds, c, leaders, pid);
  }

  lemma DrainedTurn(k0: Kernel, h0: map<Pid, Handle>, c0: map<Serial, int>, first: Kernel, reaps: seq<(Pid, int)>,
                    k: Kernel, k': Kernel, h: map<Pid, Handle>, c: map<Serial, int>)
    requires Drained(k0, h0, c0, first, reaps, k, h, c) && ChildrenStay(k, k')
    ensures Drained(k0, h0, c0, first, reaps, k', h, c)
  {
    hide Folded, Owed, Upheld;
    StaysDeaths(k, k');
    OwedStays(first, k, k', reaps);
    FewerRefl(h);
    UpheldLater(k0, h0, c0, k, k', h, h, c);
  }

  lemma DrainedEnd(k0: Kernel, h0: map<Pid, Handle>, c0: map<Serial, int>, first: Kernel, reaps: seq<(Pid, int)>,
                   k: Kernel, h: map<Pid, Handle>, c: map<Serial, int>)
    requires Drained(k0, h0, c0, first, reaps, k, h, c) && forall p :: IsChild(k, p) ==> !k.tree[p].exited
    ensures DeathsStay(k0, k) && Folded(h0, c0, reaps, h, c)
    ensures AllReaped(first, reaps) && Upheld(k0, h0, c0, k, h, c)
  {
    hide Folded, Upheld;
    OwedNothing(first, k, reaps);
  }

  lemma ServedRefl(k: Kernel, h: map<Pid, Handle>)
    ensures Served(k, h, k, h)
  {
  }

  lemma ServedTurn(k0: Kernel, h0: map<Pid, Handle>, k: Kernel, k': Kernel, h: map<Pid, Handle>)
    requires Served(k0, h0, k, h) && ChildrenStay(k, k')
    ensures Served(k0, h0, k', h)
  {
    StaysDeaths(k, k');
  }

  lemma ServedTake(k0: Kernel, h0: map<Pid, Handle>, k: Kernel, h: map<Pid, Handle>, pid: Pid)
    requires Served(k0, h0, k, h)
    ensures Served(k0, h0, Remove(k, pid), h - {pid})
  {
  }

  lemma ServedMeans(k0: Kernel, h0: map<Pid, Handle>, k: Kernel, h: map<Pid, Handle>)
    requires Served(k0, h0, k, h)
    ensures DeathsStay(k0, k) && FewerLeaders(h0, h)
  {
  }

  lemma NoneExited(k: Kernel, h: map<Pid, Handle>, c: map<Serial, int>, exited: set<Pid>)
    requires exited == (set p | p in k.tree && k.tree[p].parent == k.owner && k.tree[p].exited) && exited == {}
    ensures NothingToTake(k, h, c)
  {
    assert forall p :: IsChild(k, p) && k.tree[p].exited ==> p in exited;
  }

  lemma LeaderInFront(k: Kernel, h: map<Pid, Handle>, c: map<Serial, int>, pid: Pid)
    requires IsChild(k, pid) && k.tree[pid].exited
    requires pid in h && h[pid].process.Some? && h[pid].process.value !in c
    ensures NothingToTake(k, h, c)
  {
  }

  lemma AwaitedLeaders(k: Kernel, handles: map<Pid, Handle>, fds: map<Fd, Serial>,
                       codes: map<Serial, int>, leaders: map<Serial, Pid>)
    requires Owns(k, handles, fds, {}, codes, leaders)
    ensures forall s :: s in leaders && s !in codes ==> IsChild(k, leaders[s]) && k.tree[leaders[s]].serial == s
  {
    hide Owns;
    forall s | s in leaders && s !in codes ensures IsChild(k, leaders[s]) && k.tree[leaders[s]].serial == s {
      LeaderIsChild(k, handles, fds, codes, leaders, s);
    }
  }

  lemma {:induction false} CodesKeptFold(h: map<Pid, Handle>, c: map<Serial, int>, reaps: seq<(Pid, int)>)
    ensures CodesKept(h, c, HandlesAfterReaps(h, reaps), CodesAfterReaps(h, c, reaps))
  {
    if reaps == [] {
      assert (set r | r in reaps :: r.0) == {};
    } else {
      var front, last := reaps[..|reaps| - 1], reaps[|reaps| - 1];
      CodesKeptFold(h, c, front);
      assert reaps == front + [last];
      CodesAfterOne(h, c, front, last.0, last.1);
      var h1, c1 := HandlesAfterReaps(h, front), CodesAfterReaps(h, c, front);
      CodesKeptReap(h1, c1, last.0, last.1);
      CodesKeptTrans(h, c, h1, c1, h1 - {last.0}, CodesAfterReap(h1, c1, last.0, last.1));
    }
  }

  /** What the first turn did to the codes: just its reaps; nothing when the scope was lost before it. */
  ghost predicate OneTurn(turn: nat, intact: bool, failed: bool, h0: map<Pid, Handle>, c0: map<Serial, int>,
                          reaps: seq<(Pid, int)>, c: map<Serial, int>)
  {
    && (turn <= 1 ==> c == CodesAfterReaps(h0, c0, reaps))
    && (turn == 0 || !intact ==> c == c0)
    && (turn > 0 && !intact ==> failed)
  }

  lemma FirstTurn(intact: bool, failed: bool, h: map<Pid, Handle>, c: map<Serial, int>, reaps: seq<(Pid, int)>)
    requires reaps == []
    ensures OneTurn(0, intact, failed, h, c, reaps, c)
  {
  }

  lemma NextTurn(turn: nat, intact: bool, h0: map<Pid, Handle>, c0: map<Serial, int>, h1: map<Pid, Handle>,
                 c1: map<Serial, int>, before: seq<(Pid, int)>, after: seq<(Pid, int)>, failed: bool,
                 c: map<Serial, int>)
    requires OneTurn(turn, intact, false, h0, c0, before, c1)
    requires turn == 0 ==> before == [] && h1 == h0 && c == CodesAfterReaps(h1, c1, after)
    requires turn == 0 && !intact ==> failed && c == c1
    ensures OneTurn(turn + 1, intact, failed, h0, c0, after, c)
  {
  }

  lemma TurnsOver(turn: nat, intact: bool, failed: bool, h0: map<Pid, Handle>, c0: map<Serial, int>,
                  reaps: seq<(Pid, int)>, c: map<Serial, int>)
    requires OneTurn(turn, intact, failed, h0, c0, reaps, c)
    ensures turn <= 1 ==> c == CodesAfterReaps(h0, c0, reaps)
    ensures turn == 0 || !intact ==> c == c0
  {
  }

  lemma TailMore<T>(a: seq<T>, b: seq<T>, n: nat)
    requires n <= |a| && a <= b
    ensures b[n..] == a[n..] + b[|a|..]
  {
  }

  lemma NoReaps(h: map<Pid, Handle>, c: map<Serial, int>, reaps: seq<(Pid, int)>)
    requires reaps == []
    ensures CodesAfterReaps(h, c, reaps) == c
  {
  }

  /** Without a living child nobody is alive at all: the oldest living descendant hangs from the owner. */
  lemma NoLiveChild(k: Kernel)
    requires Valid(k) && forall q :: IsChild(k, q) ==> k.tree[q].exited
    ensures AllExited(k)
  {
    hide Valid;
    var live := set p | p in k.tree && !k.tree[p].exited;
    if live != {} {
      var p := Oldest(k, live);
      RootedAt(k, p);
      var parent := k.tree[p].parent;
      var older := parent in live;
      var child := IsChild(k, p);
    }
    assert forall p :: p in k.tree && !k.tree[p].exited ==> p in live;
  }

  lemma NotOverwritable(k: Kernel, failed: bool, h: map<Pid, Handle>, fds: map<Fd, Serial>, opening: set<Fd>,
                        c: map<Serial, int>, leaders: map<Serial, Pid>)
    requires Owns(k, h, fds, opening, c, leaders) && k.intact && !failed
    ensures forall leader :: leader in c && !Overwritable(k, failed, h, c, leader) ==> Fixed(k, h, c, leader, c[leader])
  {
    hide Valid, FdsHeld, Bound, LeadersKept, AllExited;
    forall leader | leader in c && !Overwritable(k, failed, h, c, leader) ensures Fixed(k, h, c, leader, c[leader]) {
      forall p | p in h && h[p].process == Some(leader) ensures SafeAt(k, p, c[leader]) {
        assert !Threatened(k, p, c[leader]);
        if !(IsChild(k, p) && k.tree[p].exited) {
          NoLiveChild(k);
        }
      }
    }
  }

  lemma ProgressRefl(k: Kernel, h: map<Pid, Handle>, c: map<Serial, int>, reaped: seq<(Pid, int)>, stopping: bool)
    ensures Progress(k, h, c, reaped[|reaped|..], stopping, k, h, c)
  {
    DrainStart(k, h, c, reaped);
    FewerRefl(h);
    CodesKeptFewer(h, h, c);
  }

  lemma ProgressDrained(k0: Kernel, h0: map<Pid, Handle>, c0: map<Serial, int>, reaps: seq<(Pid, int)>,
                        k: Kernel, h: map<Pid, Handle>, c: map<Serial, int>)
    requires DeathsStay(k0, k) && Folded(h0, c0, reaps, h, c) && Upheld(k0, h0, c0, k, h, c)
    ensures Progress(k0, h0, c0, reaps, false, k, h, c)
  {
    CodesKeptFold(h0, c0, reaps);
    if reaps == [] {
      NoReaps(h0, c0, reaps);
    }
  }

  lemma ProgressAny(k0: Kernel, h0: map<Pid, Handle>, c0: map<Serial, int>, reaps: seq<(Pid, int)>, stopping: bool,
                    k: Kernel, h: map<Pid, Handle>, c: map<Serial, int>)
    requires Progress(k0, h0, c0, reaps, false, k, h, c)
    ensures Progress(k0, h0, c0, reaps, stopping, k, h, c)
  {
  }

  lemma ProgressStopped(k0: Kernel, h0: map<Pid, Handle>, c0: map<Serial, int>, reaps: seq<(Pid, int)>,
                        k1: Kernel, h1: map<Pid, Handle>, k: Kernel, h: map<Pid, Handle>, c: map<Serial, int>)
    requires Progress(k0, h0, c0, reaps, true, k1, h1, c) && Tracked(k1, h1, k, h)
    ensures Progress(k0, h0, c0, reaps, true, k, h, c)
  {
    hide CodesKept, Upheld, DeathsStay, FewerLeaders, ChildrenStay;
    StaysDeaths(k1, k);
    DeathsTrans(k0, k1, k);
    CodesKeptFewer(h1, h, c);
    CodesKeptTrans(h0, c0, h1, c, h, c);
    UpheldLater(k0, h0, c0, k1, k, h1, h, c);
  }

  /** What one turn reaped, and what that did: the codes are those after the reaps, and whoever had exited when it
      began to drain was reaped. */
  ghost predicate TurnReaped(k0: Kernel, h0: map<Pid, Handle>, c0: map<Serial, int>, first: Kernel,
                             reaps: seq<(Pid, int)>, stopping: bool,
                             k: Kernel, h: map<Pid, Handle>, c: map<Serial, int>)
  {
    && Progress(k0, h0, c0, reaps, stopping, k, h, c) && c == CodesAfterReaps(h0, c0, reaps)
    && (if k0.intact then AllReaped(first, reaps) else c == c0)
  }

  lemma TurnLost(k: Kernel, h: map<Pid, Handle>, c: map<Serial, int>, first: Kernel, reaped: seq<(Pid, int)>,
                 stopping: bool)
    requires !k.intact
    ensures TurnReaped(k, h, c, first, reaped[|reaped|..], stopping, k, h, c)
  {
    hide Progress, AllReaped;
    ProgressRefl(k, h, c, reaped, stopping);
    NoReaps(h, c, reaped[|reaped|..]);
  }

  lemma TurnDrained(k0: Kernel, h0: map<Pid, Handle>, c0: map<Serial, int>, first: Kernel, reaps: seq<(Pid, int)>,
                    stopping: bool, k: Kernel, h: map<Pid, Handle>, c: map<Serial, int>)
    requires DeathsStay(k0, k) && Folded(h0, c0, reaps, h, c) && Upheld(k0, h0, c0, k, h, c)
    requires k0.intact && AllReaped(first, reaps)
    ensures TurnReaped(k0, h0, c0, first, reaps, stopping, k, h, c)
  {
    hide Progress, AllReaped, Upheld, DeathsStay;
    ProgressDrained(k0, h0, c0, reaps, k, h, c);
    ProgressAny(k0, h0, c0, reaps, stopping, k, h, c);
  }

  lemma TurnStopped(k0: Kernel, h0: map<Pid, Handle>, c0: map<Serial, int>, first: Kernel, reaps: seq<(Pid, int)>,
                    k1: Kernel, h1: map<Pid, Handle>, k: Kernel, h: map<Pid, Handle>, c: map<Serial, int>)
    requires TurnReaped(k0, h0, c0, first, reaps, true, k1, h1, c) && Tracked(k1, h1, k, h)
    ensures TurnReaped(k0, h0, c0, first, reaps, true, k, h, c)
  {
    hide Progress, AllReaped, Tracked;
    ProgressStopped(k0, h0, c0, reaps, k1, h1, k, h, c);
  }

  lemma ProgressTrans(k0: Kernel, h0: map<Pid, Handle>, c0: map<Serial, int>, a: seq<(Pid, int)>, s1: bool,
                      k1: Kernel, h1: map<Pid, Handle>, c1: map<Serial, int>, b: seq<(Pid, int)>, s2: bool,
                      k2: Kernel, h2: map<Pid, Handle>, c2: map<Serial, int>)
    requires Progress(k0, h0, c0, a, s1, k1, h1, c1) && Progress(k1, h1, c1, b, s2, k2, h2, c2) && (s1 ==> s2)
    ensures Progress(k0, h0, c0, a + b, s2, k2, h2, c2)
  {
    hide CodesKept, Upheld, DeathsStay;
    DeathsTrans(k0, k1, k2);
    CodesKeptTrans(h0, c0, h1, c1, h2, c2);
    UpheldTrans(k0, h0, c0, k1, h1, c1, k2, h2, c2);
    CodesAfterMore(h0, c0, a, b);
  }

  lemma ProgressMeans(k0: Kernel, h0: map<Pid, Handle>, c0: map<Serial, int>, reaps: seq<(Pid, int)>, stopping: bool,
                      k: Kernel, h: map<Pid, Handle>, c: map<Serial, int>)
    requires Progress(k0, h0, c0, reaps, stopping, k, h, c)
    ensures DeathsStay(k0, k) && CodesKept(h0, c0, h, c)
    ensures NoStale(h0, c0) && Truthful(k0, c0) ==> Truthful(k, c)
    ensures !stopping ==> c == CodesAfterReaps(h0, c0, reaps)
    ensures reaps == [] ==> c == c0
    ensures forall leader, code :: Fixed(k0, h0, c0, leader, code) ==> leader in c && c[leader] == code
    ensures k0.tree == map[] ==> k.tree == map[]
  {
  }

  /** What the turns so far reaped, and what that did. */
  ghost predicate LoopAt(turn: nat, k0: Kernel, h0: map<Pid, Handle>, c0: map<Serial, int>, first: Kernel,
                         reaps: seq<(Pid, int)>, stopping: bool, failed: bool,
                         k: Kernel, h: map<Pid, Handle>, c: map<Serial, int>)
  {
    && Progress(k0, h0, c0, reaps, stopping, k, h, c) && OneTurn(turn, k0.intact, failed, h0, c0, reaps, c)
    && (turn > 0 && k0.intact ==> AllReaped(first, reaps))
  }

  lemma LoopStart(k: Kernel, h: map<Pid, Handle>, c: map<Serial, int>, first: Kernel, reaped: seq<(Pid, int)>,
                  stopping: bool, failed: bool)
    ensures LoopAt(0, k, h, c, first, reaped[|reaped|..], stopping, failed, k, h, c)
  {
    hide Progress, AllReaped, CodesAfterReaps;
    ProgressRefl(k, h, c, reaped, stopping);
    NoReaps(h, c, reaped[|reaped|..]);
    FirstTurn(k.intact, failed, h, c, reaped[|reaped|..]);
  }

  lemma LoopNext(turn: nat, k0: Kernel, h0: map<Pid, Handle>, c0: map<Serial, int>, first: Kernel,
                 a: seq<(Pid, int)>, s1: bool, k1: Kernel, h1: map<Pid, Handle>, c1: map<Serial, int>,
                 first1: Kernel, b: seq<(Pid, int)>, stopping: bool, failed: bool,
                 k: Kernel, h: map<Pid, Handle>, c: map<Serial, int>)
    requires LoopAt(turn, k0, h0, c0, first, a, s1, false, k1, h1, c1) && (s1 ==> stopping)
    requires TurnReaped(k1, h1, c1, first1, b, stopping, k, h, c) && (!k1.intact ==> failed)
    requires turn == 0 ==> a == [] && k1 == k0 && h1 == h0 && c1 == c0 && first1 == first
    ensures LoopAt(turn + 1, k0, h0, c0, first, a + b, stopping, failed, k, h, c)
  {
    hide Progress, AllReaped, OneTurn, CodesAfterReaps;
    assert turn == 0 ==> a + b == b;
    NextTurn(turn, k0.intact, h0, c0, h1, c1, a, a + b, failed, c);
    ProgressTrans(k0, h0, c0, a, s1, k1, h1, c1, b, stopping, k, h, c);
    if k0.intact {
      AllReapedMore(first, if turn == 0 then [] else a, a + b, turn > 0);
    }
  }

  lemma LoopEnd(turn: nat, k0: Kernel, failed0: bool, h0: map<Pid, Handle>, fds0: map<Fd, Serial>,
                c0: map<Serial, int>, leaders: map<Serial, Pid>, first: Kernel, reaps: seq<(Pid, int)>, stopping: bool,
                failed: bool, single: bool, k: Kernel, h: map<Pid, Handle>, c: map<Serial, int>)
    requires LoopAt(turn, k0, h0, c0, first, reaps, stopping, failed, k, h, c) && Owns(k0, h0, fds0, {}, c0, leaders)
    requires (failed0 ==> turn == 0) && (single ==> turn <= 1)
    ensures Finished(k0, failed0, h0, c0, reaps, !stopping || single, k, h, c)
    ensures turn > 0 && k0.intact ==> AllReaped(first, reaps)
  {
    hide Progress, AllReaped, Owns, Finished;
    TurnsOver(turn, k0.intact, failed, h0, c0, reaps, c);
    FinishMeans(k0, failed0, h0, fds0, c0, leaders, reaps, stopping, single, k, h, c);
  }

  /** What finishing does to processes and codes: statuses once known stay known; codes of leaders without a handle
      and codes that cannot be overwritten survive; true codes stay true when no handle was stale; without reaping no
      code changes, and in a calm or single turn the codes are exactly those after the reaps. */
  ghost predicate Finished(k0: Kernel, failed0: bool, h0: map<Pid, Handle>, c0: map<Serial, int>,
                           reaps: seq<(Pid, int)>, exact: bool, k: Kernel, h: map<Pid, Handle>, c: map<Serial, int>)
  {
    && DeathsStay(k0, k) && CodesKept(h0, c0, h, c) && Spared(k0, failed0, h0, c0, c)
    && (NoStale(h0, c0) && Truthful(k0, c0) ==> Truthful(k, c))
    && (exact ==> c == CodesAfterReaps(h0, c0, reaps)) && (reaps == [] ==> c == c0)
    && (k0.tree == map[] ==> k.tree == map[])
  }

  lemma FinishMeans(k0: Kernel, failed0: bool, h0: map<Pid, Handle>, fds0: map<Fd, Serial>, c0: map<Serial, int>,
                    leaders0: map<Serial, Pid>, reaps: seq<(Pid, int)>, stopping: bool, single: bool,
                    k: Kernel, h: map<Pid, Handle>, c: map<Serial, int>)
    requires Owns(k0, h0, fds0, {}, c0, leaders0) && Progress(k0, h0, c0, reaps, stopping, k, h, c)
    requires failed0 || !k0.intact ==> c == c0
    requires single ==> c == CodesAfterReaps(h0, c0, reaps)
    ensures Finished(k0, failed0, h0, c0, reaps, !stopping || single, k, h, c)
  {
    hide Owns, Progress, Overwritable, Fixed, CodesKept, DeathsStay, NoStale, Truthful, CodesAfterReaps;
    if k0.intact && !failed0 {
      NotOverwritable(k0, failed0, h0, fds0, {}, c0, leaders0);
    }
    ProgressMeans(k0, h0, c0, reaps, stopping, k, h, c);
  }

  /** Closing pidfds afterwards changes none of it. */
  lemma FinishedClosed(k0: Kernel, failed0: bool, h0: map<Pid, Handle>, c0: map<Serial, int>,
                       reaps: seq<(Pid, int)>, exact: bool, k: Kernel, held: map<Pid, Handle>, h: map<Pid, Handle>,
                       c: map<Serial, int>)
    requires Finished(k0, failed0, h0, c0, reaps, exact, k, held, c) && CodesKept(held, c, h, c)
    ensures Finished(k0, failed0, h0, c0, reaps, exact, k, h, c)
  {
    hide CodesKept, Spared, DeathsStay, NoStale, Truthful, CodesAfterReaps;
    CodesKeptTrans(h0, c0, held, c, h, c);
  }

  lemma NoHandles(h: map<Pid, Handle>, c: map<Serial, int>)
    ensures CodesKept(h, c, map[], c)
  {
    var none: map<Pid, Handle> := map[];
    assert forall s: Serial :: !HeldFor(none, s);
  }

  lemma AllReapedMore(first: Kernel, before: seq<(Pid, int)>, after: seq<(Pid, int)>, was: bool)
    requires was ==> before <= after && AllReaped(first, before)
    requires !was ==> AllReaped(first, after)
    ensures AllReaped(first, after)
  {
    if was {
      forall p | IsChild(first, p) && first.tree[p].exited ensures FirstReap(after, p) == Some(first.tree[p].status) {
        FirstReapMore(before, after, p);
      }
    }
  }

  lemma {:induction false} FirstReapMore(before: seq<(Pid, int)>, after: seq<(Pid, int)>, p: Pid)
    requires before <= after && FirstReap(before, p).Some?
    ensures FirstReap(after, p) == FirstReap(before, p)
  {
    if before != after {
      FirstReapMore(before, after[..|after| - 1], p);
    }
  }

  lemma TrackedRefl(k: Kernel, h: map<Pid, Handle>)
    ensures Tracked(k, h, k, h)
  {
    StaysRefl(k);
  }

  lemma TrackedMore(k0: Kernel, h0: map<Pid, Handle>, k: Kernel, h: map<Pid, Handle>, k': Kernel, h': map<Pid, Handle>)
    requires Tracked(k0, h0, k, h) && ChildrenStay(k, k') && FewerLeaders(h, h')
    ensures Tracked(k0, h0, k', h')
  {
    hide ChildrenStay;
    StaysTrans(k0, k, k');
    FewerTrans(h0, h, h');
  }

  lemma QuietRemove(k: Kernel, pid: Pid)
    ensures AllExited(k) ==> AllExited(Remove(k, pid))
  {
  }

  lemma QuietLive(k: Kernel)
    requires OnlyLive(k)
    ensures !AllExited(k)
  {
  }

  lemma StillLive(k: Kernel, children: set<Pid>, exited: set<Pid>)
    requires children == (set p | p in k.tree && k.tree[p].parent == k.owner) && children != {}
    requires exited == (set p | p in children && k.tree[p].exited) && exited == {}
    ensures OnlyLive(k) && forall p :: IsChild(k, p) ==> !k.tree[p].exited
  {
    assert forall p :: IsChild(k, p) ==> p in children && p !in exited;
    var c :| c in children;
    assert IsChild(k, c);
  }

  lemma NoSignals(signals: seq<Signal>, killFrom: nat)
    ensures Graceful(signals, |signals|, killFrom)
  {
  }

  lemma AddSignal(signals: seq<Signal>, from: nat, killFrom: nat, s: Signal)
    requires from <= |signals| && Graceful(signals, from, killFrom) && (s.kill <==> s.at >= killFrom)
    ensures Graceful(signals + [s], from, killFrom) && SignalledAt((signals + [s])[from..], s.to)
    ensures forall to :: SignalledAt(signals[from..], to) ==> SignalledAt((signals + [s])[from..], to)
  {
    var now := (signals + [s])[from..];
    assert now[|now| - 1] == s;
    forall to | SignalledAt(signals[from..], to) ensures SignalledAt(now, to) {
      var i :| 0 <= i < |signals[from..]| && signals[from..][i].to == to;
      assert now[i].to == to;
    }
  }

  lemma MoreSignals(before: seq<Signal>, after: seq<Signal>, from: nat, killFrom: nat)
    requires from <= |before| && before <= after
    requires Graceful(before, from, killFrom) && Graceful(after, |before|, killFrom)
    ensures Graceful(after, from, killFrom)
  {
    forall i | from <= i < |after| ensures after[i].kill <==> after[i].at >= killFrom {
      assert i < |before| ==> after[i] == before[i];
    }
  }

  lemma LaunchOwns(k: Kernel, handles: map<Pid, Handle>, fds: map<Fd, Serial>,
                   codes: map<Serial, int>, leaders: map<Serial, Pid>, pid: Pid)
    requires Owns(k, handles, fds, {}, codes, leaders) && Free(k, pid)
    ensures Owns(AddChild(k, pid, k.owner), handles, fds, {}, codes, leaders)
    ensures k.next !in codes && k.next !in leaders && (pid in handles ==> !Awaited(handles[pid], codes))
    ensures IsChild(AddChild(k, pid, k.owner), pid)
  {
    hide FdsHeld, Valid;
    AddChildOk(k, pid, k.owner);
    var k' := AddChild(k, pid, k.owner);
    forall p | p in handles && Awaited(handles[p], codes)
      ensures handles[p].fd in fds && p != pid && BoundAt(k', p, fds[handles[p].fd], handles[p].process)
    {
      assert BoundAt(k, p, fds[handles[p].fd], handles[p].process);
    }
  }

  lemma LeaderIsChild(k: Kernel, handles: map<Pid, Handle>, fds: map<Fd, Serial>,
                      codes: map<Serial, int>, leaders: map<Serial, Pid>, leader: Serial)
    requires Owns(k, handles, fds, {}, codes, leaders) && leader in leaders && leader !in codes
    ensures IsChild(k, leaders[leader]) && k.tree[leaders[leader]].serial == leader
    ensures leaders[leader] in handles && handles[leaders[leader]].process == Some(leader)
  {
    hide FdsHeld, Valid;
    var p := leaders[leader];
    assert Awaited(handles[p], codes);
    assert BoundAt(k, p, fds[handles[p].fd], handles[p].process);
  }

  lemma HandleLeader(k: Kernel, handles: map<Pid, Handle>, fds: map<Fd, Serial>,
                     codes: map<Serial, int>, leaders: map<Serial, Pid>, pid: Pid)
    requires Owns(k, handles, fds, {}, codes, leaders) && pid in handles && handles[pid].process.Some?
    ensures handles[pid].process.value in leaders
  {
    hide FdsHeld, Valid, Bound;
  }

  /** Learning a return code only turns handles stale. */
  lemma CodeOwns(k: Kernel, handles: map<Pid, Handle>, fds: map<Fd, Serial>,
                 codes: map<Serial, int>, leaders: map<Serial, Pid>, leader: Serial, status: int)
    requires Owns(k, handles, fds, {}, codes, leaders) && leader in leaders
    ensures Owns(k, handles, fds, {}, codes[leader := status], leaders)
  {
    hide FdsHeld, Valid;
    forall p | p in handles && Awaited(handles[p], codes[leader := status])
      ensures handles[p].fd in fds && BoundAt(k, p, fds[handles[p].fd], handles[p].process)
    {
      assert Awaited(handles[p], codes);
    }
  }

  /** Reaping an exited child nobody awaits any more. */
  lemma ReapOwns(k: Kernel, handles: map<Pid, Handle>, fds: map<Fd, Serial>,
                 codes: map<Serial, int>, leaders: map<Serial, Pid>, pid: Pid)
    requires Owns(k, handles, fds, {}, codes, leaders) && IsChild(k, pid) && k.tree[pid].exited
    requires pid in handles ==> !Awaited(handles[pid], codes)
    ensures Owns(Remove(k, pid), handles, fds, {}, codes, leaders)
  {
    hide FdsHeld, Valid;
    RemoveOk(k, pid);
    var k' := Remove(k, pid);
    forall p | p in handles && Awaited(handles[p], codes)
      ensures handles[p].fd in fds && BoundAt(k', p, fds[handles[p].fd], handles[p].process)
    {
      assert BoundAt(k, p, fds[handles[p].fd], handles[p].process);
    }
  }

  lemma ExitedStays(k: Kernel, k': Kernel, p: Pid)
    requires ChildrenStay(k, k') && IsChild(k, p) && k.tree[p].exited
    ensures IsChild(k', p) && k'.tree[p] == k.tree[p]
  {
  }

  lemma RemoveShrinks(k: Kernel, pid: Pid)
    requires pid in k.tree
    ensures |Remove(k, pid).tree| < |k.tree|
  {
    var t := k.tree - {pid};
    assert t.Keys == k.tree.Keys - {pid};
    assert |t.Keys| == |t| && |k.tree.Keys| == |k.tree|;
  }

  lemma AwaitedWaitable(k: Kernel, handles: map<Pid, Handle>, fds: map<Fd, Serial>, opening: set<Fd>,
                        codes: map<Serial, int>, leaders: map<Serial, Pid>, pid: Pid)
    requires Owns(k, handles, fds, opening, codes, leaders) && pid in handles && Awaited(handles[pid], codes)
    ensures handles[pid].fd in fds && Waitable(k, fds[handles[pid].fd])
  {
    hide FdsHeld, Valid;
    assert BoundAt(k, pid, fds[handles[pid].fd], handles[pid].process);
  }

  /** With no process left, no handle is awaited and every leader's status is known. */
  lemma SettledOwns(k: Kernel, handles: map<Pid, Handle>, fds: map<Fd, Serial>,
                    codes: map<Serial, int>, leaders: map<Serial, Pid>)
    requires Owns(k, handles, fds, {}, codes, leaders) && k.tree == map[]
    ensures forall s :: s in leaders ==> s in codes
    ensures Owns(k, map[], map[], {}, codes, leaders)
  {
    forall s | s in leaders ensures s in codes {
      if s !in codes {
        LeaderIsChild(k, handles, fds, codes, leaders, s);
      }
    }
  }

  lemma CloseOpening(k: Kernel, handles: map<Pid, Handle>, fds: map<Fd, Serial>, fd: Fd,
                     codes: map<Serial, int>, leaders: map<Serial, Pid>)
    requires Owns(k, handles, fds, {fd}, codes, leaders)
    ensures Owns(k, handles, fds - {fd}, {}, codes, leaders)
  {
    hide Valid;
  }

  lemma TrackedChild(k0: Kernel, h0: map<Pid, Handle>, k: Kernel, h: map<Pid, Handle>, p: Pid)
    requires Tracked(k0, h0, k, h)
    ensures IsChild(k0, p) ==> IsChild(k, p)
  {
    hide FewerLeaders;
    ChildStays(k0, k, p);
  }

  lemma ChildStays(k: Kernel, k': Kernel, p: Pid)
    requires ChildrenStay(k, k')
    ensures IsChild(k, p) ==> IsChild(k', p) && k'.tree[p].serial == k.tree[p].serial
    ensures k'.owner == k.owner && k.next <= k'.next
  {
  }

  lemma OwnsValid(k: Kernel, handles: map<Pid, Handle>, fds: map<Fd, Serial>, opening: set<Fd>,
                  codes: map<Serial, int>, leaders: map<Serial, Pid>)
    requires Owns(k, handles, fds, opening, codes, leaders)
    ensures Valid(k) && opening <= fds.Keys
    ensures forall p :: p in handles ==> handles[p].fd in fds
  {
  }
}
