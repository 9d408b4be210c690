/** `Cohort`: one producer, its consumers, and a reclaim guarded by a write-ahead receipt. */
module CohortScope {
  import opened Sets
  import opened Wrappers
  import opened Names
  import opened OwnedTree
  import opened ProcessKernel

  type Path = string
  type Key = string  // a target binding, serialised

  /** What `_open` observed of an executable: parent identity, file identity, digest. */
  datatype Record = Record(parent: int, identity: int, digest: string)

  /** One line of Cargo JSON, as far as `_record` looks at it. */
  datatype Message = Other | Artifact(key: Key, isFresh: bool, executable: Path)
  datatype Line = NotJson | Json(message: Message)

  /** One entry of the receipt file. */
  datatype Entry = Authorization(records: map<Path, Record>) | Reclaimed(path: Path)

  /** The durable side: files unlinked so far, entries written to the receipt, how many of them an
      fsync has covered, and whether the receipt's directory entry has been fsynced. */
  datatype Disk = Disk(unlinked: set<Path>, log: seq<Entry>, synced: nat, named: bool)

  /** How far one `_persist` gets before it raises. */
  datatype Persistence = Complete | BeforeWrite | BeforeSync

  // ----- what a crash may leave behind -----

  /** After a crash in `d` the receipt holds its first `n` entries: all that were fsynced once the
      name is durable, any number of the rest, possibly nothing before that. */
  ghost predicate Survives(d: Disk, n: nat) {
    (if d.named then d.synced else 0) <= n <= |d.log|
  }

  ghost function ReclaimedIn(log: seq<Entry>): set<Path> {
    set e | e in log && e.Reclaimed? :: e.path
  }

  ghost predicate AuthorisedBy(log: seq<Entry>, p: Path) {
    log != [] && log[0].Authorization? && p in log[0].records
  }

  ghost predicate Safe(d: Disk) {
    && d.synced <= |d.log|
    && ReclaimedIn(d.log) <= d.unlinked
    && (d.unlinked != {} ==> d.named && d.synced > 0)
    && (forall p :: p in d.unlinked ==> AuthorisedBy(d.log, p))
    && |d.unlinked| <= |ReclaimedIn(d.log[..d.synced])| + 1
  }

  /** Whatever survives a crash: recorded reclaims were unlinked, every unlinked file is authorised by
      the surviving receipt, and at most one unlinked file is missing from it. */
  lemma CrashSafe(d: Disk, n: nat)
    requires Safe(d) && Survives(d, n)
    ensures ReclaimedIn(d.log[..n]) <= d.unlinked
    ensures forall p :: p in d.unlinked ==> AuthorisedBy(d.log[..n], p)
    ensures |d.unlinked| <= |ReclaimedIn(d.log[..n])| + 1
  {
    var part := d.log[..n];
    assert forall e :: e in part ==> e in d.log;
    if d.unlinked != {} {
      assert part[0] == d.log[0];
      forall e | e in d.log[..d.synced] ensures e in part {
        var i :| 0 <= i < d.synced && d.log[..d.synced][i] == e;
        assert part[i] == e;
      }
      SubsetCount(ReclaimedIn(d.log[..d.synced]), ReclaimedIn(part));
    }
  }

  /** Power loss may also take unlinks back, since their directories are never fsynced: any part of the files
      unlinked may be there again. Those still gone are authorised by the surviving receipt, at most one of them is
      missing from its records, and every recorded one was at least unlinked at the time. */
  lemma PowerLossSafe(d: Disk, n: nat, gone: set<Path>)
    requires Safe(d) && Survives(d, n) && gone <= d.unlinked
    ensures forall p :: p in gone ==> AuthorisedBy(d.log[..n], p)
    ensures |gone - ReclaimedIn(d.log[..n])| <= 1
    ensures ReclaimedIn(d.log[..n]) <= d.unlinked
  {
    CrashSafe(d, n);
    var recorded := ReclaimedIn(d.log[..n]);
    SubsetCount(gone - recorded, d.unlinked - recorded);
    assert d.unlinked == recorded + (d.unlinked - recorded);
  }

  /** Whatever power loss takes, the surviving records are true of the files that are gone. */
  ghost predicate RecordsHold(d: Disk) {
    forall n: nat, gone: set<Path> :: Survives(d, n) && gone <= d.unlinked ==> ReclaimedIn(d.log[..n]) <= gone
  }

  /** A recorded file can so be there again after power loss: the records are true of what is gone whatever is
      lost exactly as long as they record nothing. */
  lemma RecordsOutliveUnlinksIff(d: Disk)
    requires Safe(d)
    ensures RecordsHold(d) <==> ReclaimedIn(d.log) == {}
  {
    if ReclaimedIn(d.log) == {} {
      forall n: nat, gone: set<Path> | Survives(d, n) && gone <= d.unlinked ensures ReclaimedIn(d.log[..n]) <= gone {
        RecordedBefore(d.log, n);
      }
    } else {
      RecordLost(d);
    }
  }

  lemma RecordedBefore(log: seq<Entry>, n: nat)
    requires n <= |log|
    ensures ReclaimedIn(log[..n]) <= ReclaimedIn(log)
  {
    assert forall e :: e in log[..n] ==> e in log;
  }

  lemma RecordLost(d: Disk)
    requires Safe(d) && ReclaimedIn(d.log) != {}
    ensures !RecordsHold(d)
  {
    var none: set<Path> := {};
    assert d.log[..|d.log|] == d.log;
    assert Survives(d, |d.log|) && none <= d.unlinked && !(ReclaimedIn(d.log[..|d.log|]) <= none);
  }

  // ----- one step each -----

  function Written(d: Disk, e: Entry): Disk {
    d.(log := d.log + [e])
  }

  function Synced(d: Disk): Disk {
    d.(synced := |d.log|)
  }

  lemma WrittenSafe(d: Disk, e: Entry)
    requires Safe(d) && (e.Reclaimed? ==> e.path in d.unlinked) && (d.log == [] || e.Reclaimed?)
    ensures Safe(Written(d, e))
  {
    var w := Written(d, e);
    assert w.log[..d.synced] == d.log[..d.synced];
    forall p | p in d.unlinked ensures AuthorisedBy(w.log, p) {
      assert AuthorisedBy(d.log, p);
    }
  }

  lemma SyncedSafe(d: Disk)
    requires Safe(d)
    ensures Safe(Synced(d))
  {
    assert d.log[..|d.log|] == d.log;
    forall e | e in d.log[..d.synced] ensures e in d.log {
    }
    SubsetCount(ReclaimedIn(d.log[..d.synced]), ReclaimedIn(d.log));
  }

  /** The receipt accounts for everything unlinked so far. */
  ghost predicate Settled(d: Disk) {
    Safe(d) && d.synced == |d.log| && d.unlinked == ReclaimedIn(d.log)
  }

  lemma UnlinkSafe(d: Disk, p: Path)
    requires Settled(d) && d.named && d.log != [] && AuthorisedBy(d.log, p)
    ensures Safe(d.(unlinked := d.unlinked + {p}))
  {
    assert d.log[..|d.log|] == d.log;
    if p in d.unlinked { assert d.unlinked + {p} == d.unlinked; }
  }

  lemma RecordSettles(d: Disk, p: Path)
    requires Settled(d)
    ensures var u := d.(unlinked := d.unlinked + {p});
      Synced(Written(u, Reclaimed(p))).unlinked == ReclaimedIn(Synced(Written(u, Reclaimed(p))).log)
  {
    var log := d.log + [Reclaimed(p)];
    assert forall e :: e in log <==> e in d.log || e == Reclaimed(p);
    assert ReclaimedIn(log) == ReclaimedIn(d.log) + {p} by {
      assert Reclaimed(p) in log;
      forall q | q in ReclaimedIn(d.log) ensures q in ReclaimedIn(log) {
        assert Reclaimed(q) in log;
      }
    }
  }

  // ----- the scope itself -----

  /** How a child command ended: its exit status, or the exception that ended the wait. */
  datatype Step = Exited(status: int) | Raises(interrupt: bool)

  datatype Error = NoError | Denied | Interrupt

  /** A command to run: whether its process can be started, the pid it gets if that is free, and how many waits
      pass before the run is interrupted there. */
  datatype Command = Command(spawns: bool, pid: Pid, waits: nat)

  /** Everything the run does not decide itself; `consumer(k)` is the command for the k-th executable. */
  datatype Script = Script(
    owner: bool, environment: bool, producer: Command, lines: seq<Line>, consumerArgs: set<Path>,
    consumer: nat -> Command,
    timeout: nat, grace: nat, tables: seq<ChildTable>, restored: bool,
    receiptOpens: bool, authorization: Persistence, nameSynced: bool, unlinks: seq<bool>, persists: seq<Persistence>)

  /** The process of this leader has exited with this status. */
  ghost predicate ExitedAs(leaders: map<Serial, Pid>, k: Kernel, leader: Serial, status: int) {
    leader in leaders && leader in k.deaths && k.deaths[leader] == status
  }

  ghost predicate AllExitedAs(leaders: map<Serial, Pid>, k: Kernel, ran: seq<Serial>, status: int) {
    forall i :: 0 <= i < |ran| ==> ExitedAs(leaders, k, ran[i], status)
  }

  lemma ExitedStill(leaders: map<Serial, Pid>, k: Kernel, leaders': map<Serial, Pid>, k': Kernel,
                    ran: seq<Serial>, status: int)
    requires AllExitedAs(leaders, k, ran, status) && MoreLeaders(leaders, leaders') && DeathsStay(k, k')
    ensures AllExitedAs(leaders', k', ran, status)
  {
  }

  /** Observation `i` shows exactly this record. */
  predicate Shows(obs: seq<Option<Record>>, i: nat, r: Record) {
    i < |obs| && obs[i] == Some(r)
  }

  /** Observation `i` shows the same file, as far as a consumer is concerned. */
  predicate ShowsFile(obs: seq<Option<Record>>, i: nat, r: Record) {
    i < |obs| && obs[i].Some? && obs[i].value.identity == r.identity && obs[i].value.digest == r.digest
  }

  ghost predicate SeenAmong(obs: seq<Option<Record>>, n: nat, r: Record) {
    exists i :: 0 <= i < n && Shows(obs, i, r)
  }

  /** Every record is one of the first `n` observations. */
  ghost predicate CapturedFrom(obs: seq<Option<Record>>, n: nat, records: map<Path, Record>) {
    n <= |obs| && forall p :: p in records ==> SeenAmong(obs, n, records[p])
  }

  /** The observations left, and records made from those before. */
  ghost predicate CapturedUpTo(before: seq<Option<Record>>, after: seq<Option<Record>>, records: map<Path, Record>) {
    && |after| <= |before| && after == before[|before| - |after|..]
    && CapturedFrom(before, |before| - |after|, records)
  }

  lemma CaptureSeen(obs: seq<Option<Record>>, n: nat, records: map<Path, Record>, path: Path, r: Record)
    requires CapturedFrom(obs, n, records) && Shows(obs, n, r)
    ensures CapturedFrom(obs, n + 1, records[path := r])
  {
    var more := records[path := r];
    forall p | p in more ensures SeenAmong(obs, n + 1, more[p]) {
      if p == path {
        assert Shows(obs, n, r);
      } else {
        assert SeenAmong(obs, n, records[p]);
      }
    }
  }

  /** An executable observed exactly as recorded twice: before any deletion and right before its own. */
  ghost predicate ObservedTwice(obs: seq<Option<Record>>, order: seq<Path>, granted: map<Path, Record>, p: Path) {
    exists j :: 0 <= j < |order| && order[j] == p && p in granted
      && Shows(obs, j, granted[p]) && Shows(obs, |order| + j, granted[p])
  }

  /** Why `p` may be unlinked. It was captured from one of the first `n` observations, observed with the same
      identity and digest before it was consumed, and exactly as recorded twice more. */
  ghost predicate Justified(obs: seq<Option<Record>>, n: nat, granted: map<Path, Record>, consumed: seq<Path>,
                            p: Path)
  {
    exists j :: 0 <= j < |consumed| && consumed[j] == p && JustifiedAt(obs, n, granted, |consumed|, p, j)
  }

  ghost predicate JustifiedAt(obs: seq<Option<Record>>, n: nat, granted: map<Path, Record>, m: nat, p: Path, j: nat) {
    && p in granted && SeenAmong(obs, n, granted[p]) && ShowsFile(obs, n + j, granted[p])
    && Shows(obs, n + m + j, granted[p]) && Shows(obs, n + 2 * m + j, granted[p])
  }

  lemma Justify(obs: seq<Option<Record>>, n: nat, granted: map<Path, Record>, consumed: seq<Path>, p: Path)
    requires CapturedFrom(obs, n, granted) && |consumed| <= |obs| - n
    requires forall k :: 0 <= k < |consumed| ==> consumed[k] in granted && ShowsFile(obs, n + k, granted[consumed[k]])
    requires ObservedTwice(obs[n..][|consumed|..], consumed, granted, p)
    ensures Justified(obs, n, granted, consumed, p)
  {
    var m, rest := |consumed|, obs[n..][|consumed|..];
    var j :| 0 <= j < m && consumed[j] == p && p in granted
      && Shows(rest, j, granted[p]) && Shows(rest, m + j, granted[p]);
    assert rest[j] == obs[n + m + j] && rest[m + j] == obs[n + 2 * m + j];
    assert JustifiedAt(obs, n, granted, m, p, j);
  }

  /** Exactly these processes were started, each once. */
  ghost predicate JustRan(before: set<Serial>, after: set<Serial>, ran: seq<Serial>) {
    NoDup(ran) && Elements(ran) !! before && after == before + Elements(ran)
  }

  lemma NoneRan(before: set<Serial>)
    ensures JustRan(before, before, [])
  {
  }

  lemma OneMoreRan(before: set<Serial>, after: set<Serial>, ran: seq<Serial>, leader: Serial)
    requires JustRan(before, after, ran) && leader !in after
    ensures JustRan(before, after + {leader}, ran + [leader])
  {
    ElementsSnoc(ran, leader);
  }

  lemma ProducerRan(before: set<Serial>, producer: Serial, after: set<Serial>, ran: seq<Serial>)
    requires producer !in before && JustRan(before + {producer}, after, ran)
    ensures JustRan(before, after, [producer] + ran)
  {
    forall l ensures l in Elements([producer] + ran) <==> l == producer || l in Elements(ran) {
    }
    assert producer !in ran by {
      assert producer in before + {producer};
      assert producer !in Elements(ran);
    }
  }

  /** When the processes that ran all exited with 0, every process started did. */
  lemma EveryoneRan(leaders: map<Serial, Pid>, k: Kernel, ran: seq<Serial>)
    requires JustRan({}, leaders.Keys, ran) && AllExitedAs(leaders, k, ran, 0)
    ensures |leaders| == |ran| && forall l :: l in leaders ==> ExitedAs(leaders, k, l, 0)
  {
    hide NoDup, ExitedAs;
    NoDupLength(ran);
    forall l | l in leaders ensures ExitedAs(leaders, k, l, 0) {
      assert l in Elements(ran);
      MembersOf(ran);
      var i :| 0 <= i < |ran| && ran[i] == l;
    }
  }

  /** The producer and `m` consumers were started, nobody else, and every one of them exited with 0. */
  ghost predicate EveryProcessSucceeded(leaders: map<Serial, Pid>, k: Kernel, ran: seq<Serial>, m: nat) {
    && |ran| == m + 1 && JustRan({}, leaders.Keys, ran)
    && |leaders| == m + 1 && forall l :: l in leaders ==> ExitedAs(leaders, k, l, 0)
  }

  ghost predicate SomeoneExitedAs(leaders: map<Serial, Pid>, k: Kernel, status: int) {
    exists l :: ExitedAs(leaders, k, l, status)
  }

  lemma SomeoneStill(leaders: map<Serial, Pid>, k: Kernel, leaders': map<Serial, Pid>, k': Kernel, status: int)
    requires SomeoneExitedAs(leaders, k, status) && MoreLeaders(leaders, leaders') && DeathsStay(k, k')
    ensures SomeoneExitedAs(leaders', k', status)
  {
    var l :| ExitedAs(leaders, k, l, status);
    assert ExitedAs(leaders', k', l, status);
  }

  /** The `i`-th unlink of the reclaim works: nobody stops it, it is recorded, and the file is seen unchanged. */
  ghost predicate StepFine(s: Script, obs: seq<Option<Record>>, order: seq<Path>, granted: map<Path, Record>, i: nat)
    requires i < |order|
  {
    && i < |s.unlinks| && s.unlinks[i] && i < |s.persists| && s.persists[i].Complete?
    && order[i] in granted && Shows(obs, |order| + i, granted[order[i]])
  }

  /** The reclaim goes through: all files are seen unchanged before the first deletion, the authorisation becomes
      durable, and every single unlink works. */
  ghost predicate ReclaimWorks(s: Script, obs: seq<Option<Record>>, order: seq<Path>, granted: map<Path, Record>) {
    && s.receiptOpens && s.authorization.Complete? && s.nameSynced && |obs| >= |order|
    && (forall j :: 0 <= j < |order| ==> order[j] in granted && Shows(obs, j, granted[order[j]]))
    && forall j :: 0 <= j < |order| ==> StepFine(s, obs, order, granted, j)
  }

  /** The reclaim goes through on the observations left after capture and consumption. */
  ghost predicate WorksAfter(s: Script, obs: seq<Option<Record>>, n: nat, consumed: seq<Path>,
                             granted: map<Path, Record>)
  {
    n <= |obs| && |consumed| <= |obs| - n && ReclaimWorks(s, obs[n..][|consumed|..], consumed, granted)
  }

  /** A wait was cut short: the scope was cancelled, or the status of some leader is not collected. */
  ghost predicate Unfinished(tree: ClippyTree)
    reads tree
  {
    tree.cancelled || exists l :: l in tree.leaders && l !in tree.codes
  }

  /** A command that did not end could not be started, or the wait for it was cut short. */
  ghost predicate Stuck(tree: ClippyTree, c: Command)
    reads tree
  {
    !c.spawns || Unfinished(tree)
  }

  /** `_launch(tree, command, env)`: start the process, bind it, wait for it. */
  method Execute(tree: ClippyTree, c: Command) returns (step: Step, ghost leader: Serial)
    requires tree.Inv() && tree.opening == {}
    modifies tree
    ensures tree.Inv() && tree.opening == {} && tree.failed == old(tree.failed) && tree.stopping == old(tree.stopping)
    ensures DeathsStay(old(tree.k), tree.k) && MoreLeaders(old(tree.leaders), tree.leaders)
    ensures step.Exited? ==> ExitedAs(tree.leaders, tree.k, leader, step.status)
    ensures step.Exited? ==> leader !in old(tree.leaders) && tree.leaders.Keys == old(tree.leaders).Keys + {leader}
    ensures step.Raises? && !step.interrupt <==> !c.spawns
    ensures step.Raises? && step.interrupt ==> Unfinished(tree)
    // short of a cancellation it is waited for as long as the command says, or until it has exited
    ensures step.Raises? && step.interrupt && !tree.cancelled && c.waits > 0 ==>
      leader in tree.leaders && tree.leaders[leader] in tree.k.tree && !tree.k.tree[tree.leaders[leader]].exited
    ensures step.Raises? && step.interrupt && !tree.cancelled ==>
      tree.schedule == [] || |tree.schedule| + c.waits <= |old(tree.schedule)|
    ensures tree.reaped == old(tree.reaped) && tree.sent == old(tree.sent)
  {
    hide Owns, ProcessKernel.Valid, ChildrenStay, AfterTurn, DeathsStay;
    leader := 0;
    DeathsRefl(tree.k);
    if !c.spawns {
      return Raises(false), leader;
    }
    FreshSerial(tree.k, tree.handles, tree.fds, tree.opening, tree.codes, tree.leaders);
    var used := tree.k.tree.Keys + tree.k.foreign.Keys + {tree.k.owner};
    var pid := if c.pid !in used then c.pid else LowestUnused(used, 0);
    var started := tree.Launch(pid);
    leader := started;
    if tree.cancelled {
      return Raises(true), leader;
    }
    ghost var k1 := tree.k;
    DeathsRefl(k1);
    var i := 0;
    while i < c.waits
      invariant tree.Inv() && tree.opening == {}
      invariant tree.failed == old(tree.failed) && tree.stopping == old(tree.stopping)
      invariant tree.reaped == old(tree.reaped) && tree.sent == old(tree.sent)
      invariant tree.leaders == old(tree.leaders)[started := pid] && started !in tree.codes
      invariant i <= c.waits && (i > 0 ==> pid in tree.k.tree && !tree.k.tree[pid].exited)
      invariant tree.schedule == [] || |tree.schedule| + i <= |old(tree.schedule)|
      invariant DeathsStay(k1, tree.k)
    {
      ghost var k2 := tree.k;
      var code := tree.WaitLeader(pid, started);
      DeathsTrans(k1, k2, tree.k);
      if code.Some? {
        DeathsTrans(old(tree.k), k1, tree.k);
        return Exited(code.value), leader;
      }
      i := i + 1;
    }
    DeathsTrans(old(tree.k), k1, tree.k);
    step := Raises(true);
  }

  /** `run` returns a status and what it consumed and reclaimed, or raises. */
  datatype Outcome = Raised | Returned(status: Option<int>, consumed: seq<Path>, reclaimed: seq<Path>)

  /** The capture tables: one executable per target and one target per executable. */
  ghost predicate Tables(records: map<Path, Record>, order: seq<Path>, targetPaths: map<Key, Path>,
                         pathTargets: map<Path, Key>, captured: set<Key>)
  {
    && NoDup(order) && (forall p :: p in order <==> p in records)
    && records.Keys <= pathTargets.Keys && captured == targetPaths.Keys
    && (forall t :: t in targetPaths ==> targetPaths[t] in pathTargets && pathTargets[targetPaths[t]] == t)
    && (forall p :: p in pathTargets ==> pathTargets[p] in targetPaths && targetPaths[pathTargets[p]] == p)
  }

  const UNTOUCHED := Disk({}, [], 0, false)

  /** What one system call does to the durable side: an entry written, the receipt fsynced, its name fsynced, or one
      file unlinked. */
  ghost predicate Atomic(a: Disk, b: Disk) {
    || (exists e :: b == Written(a, e))
    || b == Synced(a)
    || b == a.(named := true)
    || (exists p :: b == a.(unlinked := a.unlinked + {p}))
  }

  /** The durable states so far: from nothing at all, one system call at a time, every one safe, to the present. */
  ghost predicate Traced(trace: seq<Disk>, disk: Disk) {
    && |trace| > 0 && trace[0] == UNTOUCHED && trace[|trace| - 1] == disk
    && (forall i :: 0 <= i < |trace| ==> Safe(trace[i]))
    && (forall i :: 0 <= i < |trace| - 1 ==> Atomic(trace[i], trace[i + 1]))
  }

  lemma TraceAdd(trace: seq<Disk>, disk: Disk, d: Disk)
    requires Traced(trace, disk) && Safe(d) && Atomic(disk, d)
    ensures Traced(trace + [d], d)
  {
    hide Safe, Atomic;
  }

  lemma WriteIsAtomic(d: Disk, e: Entry)
    ensures Atomic(d, Written(d, e)) && Atomic(d, Synced(d)) && Atomic(d, d.(named := true))
  {
  }

  lemma UnlinkIsAtomic(d: Disk, p: Path)
    ensures Atomic(d, d.(unlinked := d.unlinked + {p}))
  {
  }

  lemma TracedSafe(trace: seq<Disk>, disk: Disk)
    requires Traced(trace, disk)
    ensures Safe(disk)
  {
    hide Safe;
  }

  /** `tree.finish(...)`, on a tree that has sent no signal yet. */
  method FinishTree(tree: ClippyTree, s: Script, stop: bool) returns (r: Settlement, ghost rounds: seq<Round>)
    requires tree.Inv() && tree.opening == {} && !tree.failed && tree.sent == []
    modifies tree
    ensures tree.Inv() && tree.leaders == old(tree.leaders) && DeathsStay(old(tree.k), tree.k)
    ensures r.treeSettled ==> tree.k.tree == map[]
    ensures r.treeSettled <==> s.restored && SettledBy(rounds)
    ensures Account(rounds, s.tables, [], tree.sent, stop, false, tree.failed,
                    SettledBy(rounds))
    ensures s.timeout > 0 ==> rounds != []
    ensures LostTruly(rounds, tree.k.intact)
    ensures r.cancelled == tree.cancelled && old(tree.reaped) <= tree.reaped
    ensures old(Unfinished(tree)) ==> Unfinished(tree) || tree.reaped != []
  {
    hide Owns, ProcessKernel.Valid, AfterTurn, DeathsStay, CodesKept, Truthful, NoStale, CodesAfterReaps, AllReaped,
         AllExited, Graceful, Calm, Overwritable, Account;
    ghost var all := stop || tree.stopping || tree.cancelled;
    r, rounds := tree.Finish(stop, s.timeout, s.grace, s.tables, s.restored);
    AccountAnyway(rounds, s.tables, [], tree.sent, all, false, tree.failed,
                  SettledBy(rounds), stop);
  }

  class Cohort {
    const expected: set<Key>
    const pinned: set<Path>
    const preexisting: set<Path>
    const underRoots: Path -> bool
    var observations: seq<Option<Record>>
    var records: map<Path, Record>
    var order: seq<Path>
    var targetPaths: map<Key, Path>
    var pathTargets: map<Path, Key>
    var captured: set<Key>
    var used: bool
    var finished: bool
    var receipt: Option<Settlement>
    var cleanupAuthorized: bool
    var disk: Disk
    /** Every durable state the run has passed through: a crash leaves one of them. */
    ghost var trace: seq<Disk>

    /** A path `_open` may accept at all. */
    predicate Admissible(path: Path) {
      path !in pinned && path !in preexisting && underRoots(path)
    }

    /** What `_open` sees, and the observations left to make. */
    function Observe(path: Path, next: seq<Option<Record>>): Option<Record> {
      if !Admissible(path) || next == [] then None else next[0]
    }

    function Rest(path: Path, next: seq<Option<Record>>): seq<Option<Record>> {
      if !Admissible(path) || next == [] then next else next[1..]
    }

    /** An artifact `_record` is about: an executable of an expected target. */
    predicate Relevant(m: Message) {
      m.Artifact? && m.key in expected
    }

    /** When `_record` accepts a relevant artifact. */
    predicate Acceptable(m: Message)
      reads this
      requires m.Artifact?
    {
      && m.isFresh
      && (m.key in targetPaths ==> targetPaths[m.key] == m.executable)
      && (m.executable in pathTargets ==> pathTargets[m.executable] == m.key)
      && Observe(m.executable, observations).Some?
      && (m.executable in records ==> Observe(m.executable, observations).value == records[m.executable])
    }

    ghost predicate Valid()
      reads this
    {
      && Tables(records, order, targetPaths, pathTargets, captured)
      && (forall p :: p in records ==> Admissible(p))
      && (forall t :: t in captured ==> t in expected)
      && (!used ==> disk == UNTOUCHED && NothingRecorded() && !finished)
      && TraceOk()
    }

    ghost predicate NothingRecorded()
      reads this`records, this`targetPaths, this`pathTargets
    {
      records == map[] && targetPaths == map[] && pathTargets == map[]
    }

    ghost predicate TraceOk()
      reads this`trace, this`disk
    {
      Traced(trace, disk)
    }

    constructor (expectedTargets: set<Key>, pins: set<Path>, existing: set<Path>, roots: Path -> bool,
                 seen: seq<Option<Record>>)
      ensures Valid() && !used && expected == expectedTargets && preexisting == existing
    {
      expected, pinned, preexisting, underRoots, observations := expectedTargets, pins, existing, roots, seen;
      records, order, targetPaths, pathTargets, captured := map[], [], map[], map[], {};
      used, finished, receipt, cleanupAuthorized := false, false, None, false;
      disk := UNTOUCHED;
      trace := [UNTOUCHED];
    }

    /** `_open(path)`: the next observation, unless the path is refused outright. */
    method Open(path: Path) returns (seen: Option<Record>)
      modifies this`observations
      ensures seen == Observe(path, old(observations))
      ensures observations == Rest(path, old(observations))
    {
      if !Admissible(path) || observations == [] {
        return None;
      }
      seen := observations[0];
      observations := observations[1..];
    }

    /** `_record(message)`: false when it raises. */
    method Capture(m: Message) returns (ok: bool)
      requires Valid() && used
      modifies this`observations, this`records, this`order, this`targetPaths, this`pathTargets, this`captured
      ensures Valid()
      ensures ok <==> Relevant(m) ==> old(Acceptable(m))
      ensures if ok && Relevant(m)
        then records == old(records)[m.executable := Observe(m.executable, old(observations)).value]
             && order == old(order) + (if m.executable in old(records) then [] else [m.executable])
             && captured == old(captured) + {m.key} && targetPaths == old(targetPaths)[m.key := m.executable]
             && pathTargets == old(pathTargets)[m.executable := m.key]
        else records == old(records) && order == old(order) && captured == old(captured)
             && targetPaths == old(targetPaths) && pathTargets == old(pathTargets)
      ensures ok ==> observations == if Relevant(m) then Rest(m.executable, old(observations)) else old(observations)
    {
      hide Tables, TraceOk, Observe, Rest;
      if m.Other? || m.key !in expected {
        return true;
      }
      if !m.isFresh {
        return false;
      }
      var path := m.executable;
      if m.key in targetPaths && targetPaths[m.key] != path {
        return false;
      }
      if path in pathTargets && pathTargets[path] != m.key {
        return false;
      }
      var seen := Open(path);
      if seen.None? || (path in records && records[path] != seen.value) {
        return false;
      }
      ObservedIsAdmissible(path, old(observations));
      TablesAdd(records, order, targetPaths, pathTargets, captured, path, seen.value, m.key);
      if path !in records {
        order := order + [path];
      }
      records := records[path := seen.value];
      targetPaths := targetPaths[m.key := path];
      pathTargets := pathTargets[path := m.key];
      captured := captured + {m.key};
      ok := true;
    }

    lemma ObservedIsAdmissible(path: Path, next: seq<Option<Record>>)
      ensures Observe(path, next).Some? ==> Admissible(path)
    {
    }

    /** `_persist`: write, then fsync. False when it raises on the way. */
    method Persist(e: Entry, how: Persistence) returns (ok: bool)
      requires TraceOk() && (e.Reclaimed? ==> e.path in disk.unlinked) && (disk.log == [] || e.Reclaimed?)
      modifies this`disk, this`trace
      ensures TraceOk() && old(trace) <= trace && disk.unlinked == old(disk.unlinked) && disk.named == old(disk.named)
      ensures ok <==> how.Complete?
      ensures disk == match how
        case BeforeWrite => old(disk)
        case BeforeSync => Written(old(disk), e)
        case Complete => Synced(Written(old(disk), e))
    {
      hide Safe, Traced, Atomic;
      if how.BeforeWrite? {
        return false;
      }
      TracedSafe(trace, disk);
      WrittenSafe(disk, e);
      WriteIsAtomic(disk, e);
      WriteIsAtomic(Written(disk, e), e);
      TraceAdd(trace, disk, Written(disk, e));
      disk := Written(disk, e);
      trace := trace + [disk];
      if how.BeforeSync? {
        return false;
      }
      SyncedSafe(disk);
      TraceAdd(trace, disk, Synced(disk));
      disk := Synced(disk);
      trace := trace + [disk];
      ok := true;
    }

    /** `_reclaim(path)`: re-observe, compare with the record, unlink, drop the record. */
    method Reclaim(path: Path, unlinks: bool) returns (ok: bool)
      requires Valid() && used && Settled(disk) && disk.named && disk.log != [] && AuthorisedBy(disk.log, path)
      requires order != [] && order[0] == path
      modifies this`observations, this`records, this`order, this`disk, this`trace
      ensures Valid() && old(trace) <= trace
      ensures ok ==> cleanupAuthorized && finished && receipt.Some? && receipt.value.treeSettled && Admissible(path)
      ensures ok <==> (cleanupAuthorized && finished && receipt.Some? && receipt.value.treeSettled && unlinks
                       && path in old(records) && Observe(path, old(observations)) == Some(old(records)[path]))
      ensures ok ==> disk == old(disk).(unlinked := old(disk.unlinked) + {path}) && order == old(order)[1..]
      ensures ok ==> records == old(records) - {path} && observations == Rest(path, old(observations))
      ensures !ok ==> disk == old(disk) && records == old(records) && order == old(order)
    {
      hide Safe, Tables, Settled, AuthorisedBy, Traced, Observe, Rest;
      TablesHold(records, order, targetPaths, pathTargets, captured, 0);
      if !cleanupAuthorized || !finished || receipt.None? || !receipt.value.treeSettled {
        return false;
      }
      var seen := Open(path);
      if seen.None? || seen.value != records[path] || !unlinks {
        return false;
      }
      ObservedIsAdmissible(path, old(observations));
      Unlink(path);
      ok := true;
    }

    /** `os.unlink`, and the record goes with the file. */
    method Unlink(path: Path)
      requires Valid() && used && Settled(disk) && disk.named && disk.log != [] && AuthorisedBy(disk.log, path)
      requires order != [] && order[0] == path
      modifies this`records, this`order, this`disk, this`trace
      ensures Valid() && old(trace) <= trace && disk == old(disk).(unlinked := old(disk.unlinked) + {path})
      ensures order == old(order)[1..] && records == old(records) - {path}
    {
      hide Safe, Tables, Settled, AuthorisedBy, Traced, Atomic;
      UnlinkSafe(disk, path);
      UnlinkIsAtomic(disk, path);
      TraceAdd(trace, disk, disk.(unlinked := disk.unlinked + {path}));
      disk := disk.(unlinked := disk.unlinked + {path});
      trace := trace + [disk];
      TablesDrop(records, order, targetPaths, pathTargets, captured);
      records, order := records - {path}, order[1..];
    }

    /** The next `n` observations show the first `n` executables as they were recorded. */
    ghost predicate AllUnchanged(next: seq<Option<Record>>, n: nat)
      reads this`order, this`records
    {
      forall i :: 0 <= i < n && i < |order| && i < |next| ==> order[i] in records && next[i] == Some(records[order[i]])
    }

    /** "Validate all before deleting any." */
    method Unchanged() returns (ok: bool)
      requires Valid()
      modifies this`observations
      ensures Valid()
      ensures ok <==> Watched(old(observations))
      ensures ok ==> observations == old(observations)[|order|..]
    {
      hide Tables, TraceOk, AllUnchanged, Observe, Rest;
      var i := 0;
      ok := true;
      TablesOrder(records, order, targetPaths, pathTargets, captured);
      UnchangedStart(observations);
      while i < |order| && ok
        invariant Valid() && i <= |order|
        invariant ok ==>
          i <= |old(observations)| && observations == old(observations)[i..] && AllUnchanged(old(observations), i)
        invariant !ok ==> !Watched(old(observations))
      {
        TablesHold(records, order, targetPaths, pathTargets, captured, i);
        ghost var before := observations;
        var seen := Open(order[i]);
        AdmissibleObserves(order[i], before);
        UnchangedStep(old(observations), i);
        ok := seen.Some? && seen.value == records[order[i]];
        i := i + 1;
      }
    }

    lemma UnchangedStart(obs: seq<Option<Record>>)
      ensures AllUnchanged(obs, 0)
    {
    }

    lemma AdmissibleObserves(path: Path, next: seq<Option<Record>>)
      requires Admissible(path)
      ensures Observe(path, next) == (if next == [] then None else next[0])
      ensures Rest(path, next) == if next == [] then next else next[1..]
    {
    }

    lemma UnchangedStep(obs: seq<Option<Record>>, i: nat)
      requires i < |order| && i <= |obs| && order[i] in records && AllUnchanged(obs, i)
      ensures if i < |obs| && obs[i] == Some(records[order[i]]) then AllUnchanged(obs, i + 1) else !Watched(obs)
    {
    }

    /** Write the authorisation, fsync it, then fsync the directory that names the receipt. */
    method Authorise(s: Script) returns (ok: bool)
      requires Valid() && used && disk == UNTOUCHED
      modifies this`disk, this`trace
      ensures Valid() && old(trace) <= trace && disk.unlinked == {}
      ensures ok <==> s.authorization.Complete? && s.nameSynced
      ensures ok ==> Settled(disk) && disk.named && disk.log == [Authorization(records)]
    {
      hide Tables, Safe, Settled, Traced, Atomic;
      TracedSafe(trace, disk);
      ok := Persist(Authorization(records), s.authorization);
      if !ok || !s.nameSynced {
        return false;
      }
      TracedSafe(trace, disk);
      NamedSafe(disk, records);
      SettledSafe(disk.(named := true));
      WriteIsAtomic(disk, Reclaimed(""));
      TraceAdd(trace, disk, disk.(named := true));
      disk := disk.(named := true);
      trace := trace + [disk];
    }

    /** One turn of the reclaim loop: unlink, then append to the receipt. */
    method ReclaimNext(path: Path, unlinks: bool, how: Persistence) returns (ok: bool)
      requires Valid() && used && Settled(disk) && disk.named && disk.log != [] && AuthorisedBy(disk.log, path)
      requires order != [] && order[0] == path
      modifies this`observations, this`records, this`order, this`disk, this`trace
      ensures Valid() && old(trace) <= trace
      ensures disk.named && disk.log != [] && disk.log[0] == old(disk.log[0])
      ensures disk.unlinked <= old(disk.unlinked) + {path} && old(disk.unlinked) <= disk.unlinked
      ensures path in disk.unlinked ==> path in old(disk.unlinked) || Admissible(path)
      ensures ok ==> Settled(disk) && disk.unlinked == old(disk.unlinked) + {path} && order == old(order)[1..]
      ensures ok ==> disk.log == old(disk.log) + [Reclaimed(path)]
      ensures ok ==> records == old(records) - {path} && observations == Rest(path, old(observations))
      ensures ok || (path in disk.unlinked && path !in old(disk.unlinked)) ==>
        path in old(records) && Observe(path, old(observations)) == Some(old(records)[path])
      ensures ok <==> (cleanupAuthorized && finished && receipt.Some? && receipt.value.treeSettled && unlinks
                       && path in old(records) && Observe(path, old(observations)) == Some(old(records)[path])
                       && how.Complete?)
    {
      hide Tables, Safe, Settled, AuthorisedBy, Traced;
      ghost var before := disk;
      ok := Reclaim(path, unlinks);
      if ok {
        ok := Persist(Reclaimed(path), how);
        TracedSafe(trace, disk);
        if ok {
          SettledAgain(before, path, disk);
        }
      }
    }

    /** Authorise in the receipt, make it durable, then delete one file at a time, recording each. */
    method ReclaimAll(s: Script) returns (ok: bool, reclaimed: seq<Path>)
      requires Valid() && used && finished && disk == UNTOUCHED && !cleanupAuthorized
      requires receipt.Some? && receipt.value.treeSettled
      modifies this`observations, this`records, this`order, this`disk, this`trace, this`cleanupAuthorized
      ensures Valid() && !cleanupAuthorized && old(trace) <= trace
      ensures forall p :: p in disk.unlinked ==>
        Admissible(p) && ObservedTwice(old(observations), old(order), old(records), p)
      ensures ok ==> Settled(disk) && reclaimed == old(order) && disk.unlinked == set p | p in reclaimed
      ensures ok <==> ReclaimWorks(s, old(observations), old(order), old(records))
    {
      hide Tables, Safe, Settled, Traced, Watched, ObservedTwice, Shows, StepFine;
      reclaimed := [];
      ghost var obs := observations;
      TablesOrder(records, order, targetPaths, pathTargets, captured);
      ok := Unchanged();
      WatchedShows(obs);
      if !ok || !s.receiptOpens {
        return false, [];
      }
      ok := Authorise(s);
      if !ok {
        return false, [];
      }
      cleanupAuthorized := true;
      ok, reclaimed := DeleteAll(s, obs);
      cleanupAuthorized := false;
    }

    lemma WatchedShows(obs: seq<Option<Record>>)
      requires records.Keys == set p | p in order
      ensures Watched(obs) <==>
        (|obs| >= |order| && forall j :: 0 <= j < |order| ==> order[j] in records && Shows(obs, j, records[order[j]]))
    {
      if |obs| >= |order| && forall j :: 0 <= j < |order| ==> order[j] in records && Shows(obs, j, records[order[j]]) {
        forall i | 0 <= i < |order| ensures order[i] in records && obs[i] == Some(records[order[i]]) {
          assert Shows(obs, i, records[order[i]]);
        }
      }
    }

    /** What the reclaim loop has done before its `i`-th turn. */
    ghost predicate Deleted(todo: seq<Path>, granted: map<Path, Record>, obs: seq<Option<Record>>)
      reads this`disk
    {
      && disk.named && disk.log != [] && disk.log[0] == Authorization(granted)
      && forall p :: p in disk.unlinked ==> Admissible(p) && ObservedTwice(obs, todo, granted, p)
    }

    /** Where the reclaim loop stands at its `i`-th turn. */
    ghost predicate Deleting(todo: seq<Path>, granted: map<Path, Record>, obs: seq<Option<Record>>, i: nat)
      reads this`disk, this`order, this`records, this`observations
    {
      && i <= |todo| && order == todo[i..] && |obs| >= |todo| + i && observations == obs[|todo| + i..]
      && (forall p :: p in records ==> p in granted && records[p] == granted[p])
      && (forall p :: p in order ==> p in records)
      && Settled(disk) && disk.unlinked == set p | p in todo[..i]
    }

    /** One turn of the reclaim loop. */
    method DeleteNext(s: Script, todo: seq<Path>, ghost granted: map<Path, Record>,
                      ghost obs: seq<Option<Record>>, i: nat)
      returns (ok: bool)
      requires Valid() && used && cleanupAuthorized && finished && receipt.Some? && receipt.value.treeSettled
      requires i < |todo| && granted.Keys == (set p | p in todo) && NoDup(todo)
      requires forall j :: 0 <= j < |todo| ==> todo[j] in granted && Shows(obs, j, granted[todo[j]])
      requires Deleted(todo, granted, obs) && Deleting(todo, granted, obs, i)
      modifies this`observations, this`records, this`order, this`disk, this`trace
      ensures Valid() && Deleted(todo, granted, obs) && old(trace) <= trace
      ensures ok ==> Deleting(todo, granted, obs, i + 1)
      ensures ok <==> StepFine(s, obs, todo, granted, i)
    {
      hide Tables, Safe, Settled, Traced, ObservedTwice, Observe, Rest, Shows, NoDup;
      var path := todo[i];
      ghost var before, was, records0, order0 := observations, disk.unlinked, records, order;
      TurnStart(todo, granted, obs, i);
      ok := ReclaimNext(path, i < |s.unlinks| && s.unlinks[i], if i < |s.persists| then s.persists[i] else BeforeWrite);
      ShownNext(obs, |todo| + i, path, before, granted[path]);
      if path in disk.unlinked && path !in was {
        SeenTwice(obs, todo, granted, i);
      }
      if ok {
        TurnDone(todo, granted, obs, i, records0, was);
      }
    }

    lemma TurnDone(todo: seq<Path>, granted: map<Path, Record>, obs: seq<Option<Record>>, i: nat,
                   before: map<Path, Record>, was: set<Path>)
      requires i < |todo| && NoDup(todo) && order == todo[i + 1..] && records == before - {todo[i]}
      requires |obs| > |todo| + i && observations == obs[|todo| + i + 1..]
      requires forall p :: p in before ==> p in granted && before[p] == granted[p]
      requires forall p :: p in todo[i..] ==> p in before
      requires Settled(disk) && disk.unlinked == was + {todo[i]} && was == set p | p in todo[..i]
      ensures Deleting(todo, granted, obs, i + 1)
    {
      hide Settled, NoDup;
      AllDistinct(todo, i);
      assert todo[i..] == [todo[i]] + todo[i + 1..];
      assert todo[..i + 1] == todo[..i] + [todo[i]];
      assert forall p :: p in order ==> p in todo[i..] && p != todo[i];
    }

    lemma TurnStart(todo: seq<Path>, granted: map<Path, Record>, obs: seq<Option<Record>>, i: nat)
      requires i < |todo| && granted.Keys == (set p | p in todo)
      requires Deleted(todo, granted, obs) && Deleting(todo, granted, obs, i)
      ensures order != [] && order[0] == todo[i] && order[1..] == todo[i + 1..] && todo[i] in records
      ensures todo[i] in granted && records[todo[i]] == granted[todo[i]] && AuthorisedBy(disk.log, todo[i])
    {
      assert todo[i] in order && todo[i] in todo;
    }

    lemma ShownNext(obs: seq<Option<Record>>, k: nat, path: Path, next: seq<Option<Record>>, r: Record)
      requires k <= |obs| && next == obs[k..] && Admissible(path)
      ensures Observe(path, next) == Some(r) <==> Shows(obs, k, r)
      ensures Shows(obs, k, r) ==> k < |obs| && Rest(path, next) == obs[k + 1..]
    {
    }

    /** The reclaim loop, the authorisation being durable. */
    method DeleteAll(s: Script, ghost obs: seq<Option<Record>>) returns (ok: bool, reclaimed: seq<Path>)
      requires Valid() && used && cleanupAuthorized && finished && receipt.Some? && receipt.value.treeSettled
      requires Settled(disk) && disk.named && disk.log == [Authorization(records)] && disk.unlinked == {}
      requires forall j :: 0 <= j < |order| ==> order[j] in records && Shows(obs, j, records[order[j]])
      requires |obs| >= |order| && observations == obs[|order|..]
      modifies this`observations, this`records, this`order, this`disk, this`trace
      ensures Valid() && old(trace) <= trace
      ensures forall p :: p in disk.unlinked ==> Admissible(p) && ObservedTwice(obs, old(order), old(records), p)
      ensures ok ==> Settled(disk) && reclaimed == old(order) && disk.unlinked == set p | p in reclaimed
      ensures ok <==> forall j :: 0 <= j < |old(order)| ==> StepFine(s, obs, old(order), old(records), j)
    {
      hide Tables, Safe, Settled, TraceOk, ObservedTwice, Shows, StepFine, NoDup, Deleted, Deleting;
      reclaimed, ok := [], true;
      var todo := order;
      TablesOrder(records, order, targetPaths, pathTargets, captured);
      TablesDistinct(records, order, targetPaths, pathTargets, captured);
      DeletingStart(obs);
      ghost var granted := records;
      var i := 0;
      while i < |todo| && ok
        invariant Valid() && old(trace) <= trace && i <= |todo| && reclaimed == todo[..i]
        invariant Deleted(todo, granted, obs) && (ok ==> Deleting(todo, granted, obs, i))
        invariant forall j :: 0 <= j < i ==> StepFine(s, obs, todo, granted, j)
        invariant !ok ==> i < |todo| && !StepFine(s, obs, todo, granted, i)
        decreases |todo| - i, ok
      {
        ok := DeleteNext(s, todo, granted, obs, i);
        if ok {
          reclaimed := reclaimed + [todo[i]];
          i := i + 1;
        }
      }
      DeletingEnd(todo, granted, obs, i);
    }

    lemma DeletingStart(obs: seq<Option<Record>>)
      requires disk.named && disk.log == [Authorization(records)] && disk.unlinked == {} && Settled(disk)
      requires |obs| >= |order| && observations == obs[|order|..] && forall p :: p in order ==> p in records
      ensures Deleted(order, records, obs) && Deleting(order, records, obs, 0)
    {
      hide Settled, ObservedTwice;
    }

    lemma DeletingEnd(todo: seq<Path>, granted: map<Path, Record>, obs: seq<Option<Record>>, i: nat)
      requires Deleted(todo, granted, obs)
      ensures forall p :: p in disk.unlinked ==> Admissible(p) && ObservedTwice(obs, todo, granted, p)
      ensures Deleting(todo, granted, obs, i) && i == |todo| ==> Settled(disk) && disk.unlinked == set p | p in todo
    {
      hide Settled, ObservedTwice;
      if Deleting(todo, granted, obs, i) && i == |todo| {
        assert todo[..i] == todo;
      }
    }

    lemma ObserveFirst(path: Path, next: seq<Option<Record>>)
      ensures Observe(path, next).Some? ==>
        next != [] && next[0] == Observe(path, next) && Rest(path, next) == next[1..]
    {
    }

    /** The producer: its JSON is read only when it exited with status 0. */
    method Produce(s: Script, tree: ClippyTree) returns (error: Error, status: Option<int>, ghost leader: Serial)
      requires Valid() && used && NothingRecorded() && tree.Inv() && tree.opening == {}
      modifies this`observations, this`records, this`order, this`targetPaths, this`pathTargets, this`captured, tree
      ensures Valid() && tree.Inv() && tree.opening == {}
      ensures tree.failed == old(tree.failed) && tree.stopping == old(tree.stopping)
      ensures error.NoError? ==> status.Some? && ExitedAs(tree.leaders, tree.k, leader, status.value)
      ensures error.NoError? ==>
        leader !in old(tree.leaders) && tree.leaders.Keys == old(tree.leaders).Keys + {leader}
      ensures status != Some(0) ==> records == map[] && observations == old(observations)
      ensures error.NoError? ==> CapturedUpTo(old(observations), observations, records)
      ensures status.None? ==> !s.environment || Stuck(tree, s.producer)
      ensures error.Denied? ==> !s.environment || !s.producer.spawns || !LinesOk(s.lines, old(observations))
      ensures error.Interrupt? ==> Unfinished(tree)
      ensures tree.reaped == old(tree.reaped) && tree.sent == old(tree.sent)
      ensures error.NoError? && status == Some(0) ==>
        LinesOk(s.lines, old(observations))
        && Linked(s.lines, old(observations), |s.lines|, records, targetPaths, pathTargets)
    {
      hide Tables, Safe, TraceOk, CapturedUpTo, CapturedFrom, Owns, LinesOk, Linked, Unfinished, ExitedAs, DeathsStay;
      status, leader := None, 0;
      if !s.environment {
        return Denied, None, leader;
      }
      var step;
      step, leader := Execute(tree, s.producer);
      if step.Raises? {
        return (if step.interrupt then Interrupt else Denied), None, leader;
      }
      status := Some(step.status);
      NothingCaptured(observations);
      if step.status == 0 {
        error := ReadJson(s.lines);
      } else {
        error := NoError;
      }
    }

    lemma NothingCaptured(obs: seq<Option<Record>>)
      ensures CapturedFrom(obs, 0, map[]) && CapturedUpTo(obs, obs, map[])
    {
    }

    predicate IsArtifact(l: Line) {
      l.Json? && l.message.Artifact? && l.message.key in expected
    }

    /** Not pinned, not there before the run, and below the roots. */
    ghost predicate MayBeOpened(path: Path) {
      path !in pinned && path !in preexisting && underRoots(path)
    }

    /** How many of the first `i` lines are about an executable, each of which is observed once. */
    ghost function Seen(lines: seq<Line>, i: nat): nat
      requires i <= |lines|
    {
      if i == 0 then 0 else Seen(lines, i - 1) + if IsArtifact(lines[i - 1]) then 1 else 0
    }

    /** Line `i` is acceptable after the lines before it: it is JSON, and an artifact it is about is fresh, may be
        opened and is observed; it shares its target with an earlier one exactly when it shares its executable, and
        then that is observed as before. */
    ghost predicate LineOk(lines: seq<Line>, obs: seq<Option<Record>>, i: nat)
      requires i < |lines|
    {
      && lines[i].Json?
      && (IsArtifact(lines[i]) ==>
            && lines[i].message.isFresh && MayBeOpened(lines[i].message.executable)
            && Seen(lines, i) < |obs| && obs[Seen(lines, i)].Some?
            && forall h :: 0 <= h < i && IsArtifact(lines[h]) ==> Agree(lines, obs, h, i))
    }

    ghost predicate Agree(lines: seq<Line>, obs: seq<Option<Record>>, h: nat, i: nat)
      requires h < i < |lines| && IsArtifact(lines[h]) && IsArtifact(lines[i])
    {
      var a, b := lines[h].message, lines[i].message;
      && (a.key == b.key <==> a.executable == b.executable)
      && (a.executable == b.executable ==>
            Seen(lines, h) < |obs| && Seen(lines, i) < |obs| && obs[Seen(lines, h)] == obs[Seen(lines, i)])
    }

    /** The producer's output is acceptable as a whole. */
    ghost predicate LinesOk(lines: seq<Line>, obs: seq<Option<Record>>) {
      forall i :: 0 <= i < |lines| ==> LineOk(lines, obs, i)
    }

    /** The tables hold what line `h` is about, with its own observation. */
    ghost predicate HeldLine(lines: seq<Line>, obs: seq<Option<Record>>, h: nat, held: map<Path, Record>,
                             targets: map<Key, Path>, paths: map<Path, Key>)
      requires h < |lines| && IsArtifact(lines[h])
    {
      var m := lines[h].message;
      && m.key in targets && targets[m.key] == m.executable && m.executable in paths && paths[m.executable] == m.key
      && m.executable in held && Shows(obs, Seen(lines, h), held[m.executable])
    }

    ghost predicate FromLine(lines: seq<Line>, i: nat, key: Key, path: Path)
      requires i <= |lines|
    {
      exists h ::
        0 <= h < i && IsArtifact(lines[h]) && lines[h].message.key == key && lines[h].message.executable == path
    }

    /** The tables hold what the first `i` lines are about, and nothing else. */
    ghost predicate Linked(lines: seq<Line>, obs: seq<Option<Record>>, i: nat, held: map<Path, Record>,
                           targets: map<Key, Path>, paths: map<Path, Key>)
      requires i <= |lines|
    {
      && (forall h :: 0 <= h < i && IsArtifact(lines[h]) ==> HeldLine(lines, obs, h, held, targets, paths))
      && (forall key :: key in targets ==> FromLine(lines, i, key, targets[key]))
      && (forall path :: path in paths ==> FromLine(lines, i, paths[path], path))
      && held.Keys <= paths.Keys
    }

    lemma LineAccepted(lines: seq<Line>, obs: seq<Option<Record>>, i: nat)
      requires i < |lines| && Linked(lines, obs, i, records, targetPaths, pathTargets)
      requires Seen(lines, i) <= |obs| && observations == obs[Seen(lines, i)..] && IsArtifact(lines[i])
      ensures Acceptable(lines[i].message) <==> LineOk(lines, obs, i)
    {
      hide Seen, Linked, Agree;
      if Acceptable(lines[i].message) {
        forall h | 0 <= h < i && IsArtifact(lines[h]) ensures Agree(lines, obs, h, i) {
          AgreesWithHeld(lines, obs, h, i);
        }
      }
      if LineOk(lines, obs, i) {
        HeldAgrees(lines, obs, i);
      }
    }

    lemma AgreesWithHeld(lines: seq<Line>, obs: seq<Option<Record>>, h: nat, i: nat)
      requires h < i < |lines| && Linked(lines, obs, i, records, targetPaths, pathTargets)
      requires Seen(lines, i) <= |obs| && observations == obs[Seen(lines, i)..]
      requires IsArtifact(lines[h]) && IsArtifact(lines[i]) && Acceptable(lines[i].message)
      ensures Agree(lines, obs, h, i)
    {
      hide Seen, FromLine;
      assert HeldLine(lines, obs, h, records, targetPaths, pathTargets);
    }

    lemma HeldAgrees(lines: seq<Line>, obs: seq<Option<Record>>, i: nat)
      requires i < |lines| && Linked(lines, obs, i, records, targetPaths, pathTargets)
      requires IsArtifact(lines[i]) && LineOk(lines, obs, i)
      ensures var m := lines[i].message;
        && (m.key in targetPaths ==> targetPaths[m.key] == m.executable)
        && (m.executable in pathTargets ==> pathTargets[m.executable] == m.key)
        && (m.executable in records ==> obs[Seen(lines, i)] == Some(records[m.executable]))
    {
      hide Seen, Agree, HeldLine;
      var m := lines[i].message;
      if m.key in targetPaths {
        var h :| 0 <= h < i && IsArtifact(lines[h]) && lines[h].message.key == m.key
          && lines[h].message.executable == targetPaths[m.key];
        assert Agree(lines, obs, h, i);
        SameArtifact(lines, obs, h, i);
      }
      if m.executable in pathTargets {
        var h :| 0 <= h < i && IsArtifact(lines[h]) && lines[h].message.executable == m.executable
          && lines[h].message.key == pathTargets[m.executable];
        assert Agree(lines, obs, h, i) && HeldLine(lines, obs, h, records, targetPaths, pathTargets);
        SameArtifact(lines, obs, h, i);
        HeldShows(lines, obs, h, records, targetPaths, pathTargets);
      }
    }

    lemma SameArtifact(lines: seq<Line>, obs: seq<Option<Record>>, h: nat, i: nat)
      requires h < i < |lines| && IsArtifact(lines[h]) && IsArtifact(lines[i]) && Agree(lines, obs, h, i)
      ensures var a, b := lines[h].message, lines[i].message;
        && (a.key == b.key <==> a.executable == b.executable)
        && (a.executable == b.executable ==>
              Seen(lines, h) < |obs| && Seen(lines, i) < |obs| && obs[Seen(lines, h)] == obs[Seen(lines, i)])
    {
    }

    lemma HeldShows(lines: seq<Line>, obs: seq<Option<Record>>, h: nat, held: map<Path, Record>,
                    targets: map<Key, Path>, paths: map<Path, Key>)
      requires h < |lines| && IsArtifact(lines[h]) && HeldLine(lines, obs, h, held, targets, paths)
      ensures lines[h].message.executable in held && Seen(lines, h) < |obs|
      ensures obs[Seen(lines, h)] == Some(held[lines[h].message.executable])
    {
    }

    /** What an acceptable artifact shows. */
    lemma LineShows(lines: seq<Line>, obs: seq<Option<Record>>, i: nat, next: seq<Option<Record>>)
      requires i < |lines| && IsArtifact(lines[i]) && LineOk(lines, obs, i) && next == obs[Seen(lines, i)..]
      ensures Seen(lines, i + 1) == Seen(lines, i) + 1 <= |obs| && obs[Seen(lines, i)].Some?
      ensures Observe(lines[i].message.executable, next) == obs[Seen(lines, i)]
      ensures Rest(lines[i].message.executable, next) == obs[Seen(lines, i + 1)..]
    {
    }

    lemma LineIsNone(lines: seq<Line>, obs: seq<Option<Record>>, i: nat)
      requires i < |lines| && !IsArtifact(lines[i])
      ensures LineOk(lines, obs, i) <==> lines[i].Json?
      ensures Seen(lines, i + 1) == Seen(lines, i)
    {
    }

    lemma LinkedMore(lines: seq<Line>, obs: seq<Option<Record>>, i: nat, held: map<Path, Record>,
                     targets: map<Key, Path>, paths: map<Path, Key>, r: Record)
      requires i < |lines| && Linked(lines, obs, i, held, targets, paths)
      requires IsArtifact(lines[i]) && LineOk(lines, obs, i) && Shows(obs, Seen(lines, i), r)
      ensures var m := lines[i].message;
        Linked(lines, obs, i + 1, held[m.executable := r], targets[m.key := m.executable], paths[m.executable := m.key])
    {
      hide Seen, HeldLine, FromLine, LineOk, Shows, Agree;
      var m := lines[i].message;
      var held' := held[m.executable := r];
      var targets', paths' := targets[m.key := m.executable], paths[m.executable := m.key];
      HeldNow(lines, obs, i, held', targets', paths');
      forall h | 0 <= h < i && IsArtifact(lines[h]) ensures HeldLine(lines, obs, h, held', targets', paths') {
        assert Agree(lines, obs, h, i) by { AgreesEarlier(lines, obs, h, i); }
        HeldStill(lines, obs, h, i, held, targets, paths, r);
      }
      FromNow(lines, i);
      forall key | key in targets' ensures FromLine(lines, i + 1, key, targets'[key]) {
        if key != m.key { FromEarlier(lines, i, key, targets[key]); }
      }
      forall path | path in paths' ensures FromLine(lines, i + 1, paths'[path], path) {
        if path != m.executable { FromEarlier(lines, i, paths[path], path); }
      }
    }

    lemma AgreesEarlier(lines: seq<Line>, obs: seq<Option<Record>>, h: nat, i: nat)
      requires h < i < |lines| && IsArtifact(lines[h]) && IsArtifact(lines[i]) && LineOk(lines, obs, i)
      ensures Agree(lines, obs, h, i)
    {
    }

    lemma HeldNow(lines: seq<Line>, obs: seq<Option<Record>>, i: nat, held: map<Path, Record>,
                  targets: map<Key, Path>, paths: map<Path, Key>)
      requires i < |lines| && IsArtifact(lines[i])
      requires var m := lines[i].message;
        && m.key in targets && targets[m.key] == m.executable && m.executable in paths && paths[m.executable] == m.key
        && m.executable in held && Shows(obs, Seen(lines, i), held[m.executable])
      ensures HeldLine(lines, obs, i, held, targets, paths)
    {
    }

    lemma HeldStill(lines: seq<Line>, obs: seq<Option<Record>>, h: nat, i: nat, held: map<Path, Record>,
                    targets: map<Key, Path>, paths: map<Path, Key>, r: Record)
      requires h < i < |lines| && IsArtifact(lines[h]) && IsArtifact(lines[i]) && Agree(lines, obs, h, i)
      requires HeldLine(lines, obs, h, held, targets, paths) && Shows(obs, Seen(lines, i), r)
      ensures var m := lines[i].message;
        HeldLine(lines, obs, h, held[m.executable := r], targets[m.key := m.executable], paths[m.executable := m.key])
    {
      hide Seen;
    }

    lemma FromNow(lines: seq<Line>, i: nat)
      requires i < |lines| && IsArtifact(lines[i])
      ensures FromLine(lines, i + 1, lines[i].message.key, lines[i].message.executable)
    {
    }

    lemma FromEarlier(lines: seq<Line>, i: nat, key: Key, path: Path)
      requires i < |lines| && FromLine(lines, i, key, path)
      ensures FromLine(lines, i + 1, key, path)
    {
    }

    lemma LinkedStart(lines: seq<Line>, obs: seq<Option<Record>>)
      ensures Linked(lines, obs, 0, map[], map[], map[])
    {
    }

    lemma LinkedSkip(lines: seq<Line>, obs: seq<Option<Record>>, i: nat, held: map<Path, Record>,
                     targets: map<Key, Path>, paths: map<Path, Key>)
      requires i < |lines| && Linked(lines, obs, i, held, targets, paths) && !IsArtifact(lines[i])
      ensures Linked(lines, obs, i + 1, held, targets, paths)
    {
      hide HeldLine, FromLine;
      forall key | key in targets ensures FromLine(lines, i + 1, key, targets[key]) {
        FromEarlier(lines, i, key, targets[key]);
      }
      forall path | path in paths ensures FromLine(lines, i + 1, paths[path], path) {
        FromEarlier(lines, i, paths[path], path);
      }
    }

    /** The producer's output, line by line: accepted exactly when every line is acceptable, and then the tables hold
        exactly what the lines are about, each executable as it was observed. */
    method ReadJson(lines: seq<Line>) returns (error: Error)
      requires Valid() && used && NothingRecorded()
      modifies this`observations, this`records, this`order, this`targetPaths, this`pathTargets, this`captured
      ensures Valid() && !error.Interrupt?
      ensures error.NoError? <==> LinesOk(lines, old(observations))
      ensures error.NoError? ==> Linked(lines, old(observations), |lines|, records, targetPaths, pathTargets)
      ensures error.NoError? ==> CapturedUpTo(old(observations), observations, records)
    {
      hide Tables, Safe, Traced, CapturedFrom, Linked, LineOk;
      ghost var obs, n := observations, 0;
      NothingCaptured(obs);
      LinkedStart(lines, obs);
      for i := 0 to |lines|
        invariant Valid() && n <= |obs| && observations == obs[n..] && CapturedFrom(obs, n, records)
        invariant n == Seen(lines, i) && Linked(lines, obs, i, records, targetPaths, pathTargets)
        invariant forall h :: 0 <= h < i ==> LineOk(lines, obs, h)
      {
        ghost var before := records;
        var ok := ReadLine(lines, i, obs);
        if !ok {
          return Denied;
        }
        if Relevant(lines[i].message) {
          ObserveFirst(lines[i].message.executable, obs[n..]);
          CaptureSeen(obs, n, before, lines[i].message.executable, obs[n].value);
          n := n + 1;
        }
      }
      error := NoError;
    }

    /** One line. */
    method ReadLine(lines: seq<Line>, i: nat, ghost obs: seq<Option<Record>>) returns (ok: bool)
      requires Valid() && used && i < |lines|
      requires Linked(lines, obs, i, records, targetPaths, pathTargets)
      requires Seen(lines, i) <= |obs| && observations == obs[Seen(lines, i)..]
      modifies this`observations, this`records, this`order, this`targetPaths, this`pathTargets, this`captured
      ensures Valid() && (ok <==> LineOk(lines, obs, i))
      ensures ok ==> lines[i].Json? && Linked(lines, obs, i + 1, records, targetPaths, pathTargets)
      ensures ok ==> Seen(lines, i + 1) <= |obs| && observations == obs[Seen(lines, i + 1)..]
      ensures ok && IsArtifact(lines[i]) ==>
        var m := lines[i].message;
        && Observe(m.executable, old(observations)).Some?
        && records == old(records)[m.executable := Observe(m.executable, old(observations)).value]
        && observations == Rest(m.executable, old(observations))
      ensures ok && !IsArtifact(lines[i]) ==> records == old(records) && observations == old(observations)
    {
      hide Tables, Safe, Traced, Linked, LineOk, Seen, Acceptable, Observe, Rest;
      if !IsArtifact(lines[i]) {
        LineIsNone(lines, obs, i);
        LinkedSkip(lines, obs, i, records, targetPaths, pathTargets);
        if lines[i].NotJson? {
          return false;
        }
        ok := Capture(lines[i].message);
      } else {
        ghost var held, targets, paths, next := records, targetPaths, pathTargets, observations;
        LineAccepted(lines, obs, i);
        ok := Capture(lines[i].message);
        if ok {
          LineShows(lines, obs, i, next);
          LinkedMore(lines, obs, i, held, targets, paths, obs[Seen(lines, i)].value);
        }
      }
    }

    /** There is an observation of every executable, and it shows no change. */
    ghost predicate Watched(next: seq<Option<Record>>)
      reads this`order, this`records
    {
      |next| >= |order| && AllUnchanged(next, |order|)
    }

    /** The `k`-th executable is not seen as captured, or its consumer cannot be started. */
    ghost predicate RefusedAt(s: Script, obs: seq<Option<Record>>, k: nat)
      reads this`order, this`records
    {
      && k < |order| && order[k] in records
      && (!ShowsFile(obs, k, records[order[k]]) || !s.consumer(k).spawns)
    }

    /** Why the first half of a run is refused: the environment or the producer, an unacceptable line of its output,
        executables that do not match the consumers, or consumer `c`. */
    ghost predicate Refused(s: Script, obs: seq<Option<Record>>, n: nat, c: nat)
      reads this`order, this`records, this`captured
    {
      || !s.environment || !s.producer.spawns || !LinesOk(s.lines, obs) || !Covered(s)
      || (n <= |obs| && RefusedAt(s, obs[n..], c))
    }

    /** The coverage check before the first consumer. */
    ghost predicate Covered(s: Script)
      reads this`captured, this`order
    {
      captured == expected && order != [] && s.consumerArgs == set p | p in order
    }

    /** One consumer: the executable is still the one captured, and its command ends. */
    method ConsumeNext(s: Script, tree: ClippyTree, i: nat) returns (error: Error, status: int, ghost leader: Serial)
      requires Valid() && i < |order| && tree.Inv() && tree.opening == {}
      modifies this`observations, tree
      ensures Valid() && tree.Inv() && tree.opening == {}
      ensures tree.failed == old(tree.failed) && tree.stopping == old(tree.stopping)
      ensures DeathsStay(old(tree.k), tree.k) && MoreLeaders(old(tree.leaders), tree.leaders)
      ensures order[i] in records
      ensures error.NoError? ==>
        && ExitedAs(tree.leaders, tree.k, leader, status) && ShowsFile(old(observations), 0, records[order[i]])
        && leader !in old(tree.leaders) && tree.leaders.Keys == old(tree.leaders).Keys + {leader}
        && old(observations) != [] && observations == old(observations)[1..]
      ensures error.Denied? <==> !ShowsFile(old(observations), 0, records[order[i]]) || !s.consumer(i).spawns
      ensures error.Interrupt? ==> Unfinished(tree)
      ensures tree.reaped == old(tree.reaped) && tree.sent == old(tree.sent)
    {
      hide Owns, DeathsStay, MoreLeaders, ExitedAs, Stuck, Tables, TraceOk, ShowsFile;
      status, leader := 0, 0;
      TreeStart(tree.leaders, tree.k);
      var ok := StillTheFile(i);
      if !ok {
        return Denied, status, leader;
      }
      var step;
      step, leader := Execute(tree, s.consumer(i));
      if step.Raises? {
        return (if step.interrupt then Interrupt else Denied), status, leader;
      }
      error, status := NoError, step.status;
    }

    lemma NotCovered(s: Script, paths: set<Path>)
      requires paths == (set p | p in records) && records.Keys == set p | p in order
      ensures Covered(s) <==> !(captured != expected || paths == {} || paths != s.consumerArgs)
    {
      assert paths == set p | p in order;
      if order != [] {
        assert order[0] in paths;
      }
    }

    /** The consumers: every captured executable, unchanged since capture, until one fails. */
    method Consume(s: Script, tree: ClippyTree)
      returns (error: Error, status: Option<int>, consumed: seq<Path>, ghost ran: seq<Serial>)
      requires Valid() && used && tree.Inv() && tree.opening == {}
      modifies this`observations, tree
      ensures Valid() && tree.Inv() && tree.opening == {}
      ensures tree.failed == old(tree.failed) && tree.stopping == old(tree.stopping)
      ensures DeathsStay(old(tree.k), tree.k) && MoreLeaders(old(tree.leaders), tree.leaders)
      ensures consumed <= order && |consumed| <= |ran| && AllExitedAs(tree.leaders, tree.k, ran[..|consumed|], 0)
      ensures forall k :: 0 <= k < |consumed| ==>
        consumed[k] in records && ShowsFile(old(observations), k, records[consumed[k]])
      ensures error.NoError? && status == Some(0) ==>
        && Covered(s) && consumed == order
        && |order| <= |old(observations)| && observations == old(observations)[|order|..]
      ensures error.NoError? && status != Some(0) ==>
        status.Some? && |ran| == |consumed| + 1 && ExitedAs(tree.leaders, tree.k, ran[|consumed|], status.value)
      ensures error.NoError? ==>
        (status == Some(0) ==> |ran| == |consumed|) && JustRan(old(tree.leaders).Keys, tree.leaders.Keys, ran)
      ensures error.Denied? ==> !Covered(s) || RefusedAt(s, old(observations), |consumed|)
      ensures error.Interrupt? ==> |consumed| < |order| && Unfinished(tree)
      ensures tree.reaped == old(tree.reaped) && tree.sent == old(tree.sent)
    {
      hide Tables, Safe, TraceOk, Owns, DeathsStay, MoreLeaders, AllExitedAs, ExitedAs, Covered, ShowsFile, JustRan,
           Unfinished;
      TablesOrder(records, order, targetPaths, pathTargets, captured);
      consumed, status, ran := [], Some(0), [];
      TreeStart(tree.leaders, tree.k);
      NoneRan(tree.leaders.Keys);
      var paths := set p | p in records;
      NotCovered(s, paths);
      if captured != expected || paths == {} || paths != s.consumerArgs {
        return Denied, status, consumed, ran;
      }
      ghost var leaders0, k0 := tree.leaders, tree.k;
      for i := 0 to |order|
        invariant Valid() && consumed == order[..i]
        invariant i <= |old(observations)| && observations == old(observations)[i..]
        invariant tree.Inv() && tree.opening == {}
        invariant tree.reaped == old(tree.reaped) && tree.sent == old(tree.sent)
        invariant tree.failed == old(tree.failed) && tree.stopping == old(tree.stopping)
        invariant |ran| == i && Ate(leaders0, k0, tree.leaders, tree.k, ran)
        invariant forall k :: 0 <= k < i ==> order[k] in records && ShowsFile(old(observations), k, records[order[k]])
      {
        hide Ate;
        ghost var leaders1, k1, leader := tree.leaders, tree.k, 0;
        var code;
        error, code, leader := ConsumeNext(s, tree, i);
        ShownAt(old(observations), i, records[order[i]]);
        AteMore(leaders0, k0, leaders1, k1, ran, tree.leaders, tree.k, leader, code, error.NoError?);
        if !error.NoError? {
          return error, status, consumed, ran;
        }
        ran := ran + [leader];
        if code != 0 {
          return NoError, Some(code), consumed, ran;
        }
        consumed := consumed + [order[i]];
      }
      assert ran[..|consumed|] == ran;
      error := NoError;
    }

    /** `_open` right before the `i`-th consumer: same identity and digest as captured. */
    method StillTheFile(i: nat) returns (ok: bool)
      requires Valid() && i < |order|
      modifies this`observations
      ensures Valid() && order[i] in records
      ensures ok ==> old(observations) != [] && observations == old(observations)[1..]
      ensures ok <==> ShowsFile(old(observations), 0, records[order[i]])
    {
      hide Tables, Safe, Traced;
      TablesHold(records, order, targetPaths, pathTargets, captured, i);
      var seen := Open(order[i]);
      var r := records[order[i]];
      ok := seen.Some? && seen.value.identity == r.identity && seen.value.digest == r.digest;
    }

    /** Producer, then consumers: the first `try` block of `run`. */
    method ProduceAndConsume(s: Script, tree: ClippyTree)
      returns (error: Error, status: Option<int>, consumed: seq<Path>, ghost ran: seq<Serial>, ghost n: nat)
      requires Valid() && used && NothingRecorded() && tree.Inv() && tree.opening == {}
      modifies this`observations, this`records, this`order, this`targetPaths, this`pathTargets, this`captured, tree
      ensures Valid() && tree.Inv() && tree.opening == {}
      ensures tree.failed == old(tree.failed) && tree.stopping == old(tree.stopping)
      ensures error.NoError? ==> status.Some? && SomeoneExitedAs(tree.leaders, tree.k, status.value)
      ensures error.Denied? ==> Refused(s, old(observations), n, |consumed|)
      ensures error.Interrupt? ==> Unfinished(tree)
      ensures tree.reaped == old(tree.reaped) && tree.sent == old(tree.sent)
      ensures error.NoError? && status == Some(0) ==>
        LinesOk(s.lines, old(observations))
        && Linked(s.lines, old(observations), |s.lines|, records, targetPaths, pathTargets)
      ensures error.NoError? && status == Some(0) ==>
        && Covered(s) && consumed == order
        && |ran| == |consumed| + 1 && AllExitedAs(tree.leaders, tree.k, ran, 0)
        && JustRan(old(tree.leaders).Keys, tree.leaders.Keys, ran)
        && CapturedFrom(old(observations), n, records) && |consumed| <= |old(observations)| - n
        && observations == old(observations)[n..][|consumed|..]
        && forall k :: 0 <= k < |consumed| ==>
             consumed[k] in records && ShowsFile(old(observations), n + k, records[consumed[k]])
    {
      hide Tables, Safe, Traced, Owns, DeathsStay, MoreLeaders, AllExitedAs, ExitedAs, CapturedFrom, Stuck, Covered,
           JustRan, Linked, LinesOk, Unfinished, RefusedAt;
      consumed, ran, n := [], [], 0;
      ghost var obs, producer := observations, 0;
      error, status, producer := Produce(s, tree);
      if error.NoError? && status == Some(0) {
        n := |obs| - |observations|;
        ghost var leaders1, k1, next := tree.leaders, tree.k, observations;
        error, status, consumed, ran := Consume(s, tree);
        if error.NoError? && status == Some(0) {
          assert ran[..|consumed|] == ran;
          ProducerToo(leaders1, k1, tree.leaders, tree.k, producer, ran);
          ProducerRan(old(tree.leaders).Keys, producer, tree.leaders.Keys, ran);
          ran := [producer] + ran;
          assert ran[0] == producer;
          forall k | 0 <= k < |consumed| ensures ShowsFile(obs, n + k, records[consumed[k]]) {
            assert next[k] == obs[n + k];
          }
        }
      }
    }

    /** The reclaim is reached: the cohort succeeded, and closure is proven without a cancellation. */
    ghost predicate Reclaims(error: Error, status: Option<int>)
      reads this`receipt
    {
      && error.NoError? && status == Some(0)
      && receipt.Some? && receipt.value.treeSettled && !receipt.value.cancelled
    }

    /** A settled run raises when it was refused, or when its reclaim does not go through. */
    ghost predicate Raises(error: Error, status: Option<int>, works: bool)
      reads this`receipt
    {
      receipt.Some? && receipt.value.treeSettled && (error.Denied? || (Reclaims(error, status) && !works))
    }

    /** The status of a run that returns: 75 without closure, 130 after a cancellation, else its product's. */
    ghost function Effective(error: Error, status: Option<int>): Option<int>
      reads this`receipt
    {
      if receipt.None? || !receipt.value.treeSettled then Some(75)
      else if receipt.value.cancelled || error.Interrupt? then Some(130)
      else status
    }

    /** The second half of `run`: reclaim when everything succeeded, then the outcome. */
    method Conclude(s: Script, error: Error, status: Option<int>, ate: seq<Path>) returns (r: Outcome)
      requires Valid() && used && finished && disk == UNTOUCHED && !cleanupAuthorized && receipt.Some?
      modifies this`observations, this`records, this`order, this`disk, this`trace, this`cleanupAuthorized
      ensures Valid() && !cleanupAuthorized && old(trace) <= trace
      ensures disk.unlinked != {} ==>
        error.NoError? && status == Some(0) && receipt.value.treeSettled && !receipt.value.cancelled
      ensures forall p :: p in disk.unlinked ==>
        Admissible(p) && ObservedTwice(old(observations), old(order), old(records), p)
      // whether it raises, and what it returns otherwise
      ensures r.Raised? <==> Raises(error, status, ReclaimWorks(s, old(observations), old(order), old(records)))
      ensures r.Returned? ==>
        && r.status == Effective(error, status) && r.consumed == ate
        && r.reclaimed == if Reclaims(error, status) then old(order) else []
      ensures !Reclaims(error, status) ==>
        disk == old(disk) && order == old(order) && records == old(records)
      ensures r.Returned? && r.status == Some(0) ==>
        && error.NoError? && status == Some(0) && receipt.value.treeSettled && Settled(disk)
        && r.consumed == ate && r.reclaimed == old(order) && disk.unlinked == set p | p in r.reclaimed
    {
      hide Tables, Safe, Settled, Traced, ObservedTwice, ReclaimWorks;
      var reclaimed: seq<Path> := [];
      if error.NoError? && status == Some(0) && receipt.value.treeSettled && !receipt.value.cancelled {
        var ok;
        ok, reclaimed := ReclaimAll(s);
        if !ok {
          return Raised;
        }
      }
      if !error.NoError? && receipt.value.treeSettled && !error.Interrupt? {
        return Raised;
      }
      var effective := if !receipt.value.treeSettled then Some(75)
        else if receipt.value.cancelled || error.Interrupt? then Some(130) else status;
      r := Returned(effective, ate, reclaimed);
    }

    /** Everything the run does with processes: the producer, the consumers, and `tree.finish`. */
    method Supervise(w: World, s: Script)
      returns (tree: ClippyTree, error: Error, status: Option<int>, consumed: seq<Path>, ghost ran: seq<Serial>,
               ghost n: nat, ghost rounds: seq<Round>)
      requires Valid() && used && NothingRecorded() && WorldOk(w)
      modifies this`observations, this`records, this`order, this`targetPaths, this`pathTargets, this`captured,
               this`receipt, this`finished
      ensures fresh(tree) && Valid() && finished && receipt.Some? && receipt.value.cancelled == tree.cancelled
      ensures receipt.value.treeSettled ==> tree.k.tree == map[]
      ensures receipt.value.treeSettled <==> s.restored && SettledBy(rounds)
      ensures Account(rounds, s.tables, [], tree.sent, !error.NoError?, false, tree.failed,
                      SettledBy(rounds))
      ensures LostTruly(rounds, tree.k.intact) && (s.timeout > 0 ==> rounds != [])
      ensures error.NoError? ==> status.Some? && SomeoneExitedAs(tree.leaders, tree.k, status.value)
      ensures error.Denied? ==> Refused(s, old(observations), n, |consumed|)
      ensures error.Interrupt? ==> Unfinished(tree) || tree.reaped != []
      ensures error.NoError? && status == Some(0) ==>
        LinesOk(s.lines, old(observations))
        && Linked(s.lines, old(observations), |s.lines|, records, targetPaths, pathTargets)
      ensures error.NoError? && status == Some(0) ==>
        && captured == expected && consumed == order && s.consumerArgs == (set p | p in consumed)
        && EveryProcessSucceeded(tree.leaders, tree.k, ran, |consumed|)
        && CapturedFrom(old(observations), n, records) && |consumed| <= |old(observations)| - n
        && observations == old(observations)[n..][|consumed|..]
        && forall k :: 0 <= k < |consumed| ==>
             consumed[k] in records && ShowsFile(old(observations), n + k, records[consumed[k]])
    {
      hide Tables, TraceOk, Owns, AllExitedAs, CapturedFrom, Covered, DeathsStay, CodesKept, Truthful, NoStale,
           CodesAfterReaps, AllReaped, AllExited, Graceful, Calm, ShowsFile, JustRan, EveryProcessSucceeded,
           Overwritable, AfterTurn, SomeoneExitedAs, Account, Linked, LinesOk, RefusedAt;
      tree := new ClippyTree(w.owner, w.foreign, w.next, w.turns);
      assert tree.leaders.Keys == {};
      error, status, consumed, ran, n := ProduceAndConsume(s, tree);
      ghost var leaders1, k1 := tree.leaders, tree.k;
      if error.NoError? && status == Some(0) {
        CoveredMeans(s);
      }
      var settlement;
      settlement, rounds := FinishTree(tree, s, !error.NoError?);
      if error.NoError? {
        TreeStart(leaders1, k1);
        SomeoneStill(leaders1, k1, tree.leaders, tree.k, status.value);
      }
      if error.NoError? && status == Some(0) {
        FinishStill(leaders1, k1, tree.leaders, tree.k, ran);
      }
      receipt, finished := Some(settlement), true;
    }

    /** `run(...)`. Every durable state of the run is safe (part of `Valid`), and whatever is unlinked was a
        fresh product, consumed with success and observed unchanged, of a cohort whose producer and consumers
        all exited with status 0 and left no process behind. */
    method Run(w: World, s: Script)
      returns (r: Outcome, tree: ClippyTree?, ghost consumed: seq<Path>, ghost ran: seq<Serial>,
               ghost granted: map<Path, Record>, ghost n: nat, ghost error: Error, ghost status: Option<int>,
               ghost rounds: seq<Round>)
      requires Valid() && WorldOk(w)
      modifies this
      ensures Valid() && used && !cleanupAuthorized && old(trace) <= trace
      ensures old(used) ==> r == Raised && disk == old(disk) && trace == old(trace)
      ensures !old(used) && disk.unlinked != {} ==>
        && tree != null && tree.k.tree == map[] && !tree.cancelled
        && captured == expected && s.consumerArgs == (set p | p in consumed)
        && EveryProcessSucceeded(tree.leaders, tree.k, ran, |consumed|)
      ensures !old(used) ==> forall p :: p in disk.unlinked ==>
        MayBeOpened(p) && Justified(old(observations), n, granted, consumed, p)
      ensures !old(used) && tree != null ==> receipt.Some?
      ensures !old(used) ==> (tree == null <==> !s.owner) && (tree == null ==> r.Raised?)
      // closure, turn by turn
      ensures !old(used) && tree != null ==>
        && (receipt.value.treeSettled <==> s.restored && SettledBy(rounds))
        && (receipt.value.treeSettled ==> tree.k.tree == map[]) && receipt.value.cancelled == tree.cancelled
        && LostTruly(rounds, tree.k.intact) && (s.timeout > 0 ==> rounds != [])
        && Account(rounds, s.tables, [], tree.sent, !error.NoError?, false, tree.failed,
                   SettledBy(rounds))
      // how producing and consuming ended, and why
      ensures !old(used) && tree != null ==>
        && (error.NoError? ==> status.Some? && SomeoneExitedAs(tree.leaders, tree.k, status.value))
        && (error.Denied? ==> Refused(s, old(observations), n, |consumed|))
        && (error.Interrupt? ==> Unfinished(tree) || tree.reaped != [])
        && (error.NoError? && status == Some(0) ==>
              && LinesOk(s.lines, old(observations)) && s.consumerArgs == (set p | p in consumed)
              && EveryProcessSucceeded(tree.leaders, tree.k, ran, |consumed|))
      // whether it raises, and what it returns otherwise
      ensures !old(used) && tree != null ==>
        (r.Raised? <==> Raises(error, status, WorksAfter(s, old(observations), n, consumed, granted)))
      ensures !old(used) && tree != null && r.Returned? ==>
        && r.status == Effective(error, status) && r.consumed == consumed
        && r.reclaimed == if Reclaims(error, status) then consumed else []
      ensures !old(used) && r.Returned? && r.status == Some(0) ==>
        && Settled(disk) && r.reclaimed == r.consumed == consumed && disk.unlinked == (set p | p in consumed)
        && tree != null && tree.k.tree == map[]
    {
      hide Tables, Safe, Settled, Traced, EveryProcessSucceeded, CapturedFrom, Justified, ObservedTwice, ShowsFile,
           SomeoneExitedAs, Account, Linked, LinesOk, Refused, ReclaimWorks, Unfinished;
      consumed, ran, granted, n, tree := [], [], map[], 0, null;
      error, status, rounds := NoError, None, [];
      if used {
        cleanupAuthorized := false;
        return Raised, tree, consumed, ran, granted, n, error, status, rounds;
      }
      used := true;
      cleanupAuthorized := false;
      if !s.owner {
        return Raised, tree, consumed, ran, granted, n, error, status, rounds;
      }
      ghost var obs := observations;
      var e, st, ate;
      tree, e, st, ate, ran, n, rounds := Supervise(w, s);
      error, status, consumed, granted := e, st, ate, records;
      r := Conclude(s, e, st, ate);
      forall p | p in disk.unlinked ensures Justified(obs, n, granted, consumed, p) {
        Justify(obs, n, granted, consumed, p);
      }
    }

    lemma CoveredMeans(s: Script)
      requires Covered(s)
      ensures captured == expected && s.consumerArgs == set p | p in order
    {
    }
  }

  lemma SeenTwice(obs: seq<Option<Record>>, order: seq<Path>, granted: map<Path, Record>, i: nat)
    requires i < |order| && order[i] in granted
    requires Shows(obs, i, granted[order[i]]) && Shows(obs, |order| + i, granted[order[i]])
    ensures ObservedTwice(obs, order, granted, order[i])
  {
  }

  lemma ShownAt(obs: seq<Option<Record>>, i: nat, r: Record)
    requires i <= |obs|
    ensures ShowsFile(obs[i..], 0, r) <==> ShowsFile(obs, i, r)
  {
  }

  lemma TreeStart(leaders: map<Serial, Pid>, k: Kernel)
    ensures DeathsStay(k, k) && MoreLeaders(leaders, leaders) && AllExitedAs(leaders, k, [], 0)
  {
  }

  /** The consumers that ran all exited with 0, and nobody else was started. */
  ghost predicate Ate(leaders0: map<Serial, Pid>, k0: Kernel, leaders: map<Serial, Pid>, k: Kernel, ran: seq<Serial>) {
    && DeathsStay(k0, k) && MoreLeaders(leaders0, leaders) && AllExitedAs(leaders, k, ran, 0)
    && JustRan(leaders0.Keys, leaders.Keys, ran)
  }

  lemma AteMore(leaders0: map<Serial, Pid>, k0: Kernel, leaders1: map<Serial, Pid>, k1: Kernel, ran: seq<Serial>,
                leaders: map<Serial, Pid>, k: Kernel, leader: Serial, code: int, ended: bool)
    requires Ate(leaders0, k0, leaders1, k1, ran) && DeathsStay(k1, k) && MoreLeaders(leaders1, leaders)
    requires ended ==> ExitedAs(leaders, k, leader, code)
    requires ended ==> leader !in leaders1 && leaders.Keys == leaders1.Keys + {leader}
    ensures DeathsStay(k0, k) && MoreLeaders(leaders0, leaders) && AllExitedAs(leaders, k, ran, 0)
    ensures ran[..|ran|] == ran
    ensures ended ==> (ran + [leader])[..|ran|] == ran && JustRan(leaders0.Keys, leaders.Keys, ran + [leader])
    ensures ended && code == 0 ==> Ate(leaders0, k0, leaders, k, ran + [leader])
  {
    hide DeathsStay, MoreLeaders, AllExitedAs, ExitedAs, JustRan;
    TreeStep(leaders0, k0, leaders1, k1, leaders, k, ran);
    if ended {
      OneMoreRan(leaders0.Keys, leaders1.Keys, ran, leader);
      if code == 0 {
        OneMore(leaders, k, ran, leader);
      }
    }
  }

  lemma TreeStep(leaders0: map<Serial, Pid>, k0: Kernel, leaders: map<Serial, Pid>, k: Kernel,
                 leaders': map<Serial, Pid>, k': Kernel, ran: seq<Serial>)
    requires DeathsStay(k0, k) && MoreLeaders(leaders0, leaders) && AllExitedAs(leaders, k, ran, 0)
    requires DeathsStay(k, k') && MoreLeaders(leaders, leaders')
    ensures DeathsStay(k0, k') && MoreLeaders(leaders0, leaders') && AllExitedAs(leaders', k', ran, 0)
  {
    DeathsTrans(k0, k, k');
    ExitedStill(leaders, k, leaders', k', ran, 0);
  }

  lemma OneMore(leaders: map<Serial, Pid>, k: Kernel, ran: seq<Serial>, leader: Serial)
    requires AllExitedAs(leaders, k, ran, 0) && ExitedAs(leaders, k, leader, 0)
    ensures AllExitedAs(leaders, k, ran + [leader], 0)
  {
  }

  lemma ProducerToo(leaders: map<Serial, Pid>, k: Kernel, leaders': map<Serial, Pid>, k': Kernel, producer: Serial,
                    ran: seq<Serial>)
    requires ExitedAs(leaders, k, producer, 0) && MoreLeaders(leaders, leaders') && DeathsStay(k, k')
    requires AllExitedAs(leaders', k', ran, 0)
    ensures AllExitedAs(leaders', k', [producer] + ran, 0)
  {
  }

  lemma FinishStill(leaders: map<Serial, Pid>, k: Kernel, leaders': map<Serial, Pid>, k': Kernel, ran: seq<Serial>)
    requires AllExitedAs(leaders, k, ran, 0) && leaders' == leaders && DeathsStay(k, k')
    requires JustRan({}, leaders.Keys, ran) && ran != []
    ensures EveryProcessSucceeded(leaders', k', ran, |ran| - 1)
  {
    hide JustRan;
    EveryoneRan(leaders', k', ran);
  }

  lemma SettledSafe(d: Disk)
    requires Settled(d)
    ensures Safe(d)
  {
  }

  lemma SettledAgain(d: Disk, p: Path, e: Disk)
    requires Settled(d) && Safe(e)
    requires e == Synced(Written(d.(unlinked := d.unlinked + {p}), Reclaimed(p)))
    ensures Settled(e)
  {
    RecordSettles(d, p);
  }

  /** The authorisation is on disk; now so is the receipt's name. */
  lemma NamedSafe(d: Disk, records: map<Path, Record>)
    requires Safe(d) && d.unlinked == {} && d.log == [Authorization(records)] && d.synced == 1
    ensures Settled(d.(named := true))
  {
    assert ReclaimedIn(d.log) == {};
  }

  lemma TablesAdd(records: map<Path, Record>, order: seq<Path>, targetPaths: map<Key, Path>,
                  pathTargets: map<Path, Key>, captured: set<Key>, path: Path, seen: Record, key: Key)
    requires Tables(records, order, targetPaths, pathTargets, captured)
    requires key in targetPaths ==> targetPaths[key] == path
    requires path in pathTargets ==> pathTargets[path] == key
    ensures Tables(records[path := seen], if path in records then order else order + [path],
                   targetPaths[key := path], pathTargets[path := key], captured + {key})
  {
  }

  lemma TablesHold(records: map<Path, Record>, order: seq<Path>, targetPaths: map<Key, Path>,
                   pathTargets: map<Path, Key>, captured: set<Key>, i: nat)
    requires Tables(records, order, targetPaths, pathTargets, captured) && i < |order|
    ensures order[i] in records
  {
  }

  lemma TablesDistinct(records: map<Path, Record>, order: seq<Path>, targetPaths: map<Key, Path>,
                       pathTargets: map<Path, Key>, captured: set<Key>)
    requires Tables(records, order, targetPaths, pathTargets, captured)
    ensures NoDup(order) && forall p :: p in order ==> p in records
  {
  }

  lemma AllDistinct<T>(s: seq<T>, i: nat)
    requires NoDup(s) && i < |s|
    ensures s[i] !in s[i + 1..]
  {
  }

  lemma TablesOrder(records: map<Path, Record>, order: seq<Path>, targetPaths: map<Key, Path>,
                    pathTargets: map<Path, Key>, captured: set<Key>)
    requires Tables(records, order, targetPaths, pathTargets, captured)
    ensures records.Keys == set p | p in order
  {
  }

  lemma TablesDrop(records: map<Path, Record>, order: seq<Path>, targetPaths: map<Key, Path>,
                   pathTargets: map<Path, Key>, captured: set<Key>)
    requires Tables(records, order, targetPaths, pathTargets, captured) && order != []
    ensures Tables(records - {order[0]}, order[1..], targetPaths, pathTargets, captured)
  {
    assert order == [order[0]] + order[1..];
  }
}
