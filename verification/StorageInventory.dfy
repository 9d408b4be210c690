/** `inventory`: a clipped, deduplicating walk over four resource roots. */
module StorageInventory {
  import opened Sets
  import opened Wrappers
  import opened Graphs

  /** Native device and inode: the identity of a file, whatever its names. */
  datatype Id = Id(device: nat, inode: nat)

  /** What `lstat` shows. `Odd` stands for links, missing identities and unsupported entries. */
  datatype Kind = File | Dir | Odd

  /** A directory entry: the file it names, and whether that name makes it a fingerprint to read. */
  datatype Entry = Entry(id: Id, fingerprint: bool)

  datatype Node = Node(kind: Kind, size: nat, blocks: Option<nat>, children: seq<Entry>)

  /** A quiescent file system: names that resolve to nothing are ids outside the map. */
  type FileSystem = map<Id, Node>

  /** `size`, only for regular files. */
  function Apparent(n: Node): nat {
    if n.kind.File? then n.size else 0
  }

  ghost function ChildIds(n: Node): set<Id> {
    if n.kind.Dir? then set i | 0 <= i < |n.children| :: n.children[i].id else {}
  }

  /** The file graph: which files a directory names. */
  ghost function FileGraph(fs: FileSystem): Graph<Id> {
    map x | x in fs :: ChildIds(fs[x])
  }

  /** Everything below `root` can be stated and is a regular file or a directory. */
  ghost predicate Supported(fs: FileSystem, x: Id) {
    x in fs && !fs[x].kind.Odd?
  }

  // ----- sums over sets of files -----

  ghost function Total<T(!new)>(f: T -> nat, s: set<T>): nat
    decreases |s|
  {
    if s == {} then 0 else
      var x :| x in s;
      f(x) + Total(f, s - {x})
  }

  lemma {:induction false} TotalAdd<T(!new)>(f: T -> nat, s: set<T>, x: T)
    requires x in s
    ensures Total(f, s) == f(x) + Total(f, s - {x})
    decreases |s|
  {
    var y :| y in s && Total(f, s) == f(y) + Total(f, s - {y});
    if y != x {
      TotalAdd(f, s - {y}, x);
      TotalAdd(f, s - {x}, y);
      assert s - {y} - {x} == s - {x} - {y};
    }
  }

  lemma {:induction false} TotalMonotone<T(!new)>(f: T -> nat, a: set<T>, b: set<T>)
    requires a <= b
    ensures Total(f, a) <= Total(f, b)
    decreases |b|
  {
    if x :| x in b {
      TotalAdd(f, b, x);
      if x in a {
        TotalAdd(f, a, x);
        TotalMonotone(f, a - {x}, b - {x});
      } else {
        TotalMonotone(f, a, b - {x});
      }
    }
  }

  ghost function SizeOf(fs: FileSystem): Id -> nat {
    x => if x in fs && fs[x].kind == File then fs[x].size else 0
  }

  ghost function AllocatedOf(fs: FileSystem): Id -> nat {
    x => if x in fs && fs[x].blocks.Some? then 512 * fs[x].blocks.value else 0
  }

  /** `sum(value[0] for value in seen.values())`. */
  method SumApparent(fs: FileSystem, seen: set<Id>) returns (total: nat)
    requires seen <= fs.Keys
    ensures total == Total(SizeOf(fs), seen)
  {
    total := 0;
    var todo := seen;
    while todo != {}
      invariant todo <= seen && total + Total(SizeOf(fs), todo) == Total(SizeOf(fs), seen)
      decreases todo
    {
      var x :| x in todo;
      TotalAdd(SizeOf(fs), todo, x);
      total := total + Apparent(fs[x]);
      todo := todo - {x};
    }
  }

  /** The allocated bytes, or nothing when some file does not report them. */
  method SumAllocated(fs: FileSystem, seen: set<Id>) returns (total: Option<nat>)
    requires seen <= fs.Keys
    ensures total.Some? <==> forall x :: x in seen ==> fs[x].blocks.Some?
    ensures total.Some? ==> total.value == Total(AllocatedOf(fs), seen)
  {
    var sum := 0;
    var todo := seen;
    while todo != {}
      invariant todo <= seen && sum + Total(AllocatedOf(fs), todo) == Total(AllocatedOf(fs), seen)
      invariant forall x :: x in seen && x !in todo ==> fs[x].blocks.Some?
      decreases todo
    {
      var x :| x in todo;
      if fs[x].blocks.None? {
        return None;
      }
      TotalAdd(AllocatedOf(fs), todo, x);
      sum := sum + 512 * fs[x].blocks.value;
      todo := todo - {x};
    }
    total := Some(sum);
  }

  // ----- one resource -----

  datatype Limits = Limits(maxEntries: nat, maxDepth: nat, maxFingerprints: nat, maxFingerprintBytes: nat)

  /** How one `read_file` of a fingerprint goes: refused before reading, failed while reading, or so many
      bytes read; `valid` says whether what was read was accepted. */
  datatype Read = Refused | Broken | Bytes(count: nat, valid: bool)

  /** The bytes `read_file` charges: what it read, at most one more than allowed, and all of that when it cannot
      tell; nothing when it refuses to read. */
  function Charged(r: Read, allowed: nat): nat {
    match r
    case Refused => 0
    case Broken => allowed + 1
    case Bytes(count, _) => if count <= allowed + 1 then count else allowed + 1
  }

  predicate Accepted(r: Read, allowed: nat) {
    r.Bytes? && r.valid && r.count <= allowed
  }

  /** What reading one fingerprint file does: nothing but note that it is clipped when a limit is reached, otherwise
      charge what the next reading takes and count it if it is accepted within the limit. */
  ghost predicate ReadOne(limits: Limits, readings: seq<Read>, bytes: nat, count: nat, clipped: bool,
                          readings': seq<Read>, bytes': nat, count': nat, clipped': bool)
  {
    if count >= limits.maxFingerprints || bytes >= limits.maxFingerprintBytes then
      clipped' && bytes' == bytes && count' == count && readings' == readings
    else
      var next := if readings == [] then Refused else readings[0];
      var allowed := limits.maxFingerprintBytes - bytes;
      && bytes' == bytes + Charged(next, allowed)
      && count' == count + (if Accepted(next, allowed) then 1 else 0)
      && clipped' == (clipped || !Accepted(next, allowed))
      && readings' == if readings == [] then [] else readings[1..]
  }

  datatype Pending = Pending(entry: Entry, depth: nat)

  /** What one resource's record states. */
  datatype Resource = Resource(complete: bool, observed: set<Id>, observedApparent: nat, observedAllocated: Option<nat>,
                               apparentBytes: Option<nat>, allocatedBytes: Option<nat>)

  /** The names of a directory, as they are pushed. */
  ghost function PendingOf(n: Node, depth: nat): (s: seq<Pending>)
    ensures |s| == |n.children|
  {
    seq(|n.children|, i requires 0 <= i < |n.children| => Pending(n.children[i], depth + 1))
  }

  ghost function Waiting(stack: seq<Pending>): set<Id> {
    set i | 0 <= i < |stack| :: stack[i].entry.id
  }

  /** Everything seen or waiting hangs from the root; as long as nothing went wrong, every file a seen
      directory names has been seen or is waiting. */
  ghost predicate Walking(fs: FileSystem, root: Id, seen: set<Id>, stack: seq<Pending>, clean: bool) {
    && seen <= fs.Keys
    && (forall x :: x in seen ==> Supported(fs, x))
    && (forall x :: x in seen || x in Waiting(stack) ==> Reach(FileGraph(fs), root, x))
    && (clean ==> root in seen || root in Waiting(stack))
    && (clean ==> forall x, y {:trigger Edge(FileGraph(fs), x, y)} ::
          x in seen && Edge(FileGraph(fs), x, y) ==> y in seen || y in Waiting(stack))
  }

  /** The files under `root`. */
  ghost predicate IsReachSet(fs: FileSystem, root: Id, seen: set<Id>) {
    forall x :: x in seen <==> Reach(FileGraph(fs), root, x)
  }

  lemma WalkDone(fs: FileSystem, root: Id, seen: set<Id>)
    requires Walking(fs, root, seen, [], true)
    ensures IsReachSet(fs, root, seen) && forall x :: x in seen ==> Supported(fs, x)
  {
    hide Reach, FileGraph;
    assert Waiting([]) == {} && root in seen;
    assert forall x, y {:trigger Edge(FileGraph(fs), x, y)} :: x in seen && Edge(FileGraph(fs), x, y) ==> y in seen;
    forall x | Reach(FileGraph(fs), root, x) ensures x in seen {
      ReachStaysInside(FileGraph(fs), seen, root, x);
    }
  }

  lemma WalkStart(fs: FileSystem, root: Entry)
    ensures Walking(fs, root.id, {}, [Pending(root, 0)], true)
  {
    ReachRefl(FileGraph(fs), root.id);
    assert [Pending(root, 0)][0].entry.id == root.id;
  }

  /** Popping an entry that is already seen, or that spoils the walk. */
  lemma WalkPop(fs: FileSystem, root: Id, seen: set<Id>, stack: seq<Pending>, clean: bool)
    requires Walking(fs, root, seen, stack, clean) && stack != []
    ensures Walking(fs, root, seen, stack[..|stack| - 1], false)
    ensures stack[|stack| - 1].entry.id in seen ==> Walking(fs, root, seen, stack[..|stack| - 1], clean)
    ensures Reach(FileGraph(fs), root, stack[|stack| - 1].entry.id)
    ensures Waiting(stack) == Waiting(stack[..|stack| - 1]) + {stack[|stack| - 1].entry.id}
  {
    hide Reach, FileGraph;
    WaitingSnoc(stack[..|stack| - 1], stack[|stack| - 1]);
    assert stack == stack[..|stack| - 1] + [stack[|stack| - 1]];
  }

  lemma WaitingSnoc(stack: seq<Pending>, p: Pending)
    ensures Waiting(stack + [p]) == Waiting(stack) + {p.entry.id}
  {
    var more := stack + [p];
    assert more[|stack|] == p;
    forall x | x in Waiting(stack) ensures x in Waiting(more) {
      var i :| 0 <= i < |stack| && stack[i].entry.id == x;
      assert more[i].entry.id == x;
    }
  }

  /** A newly seen file whose named files, if any, have all been pushed. */
  lemma WalkSee(fs: FileSystem, root: Id, seen: set<Id>, stack: seq<Pending>, clean: bool, x: Id, after: seq<Pending>)
    requires Supported(fs, x) && Reach(FileGraph(fs), root, x)
    requires Walking(fs, root, seen, stack, false)
    requires clean ==> (root in seen || root == x || root in Waiting(stack))
    requires clean ==> forall a, b {:trigger Edge(FileGraph(fs), a, b)} ::
      a in seen && Edge(FileGraph(fs), a, b) ==> b in seen || b == x || b in Waiting(stack)
    requires Waiting(stack) <= Waiting(after) <= Waiting(stack) + ChildIds(fs[x])
    requires clean ==> Waiting(after) == Waiting(stack) + ChildIds(fs[x])
    ensures Walking(fs, root, seen + {x}, after, clean)
  {
    hide Reach;
    forall y | y in ChildIds(fs[x]) ensures Reach(FileGraph(fs), root, y) {
      assert Edge(FileGraph(fs), x, y);
      ReachEdge(FileGraph(fs), x, y);
      ReachTrans(FileGraph(fs), root, x, y);
    }
  }

  /** How many names a directory holds. */
  ghost function NamesIn(fs: FileSystem): Id -> nat {
    x => if x in fs && fs[x].kind.Dir? then |fs[x].children| else 0
  }

  /** A root the limits are generous enough for: `below` is everything under it, all supported, no deeper
      than allowed, with fewer names than entries left, and the clock never runs out. */
  ghost predicate Fits(fs: FileSystem, root: Id, below: set<Id>, limits: Limits, used: nat, clock: seq<bool>) {
    && IsReachSet(fs, root, below) && (forall x :: x in below ==> Supported(fs, x))
    && |below| <= limits.maxDepth && used + 1 + Total(NamesIn(fs), below) <= limits.maxEntries
    && true !in clock
  }

  /** Entries visited plus entries waiting are the names met so far; nothing is deeper than the number of
      files seen. */
  ghost predicate WithinBudget(fs: FileSystem, below: set<Id>, seen: set<Id>, stack: seq<Pending>,
                               entries: nat, used: nat)
  {
    && seen <= below && entries + |stack| == used + 1 + Total(NamesIn(fs), seen)
    && forall i :: 0 <= i < |stack| ==> stack[i].depth <= |seen|
  }

  lemma BudgetStart(fs: FileSystem, below: set<Id>, root: Entry, used: nat)
    ensures WithinBudget(fs, below, {}, [Pending(root, 0)], used, used)
  {
  }

  /** In a fitting walk the next entry is allowed: within the entry limit and, for an unseen file, deep
      enough, supported, and with room for all its names. */
  lemma BudgetNext(fs: FileSystem, root: Id, below: set<Id>, limits: Limits, clock: seq<bool>, seen: set<Id>,
                   stack: seq<Pending>, entries: nat, used: nat)
    requires Fits(fs, root, below, limits, used, clock) && WithinBudget(fs, below, seen, stack, entries, used)
    requires stack != [] && Reach(FileGraph(fs), root, stack[|stack| - 1].entry.id)
    ensures entries < limits.maxEntries
    ensures var top := stack[|stack| - 1];
      && Supported(fs, top.entry.id) && top.entry.id in below
      && (top.entry.id !in seen ==> top.depth < limits.maxDepth)
      && (top.entry.id !in seen ==> entries + |stack| + NamesIn(fs)(top.entry.id) <= limits.maxEntries)
  {
    hide Reach;
    TotalMonotone(NamesIn(fs), seen, below);
    var x := stack[|stack| - 1].entry.id;
    if x !in seen {
      TotalMonotone(NamesIn(fs), seen + {x}, below);
      TotalAdd(NamesIn(fs), seen + {x}, x);
      assert seen + {x} - {x} == seen;
      ProperSubsetCount(seen, below, x);
    }
  }

  lemma BudgetPop(fs: FileSystem, below: set<Id>, seen: set<Id>, stack: seq<Pending>, entries: nat, used: nat)
    requires WithinBudget(fs, below, seen, stack, entries, used) && stack != []
    ensures WithinBudget(fs, below, seen, stack[..|stack| - 1], entries + 1, used)
    ensures stack[|stack| - 1].depth <= |seen|
  {
  }

  lemma BudgetSee(fs: FileSystem, below: set<Id>, seen: set<Id>, stack: seq<Pending>, entries: nat, used: nat, x: Id,
                  depth: nat, after: seq<Pending>)
    requires WithinBudget(fs, below, seen, stack, entries, used) && x in below && x !in seen && depth <= |seen|
    requires stack <= after && |after| == |stack| + NamesIn(fs)(x)
    requires forall i :: |stack| <= i < |after| ==> after[i].depth == depth + 1
    ensures WithinBudget(fs, below, seen + {x}, after, entries, used)
  {
    TotalAdd(NamesIn(fs), seen + {x}, x);
    assert seen + {x} - {x} == seen;
  }

  /** The first `n` readings of the clock were taken, and none was late. */
  ghost predicate OnTime(before: seq<bool>, after: seq<bool>, n: nat) {
    && after == (if n <= |before| then before[n..] else [])
    && forall i :: 0 <= i < n && i < |before| ==> !before[i]
  }

  lemma OnTimeMore(a: seq<bool>, b: seq<bool>, c: seq<bool>, m: nat, n: nat)
    requires OnTime(a, b, m) && OnTime(b, c, n)
    ensures OnTime(a, c, m + n)
  {
    forall i | 0 <= i < m + n && i < |a| ensures !a[i] {
      assert i >= m ==> b[i - m] == a[i];
    }
  }

  /** What a walk that has met no obstacle has cost so far: one entry per name met and not waiting, and one reading of
      the clock before each entry and before each name of a directory. */
  ghost predicate Spent(fs: FileSystem, seen: set<Id>, waiting: nat, entries: nat, used: nat,
                        clock0: seq<bool>, clock: seq<bool>)
  {
    && used <= entries && entries + waiting == used + 1 + Total(NamesIn(fs), seen)
    && OnTime(clock0, clock, entries - used + Total(NamesIn(fs), seen))
  }

  /** A walk of `d` names leads from the root to `x`. */
  ghost predicate NamedAt(fs: FileSystem, root: Id, x: Id, d: nat) {
    exists p :: WalkFromTo(FileGraph(fs), p, root, x) && |p| == d + 1
  }

  /** Depths are lengths of walks. */
  ghost predicate DepthsOk(fs: FileSystem, root: Id, stack: seq<Pending>) {
    forall i :: 0 <= i < |stack| ==> NamedAt(fs, root, stack[i].entry.id, stack[i].depth)
  }

  /** Every directory seen is named by a walk shorter than the limit. */
  ghost predicate WithinDepth(fs: FileSystem, root: Id, seen: set<Id>, limits: Limits) {
    forall x :: x in seen && x in fs && fs[x].kind.Dir? ==> ShallowAt(fs, root, x, limits.maxDepth)
  }

  ghost predicate ShallowAt(fs: FileSystem, root: Id, x: Id, limit: nat) {
    exists d: nat :: d < limit && NamedAt(fs, root, x, d)
  }

  lemma DepthStart(fs: FileSystem, root: Entry)
    ensures DepthsOk(fs, root.id, [Pending(root, 0)])
  {
    assert WalkFromTo(FileGraph(fs), [root.id], root.id, root.id);
  }

  lemma DepthChild(fs: FileSystem, root: Id, x: Id, d: nat, i: nat)
    requires x in fs && fs[x].kind.Dir? && i < |fs[x].children| && NamedAt(fs, root, x, d)
    ensures NamedAt(fs, root, fs[x].children[i].id, d + 1)
  {
    var g, y := FileGraph(fs), fs[x].children[i].id;
    var p :| WalkFromTo(g, p, root, x) && |p| == d + 1;
    assert Edge(g, x, y);
    var q := p + [y];
    forall k | 0 <= k < |q| - 1 ensures Edge(g, q[k], q[k + 1]) {
      assert k < |p| - 1 ==> Edge(g, p[k], p[k + 1]);
    }
    assert WalkFromTo(g, q, root, y);
  }

  /** Pushing the names of a directory. */
  lemma DepthPush(fs: FileSystem, root: Id, stack: seq<Pending>, x: Id, d: nat, after: seq<Pending>)
    requires DepthsOk(fs, root, stack) && NamedAt(fs, root, x, d) && stack <= after
    requires forall i :: |stack| <= i < |after| ==>
      x in fs && fs[x].kind.Dir? && i - |stack| < |fs[x].children|
      && after[i] == Pending(fs[x].children[i - |stack|], d + 1)
    ensures DepthsOk(fs, root, after)
  {
    hide NamedAt;
    forall i | 0 <= i < |after| ensures NamedAt(fs, root, after[i].entry.id, after[i].depth) {
      if i < |stack| {
        assert after[i] == stack[i];
      } else {
        assert after[i].depth == d + 1;
        DepthChild(fs, root, x, d, i - |stack|);
      }
    }
  }

  lemma DepthPop(fs: FileSystem, root: Id, stack: seq<Pending>, top: Pending)
    requires DepthsOk(fs, root, stack + [top])
    ensures DepthsOk(fs, root, stack) && NamedAt(fs, root, top.entry.id, top.depth)
  {
    hide NamedAt;
    var all := stack + [top];
    assert all[|stack|] == top && forall i :: 0 <= i < |stack| ==> all[i] == stack[i];
  }

  lemma DepthSeen(fs: FileSystem, root: Id, seen: set<Id>, limits: Limits, x: Id, d: nat)
    requires WithinDepth(fs, root, seen, limits) && NamedAt(fs, root, x, d)
    requires x in fs && fs[x].kind.Dir? ==> d < limits.maxDepth
    ensures WithinDepth(fs, root, seen + {x}, limits)
  {
    hide NamedAt;
  }

  lemma NoneDeep(fs: FileSystem, root: Id, limits: Limits)
    ensures WithinDepth(fs, root, {}, limits)
  {
  }

  lemma SpentStart(fs: FileSystem, used: nat, clock: seq<bool>)
    ensures Spent(fs, {}, 1, used, used, clock, clock)
  {
  }

  /** Popping an entry, on time. */
  lemma SpentPop(fs: FileSystem, seen: set<Id>, waiting: nat, entries: nat, used: nat, clock0: seq<bool>,
                 clock: seq<bool>, clock': seq<bool>)
    requires Spent(fs, seen, waiting, entries, used, clock0, clock) && waiting > 0 && OnTime(clock, clock', 1)
    ensures Spent(fs, seen, waiting - 1, entries + 1, used, clock0, clock')
  {
    hide OnTime;
    OnTimeMore(clock0, clock, clock', entries - used + Total(NamesIn(fs), seen), 1);
  }

  /** Seeing a file, its names pushed on time. */
  lemma SpentSee(fs: FileSystem, seen: set<Id>, waiting: nat, entries: nat, used: nat, clock0: seq<bool>,
                 clock: seq<bool>, clock': seq<bool>, x: Id)
    requires Spent(fs, seen, waiting, entries, used, clock0, clock) && x !in seen
    requires OnTime(clock, clock', NamesIn(fs)(x))
    ensures Spent(fs, seen + {x}, waiting + NamesIn(fs)(x), entries, used, clock0, clock')
  {
    hide OnTime;
    TotalAdd(NamesIn(fs), seen + {x}, x);
    assert seen + {x} - {x} == seen;
    OnTimeMore(clock0, clock, clock', entries - used + Total(NamesIn(fs), seen), NamesIn(fs)(x));
  }

  lemma SpentEnd(fs: FileSystem, seen: set<Id>, entries: nat, used: nat, clock0: seq<bool>, clock: seq<bool>)
    requires Spent(fs, seen, 0, entries, used, clock0, clock)
    ensures entries == used + 1 + Total(NamesIn(fs), seen)
    ensures OnTime(clock0, clock, 1 + 2 * Total(NamesIn(fs), seen))
  {
    hide OnTime;
  }

  lemma NoReading(clock: seq<bool>)
    ensures OnTime(clock, clock, 0)
  {
  }

  class Walker {
    const fs: FileSystem
    const limits: Limits
    var clock: seq<bool>
    var readings: seq<Read>
    var entries: nat
    var combined: set<Id>
    var fingerprintBytes: nat
    var fingerprints: nat
    var fingerprintsClipped: bool

    /** The bounds that hold at every moment of the inventory. */
    ghost predicate Bounded()
      reads this
    {
      entries <= limits.maxEntries && fingerprintBytes <= limits.maxFingerprintBytes + 1
      && fingerprints <= limits.maxFingerprints
    }

    constructor (files: FileSystem, bounds: Limits, late: seq<bool>, outcomes: seq<Read>)
      ensures Bounded() && fs == files && limits == bounds && combined == {} && entries == 0
    {
      fs, limits, clock, readings := files, bounds, late, outcomes;
      entries, combined, fingerprintBytes, fingerprints, fingerprintsClipped := 0, {}, 0, 0, false;
    }

    ghost predicate FingerprintsKept(r: seq<Read>, bytes: nat, count: nat, clipped: bool)
      reads this`readings, this`fingerprintBytes, this`fingerprints, this`fingerprintsClipped
    {
      readings == r && fingerprintBytes == bytes && fingerprints == count && fingerprintsClipped == clipped
    }

    /** `time.monotonic() >= deadline`. */
    method Late() returns (late: bool)
      modifies this`clock
      ensures late == (old(clock) != [] && old(clock)[0])
      ensures clock == if old(clock) == [] then [] else old(clock)[1..]
      ensures true !in old(clock) ==> !late && true !in clock
      ensures !late ==> OnTime(old(clock), clock, 1)
    {
      late := clock != [] && clock[0];
      if clock != [] { clock := clock[1..]; }
    }

    /** Reading one fingerprint file, charging what was read before anything is validated. */
    method ReadFingerprint()
      requires Bounded()
      modifies this`readings, this`fingerprintBytes, this`fingerprints, this`fingerprintsClipped
      ensures Bounded()
      ensures ReadOne(limits, old(readings), old(fingerprintBytes), old(fingerprints), old(fingerprintsClipped),
                      readings, fingerprintBytes, fingerprints, fingerprintsClipped)
    {
      if fingerprints >= limits.maxFingerprints || fingerprintBytes >= limits.maxFingerprintBytes {
        fingerprintsClipped := true;
        return;
      }
      var allowed := limits.maxFingerprintBytes - fingerprintBytes;
      var outcome := if readings == [] then Refused else readings[0];
      if readings != [] { readings := readings[1..]; }
      match outcome {
        case Refused =>
          fingerprintsClipped := true;
        case Broken =>
          fingerprintBytes := fingerprintBytes + allowed + 1;
          fingerprintsClipped := true;
        case Bytes(count, valid) =>
          // stream.read(limit + 1) returns at most that many bytes
          var got := if count <= allowed + 1 then count else allowed + 1;
          fingerprintBytes := fingerprintBytes + got;
          if valid && got <= allowed {
            fingerprints := fingerprints + 1;
          } else {
            fingerprintsClipped := true;
          }
      }
    }

    /** The `scandir` loop: push the entries until the walk is clipped. */
    method PushChildren(stack: seq<Pending>, n: Node, depth: nat) returns (after: seq<Pending>, clipped: bool)
      requires n.kind.Dir?
      modifies this`clock
      ensures Waiting(stack) <= Waiting(after) <= Waiting(stack) + ChildIds(n)
      ensures !clipped ==> Waiting(after) == Waiting(stack) + ChildIds(n)
      ensures stack <= after <= stack + PendingOf(n, depth)
      ensures !clipped ==> after == stack + PendingOf(n, depth) && OnTime(old(clock), clock, |n.children|)
      ensures true !in old(clock) ==> true !in clock
      ensures true !in old(clock) && entries + |stack| + |n.children| <= limits.maxEntries ==> !clipped
    {
      hide Waiting, ChildIds, OnTime, PendingOf;
      NoReading(clock);
      after, clipped := stack, false;
      ghost var names := PendingOf(n, depth);
      var i := 0;
      while i < |n.children| && !clipped
        invariant i <= |n.children| && after == stack + names[..i]
        invariant !clipped ==> OnTime(old(clock), clock, i)
        invariant true !in old(clock) ==> true !in clock
        invariant true !in old(clock) && entries + |stack| + |n.children| <= limits.maxEntries ==> !clipped
        decreases |n.children| - i, !clipped
      {
        ghost var before := clock;
        var late := Late();
        if !late { OnTimeMore(old(clock), before, clock, i, 1); }
        if entries + |after| >= limits.maxEntries || late {
          clipped := true;
        } else {
          OnePending(n, depth, i);
          after := after + [Pending(n.children[i], depth + 1)];
          i := i + 1;
        }
      }
      WaitingNames(stack, n, depth, i);
      assert names[..|names|] == names && stack + names == stack + names[..i] + names[i..];
    }

    /** What the walk does with an unseen, supported file: enter a directory, read a fingerprint. */
    method Expand(top: Pending, stack: seq<Pending>) returns (after: seq<Pending>, ok: bool)
      requires Bounded() && Supported(fs, top.entry.id)
      modifies this`clock, this`readings, this`fingerprintBytes, this`fingerprints, this`fingerprintsClipped
      ensures Bounded()
      ensures Waiting(stack) <= Waiting(after) <= Waiting(stack) + ChildIds(fs[top.entry.id])
      ensures ok ==> Waiting(after) == Waiting(stack) + ChildIds(fs[top.entry.id])
      ensures ok ==> stack <= after && |after| == |stack| + NamesIn(fs)(top.entry.id)
      ensures ok ==> OnTime(old(clock), clock, NamesIn(fs)(top.entry.id))
      // a fingerprint is read exactly when the entry is a file named as one
      ensures if fs[top.entry.id].kind.File? && top.entry.fingerprint
        then ReadOne(limits, old(readings), old(fingerprintBytes), old(fingerprints), old(fingerprintsClipped),
                     readings, fingerprintBytes, fingerprints, fingerprintsClipped)
        else FingerprintsKept(old(readings), old(fingerprintBytes), old(fingerprints), old(fingerprintsClipped))
      ensures stack <= after && |after| <= |stack| + NamesIn(fs)(top.entry.id)
      ensures forall i :: |stack| <= i < |after| ==>
        after[i] == Pending(fs[top.entry.id].children[i - |stack|], top.depth + 1)
      // a file is no obstacle, and a directory is none exactly when its depth, the entries and the clock allow it
      ensures !fs[top.entry.id].kind.Dir? ==> ok
      ensures ok && fs[top.entry.id].kind.Dir? ==> top.depth < limits.maxDepth
      ensures true !in old(clock) ==> true !in clock
      ensures (true !in old(clock) && top.depth < limits.maxDepth
               && entries + |stack| + NamesIn(fs)(top.entry.id) <= limits.maxEntries) ==> ok
    {
      hide Waiting, OnTime;
      NoReading(clock);
      var n := fs[top.entry.id];
      after, ok := stack, true;
      if n.kind.Dir? {
        if top.depth >= limits.maxDepth {
          ok := false;
        } else {
          var clipped;
          after, clipped := PushChildren(stack, n, top.depth);
          ok := !clipped;
        }
      } else if top.entry.fingerprint {
        ReadFingerprint();
      }
    }

    /** One popped entry. An unsupported file spoils the walk; a file already seen costs nothing more. */
    method Visit(top: Pending, stack: seq<Pending>, seen: set<Id>, complete: bool,
                 ghost root: Id, ghost below: set<Id>, ghost used: nat, ghost fits: bool, ghost clock0: seq<bool>)
      returns (seen': set<Id>, after: seq<Pending>, complete': bool)
      requires Bounded() && entries > 0 && Walking(fs, root, seen, stack + [top], complete)
      requires fits ==> Fits(fs, root, below, limits, used, []) && true !in clock
      requires fits ==> WithinBudget(fs, below, seen, stack + [top], entries - 1, used)
      requires complete ==> Spent(fs, seen, |stack|, entries, used, clock0, clock)
      requires DepthsOk(fs, root, stack + [top]) && (complete ==> WithinDepth(fs, root, seen, limits))
      modifies this`clock, this`readings, this`fingerprintBytes, this`fingerprints, this`fingerprintsClipped,
               this`combined
      ensures Bounded() && Walking(fs, root, seen', after, complete') && (complete' ==> complete)
      ensures seen <= seen' && combined == old(combined) + (seen' - seen)
      ensures complete' ==> Spent(fs, seen', |after|, entries, used, clock0, clock)
      ensures DepthsOk(fs, root, after) && (complete' ==> WithinDepth(fs, root, seen', limits))
      ensures if top.entry.id in fs && fs[top.entry.id].kind.File? && top.entry.id !in seen && top.entry.fingerprint
        then ReadOne(limits, old(readings), old(fingerprintBytes), old(fingerprints), old(fingerprintsClipped),
                     readings, fingerprintBytes, fingerprints, fingerprintsClipped)
        else FingerprintsKept(old(readings), old(fingerprintBytes), old(fingerprints), old(fingerprintsClipped))
      ensures fits ==> complete' == complete && true !in clock && WithinBudget(fs, below, seen', after, entries, used)
    {
      hide Reach, Walking, IsReachSet, Waiting, WithinBudget, Fits, Total, ChildIds, Spent, OnTime,
           ReadOne, NamedAt;
      WalkPop(fs, root, seen, stack + [top], complete);
      DepthPop(fs, root, stack, top);
      assert (stack + [top])[..|stack|] == stack;
      if fits {
        BudgetNext(fs, root, below, limits, [], seen, stack + [top], entries - 1, used);
        BudgetPop(fs, below, seen, stack + [top], entries - 1, used);
      }
      var id := top.entry.id;
      seen', after, complete' := seen, stack, complete;
      if id !in fs || fs[id].kind.Odd? {
        complete' := false;
      } else if id !in seen {
        var ok;
        ghost var before := clock;
        after, ok := Expand(top, stack);
        complete' := complete && ok;
        DepthPush(fs, root, stack, id, top.depth, after);
        if complete' {
          DepthSeen(fs, root, seen, limits, id, top.depth);
          SpentSee(fs, seen, |stack|, entries, used, clock0, before, clock, id);
        }
        WalkVisit(fs, root, seen, stack + [top], complete, after, complete');
        if fits {
          BudgetSee(fs, below, seen, stack, entries, used, id, top.depth, after);
        }
        seen' := seen + {id};
        combined := combined + {id};
      }
    }

    /** The walk below one root. Complete means the files seen are exactly those reachable from it, and a
        root that fits the limits is always walked completely, at a cost of one entry per name. */
    method Walk(root: Entry, ghost below: set<Id>) returns (complete: bool, seen: set<Id>)
      requires Bounded()
      modifies this
      ensures Bounded() && entries >= old(entries)
      ensures seen <= fs.Keys && combined == old(combined) + seen
      ensures complete ==> IsReachSet(fs, root.id, seen) && forall x :: x in seen ==> Supported(fs, x)
      // what a complete walk costs, exactly: it is one only if that is within the limits
      ensures complete ==> entries == old(entries) + 1 + Total(NamesIn(fs), seen)
      ensures complete ==> OnTime(old(clock), clock, 1 + 2 * Total(NamesIn(fs), seen))
      ensures complete ==> WithinDepth(fs, root.id, seen, limits)
      ensures Fits(fs, root.id, below, limits, old(entries), old(clock)) ==>
        complete && true !in clock && entries <= old(entries) + 1 + Total(NamesIn(fs), below)
    {
      hide Reach, Walking, IsReachSet, Waiting, WithinBudget, Fits, Total, ChildIds, OnTime, Spent,
           DepthsOk, WithinDepth;
      SpentStart(fs, entries, clock);
      DepthStart(fs, root);
      NoneDeep(fs, root.id, limits);
      ghost var clock0 := clock;
      seen, complete := {}, true;
      var stack := [Pending(root, 0)];
      WalkStart(fs, root);
      ghost var used, fits := entries, Fits(fs, root.id, below, limits, entries, clock);
      FitsClock(fs, root.id, below, limits, entries, clock);
      BudgetStart(fs, below, root, entries);
      var stop := false;
      while stack != [] && !stop
        invariant Bounded() && entries >= old(entries)
        invariant Walking(fs, root.id, seen, stack, complete) && combined == old(combined) + seen
        invariant stop ==> !complete
        invariant complete ==> Spent(fs, seen, |stack|, entries, used, clock0, clock)
        invariant DepthsOk(fs, root.id, stack) && (complete ==> WithinDepth(fs, root.id, seen, limits))
        invariant fits ==> complete && true !in clock && WithinBudget(fs, below, seen, stack, entries, used)
        invariant fits ==> Fits(fs, root.id, below, limits, used, [])
        decreases limits.maxEntries - entries, !stop
      {
        WalkPop(fs, root.id, seen, stack, complete);
        if fits {
          BudgetNext(fs, root.id, below, limits, [], seen, stack, entries, used);
        }
        ghost var before := clock;
        var late := Late();
        if entries >= limits.maxEntries || late {
          WalkSpoiled(fs, root.id, seen, stack, complete);
          complete, stop := false, true;
        } else {
          entries := entries + 1;
          var top := stack[|stack| - 1];
          assert stack[..|stack| - 1] + [top] == stack;
          if complete {
            SpentPop(fs, seen, |stack|, entries - 1, used, clock0, before, clock);
          }
          stack := stack[..|stack| - 1];
          seen, stack, complete := Visit(top, stack, seen, complete, root.id, below, used, fits, clock0);
        }
      }
      WalkKeys(fs, root.id, seen, stack, complete);
      if complete {
        WalkDone(fs, root.id, seen);
        SpentEnd(fs, seen, entries, used, clock0, clock);
      }
      if fits {
        BudgetEnd(fs, below, seen, entries, used);
      }
    }

    /** The record of one resource. */
    method Describe(complete: bool, seen: set<Id>) returns (r: Resource)
      requires seen <= fs.Keys
      ensures r.complete == complete && r.observed == seen && Reported(fs, r)
    {
      var apparent := SumApparent(fs, seen);
      var allocatedBytes := SumAllocated(fs, seen);
      r := Resource(complete, seen, apparent, allocatedBytes,
                    if complete then Some(apparent) else None, if complete then allocatedBytes else None);
    }

    /** `inventory(paths)`. A complete resource reports the bytes of exactly the distinct files reachable
        from its root; a complete inventory reports those of their union, each file once. */
    method Inventory(roots: seq<Entry>, ghost below: seq<set<Id>>) returns (resources: seq<Resource>, all: Resource)
      requires Bounded() && combined == {} && entries == 0 && |below| == |roots|
      modifies this
      ensures Bounded()
      ensures |resources| == |roots|
      ensures forall i :: 0 <= i < |roots| ==> Reported(fs, resources[i])
      ensures forall i :: 0 <= i < |roots| && resources[i].complete ==>
        IsReachSet(fs, roots[i].id, resources[i].observed)
        && WithinDepth(fs, roots[i].id, resources[i].observed, limits)
      ensures Reported(fs, all)
      ensures all.complete <==> forall i :: 0 <= i < |roots| ==> resources[i].complete
      ensures forall x :: x in all.observed <==> exists i :: 0 <= i < |roots| && x in resources[i].observed
      ensures all.complete ==> forall x :: x in all.observed <==>
        exists i :: 0 <= i < |roots| && Reach(FileGraph(fs), roots[i].id, x)
      ensures AllFit(fs, roots, below, limits, old(clock)) ==> all.complete
    {
      hide Reach, IsReachSet, Reported, Fits, AllFit, WithinDepth, OnTime;
      resources := [];
      var complete := true;
      ghost var fits := AllFit(fs, roots, below, limits, clock);
      for i := 0 to |roots|
        invariant Bounded() && |resources| == i && combined <= fs.Keys
        invariant fits ==> complete && entries <= Needed(fs, below, i) && AllFit(fs, roots, below, limits, clock)
        invariant forall k :: 0 <= k < i ==> Reported(fs, resources[k])
        invariant forall k :: 0 <= k < i && resources[k].complete ==>
          IsReachSet(fs, roots[k].id, resources[k].observed)
          && WithinDepth(fs, roots[k].id, resources[k].observed, limits)
        invariant complete <==> forall k :: 0 <= k < i ==> resources[k].complete
        invariant forall x :: x in combined <==> exists k :: 0 <= k < i && x in resources[k].observed
      {
        ghost var clock0 := clock;
        if fits {
          NextFits(fs, roots, below, limits, clock, i, entries);
        }
        var ok, seen := Walk(roots[i], below[i]);
        if fits {
          StillFits(fs, roots, below, limits, clock0, clock);
        }
        var r := Describe(ok, seen);
        ghost var before := resources;
        resources := resources + [r];
        complete := complete && ok;
        assert forall k :: 0 <= k < i ==> resources[k] == before[k];
        assert resources[i] == r;
      }
      all := Describe(complete, combined);
      if complete {
        forall x ensures x in combined <==> exists i :: 0 <= i < |roots| && Reach(FileGraph(fs), roots[i].id, x) {
          UnionOfReach(fs, roots, resources, x);
        }
      }
    }
  }

  /** How many entries the first `i` roots take. */
  ghost function Needed(fs: FileSystem, below: seq<set<Id>>, i: nat): nat
    requires i <= |below|
  {
    if i == 0 then 0 else Needed(fs, below, i - 1) + 1 + Total(NamesIn(fs), below[i - 1])
  }

  /** The limits are generous enough for all roots together. */
  ghost predicate AllFit(fs: FileSystem, roots: seq<Entry>, below: seq<set<Id>>, limits: Limits, clock: seq<bool>)
    requires |below| == |roots|
  {
    && (forall i :: 0 <= i < |roots| ==> IsReachSet(fs, roots[i].id, below[i]) && |below[i]| <= limits.maxDepth)
    && (forall i, x :: 0 <= i < |roots| && x in below[i] ==> Supported(fs, x))
    && Needed(fs, below, |roots|) <= limits.maxEntries && true !in clock
  }

  lemma {:induction false} NeededGrows(fs: FileSystem, below: seq<set<Id>>, i: nat, j: nat)
    requires i <= j <= |below|
    ensures Needed(fs, below, i) <= Needed(fs, below, j)
  {
    if i < j {
      NeededGrows(fs, below, i, j - 1);
    }
  }

  lemma NextFits(fs: FileSystem, roots: seq<Entry>, below: seq<set<Id>>, limits: Limits, clock: seq<bool>,
                 i: nat, entries: nat)
    requires |below| == |roots| && i < |roots|
    requires AllFit(fs, roots, below, limits, clock) && entries <= Needed(fs, below, i)
    ensures Fits(fs, roots[i].id, below[i], limits, entries, clock)
    ensures Needed(fs, below, i + 1) == Needed(fs, below, i) + 1 + Total(NamesIn(fs), below[i])
  {
    hide IsReachSet;
    NeededGrows(fs, below, i + 1, |roots|);
  }

  lemma StillFits(fs: FileSystem, roots: seq<Entry>, below: seq<set<Id>>, limits: Limits, clock: seq<bool>,
                  clock': seq<bool>)
    requires |below| == |roots| && AllFit(fs, roots, below, limits, clock) && true !in clock'
    ensures AllFit(fs, roots, below, limits, clock')
  {
    hide IsReachSet;
  }

  /** What a record says about its bytes: the totals over the files observed, each file once, as observed
      bytes in any case and as the resource's bytes when it is complete. */
  ghost predicate Reported(fs: FileSystem, r: Resource) {
    && r.observedApparent == Total(SizeOf(fs), r.observed)
    && (r.observedAllocated.Some? <==> forall x :: x in r.observed ==> x in fs && fs[x].blocks.Some?)
    && (r.observedAllocated.Some? ==> r.observedAllocated.value == Total(AllocatedOf(fs), r.observed))
    && r.apparentBytes == (if r.complete then Some(r.observedApparent) else None)
    && r.allocatedBytes == (if r.complete then r.observedAllocated else None)
  }

  lemma UnionOfReach(fs: FileSystem, roots: seq<Entry>, resources: seq<Resource>, x: Id)
    requires |roots| == |resources|
    requires forall k :: 0 <= k < |roots| ==> IsReachSet(fs, roots[k].id, resources[k].observed)
    ensures (exists k :: 0 <= k < |roots| && x in resources[k].observed) <==>
      exists k :: 0 <= k < |roots| && Reach(FileGraph(fs), roots[k].id, x)
  {
    hide Reach;
    if k :| 0 <= k < |roots| && x in resources[k].observed {
      assert IsReachSet(fs, roots[k].id, resources[k].observed);
      assert Reach(FileGraph(fs), roots[k].id, x);
    }
    if k :| 0 <= k < |roots| && Reach(FileGraph(fs), roots[k].id, x) {
      assert IsReachSet(fs, roots[k].id, resources[k].observed);
      assert x in resources[k].observed;
    }
  }

  lemma BudgetEnd(fs: FileSystem, below: set<Id>, seen: set<Id>, entries: nat, used: nat)
    requires WithinBudget(fs, below, seen, [], entries, used)
    ensures entries <= used + 1 + Total(NamesIn(fs), below)
  {
    TotalMonotone(NamesIn(fs), seen, below);
  }

  lemma FitsClock(fs: FileSystem, root: Id, below: set<Id>, limits: Limits, used: nat, clock: seq<bool>)
    ensures Fits(fs, root, below, limits, used, clock) <==> Fits(fs, root, below, limits, used, []) && true !in clock
  {
    hide IsReachSet;
  }

  lemma OnePending(n: Node, depth: nat, i: nat)
    requires i < |n.children|
    ensures PendingOf(n, depth)[..i + 1] == PendingOf(n, depth)[..i] + [Pending(n.children[i], depth + 1)]
  {
  }

  /** What waits once the first `i` names of a directory are pushed. */
  lemma {:induction false} WaitingNames(stack: seq<Pending>, n: Node, depth: nat, i: nat)
    requires n.kind.Dir? && i <= |n.children|
    ensures var waiting := Waiting(stack + PendingOf(n, depth)[..i]);
      && Waiting(stack) <= waiting <= Waiting(stack) + ChildIds(n)
      && (forall k :: 0 <= k < i ==> n.children[k].id in waiting)
      && (i == |n.children| ==> waiting == Waiting(stack) + ChildIds(n))
  {
    hide Waiting, PendingOf;
    if i == 0 {
      assert stack + PendingOf(n, depth)[..0] == stack;
    } else {
      WaitingNames(stack, n, depth, i - 1);
      OnePending(n, depth, i - 1);
      var before := stack + PendingOf(n, depth)[..i - 1];
      assert stack + PendingOf(n, depth)[..i] == before + [Pending(n.children[i - 1], depth + 1)];
      WaitingSnoc(before, Pending(n.children[i - 1], depth + 1));
    }
  }

  lemma WalkSpoiled(fs: FileSystem, root: Id, seen: set<Id>, stack: seq<Pending>, clean: bool)
    requires Walking(fs, root, seen, stack, clean)
    ensures Walking(fs, root, seen, stack, false)
  {
    hide Reach, FileGraph;
  }

  lemma WalkEdges(fs: FileSystem, root: Id, seen: set<Id>, stack: seq<Pending>, clean: bool)
    requires Walking(fs, root, seen, stack, clean)
    ensures clean ==> root in seen || root in Waiting(stack)
    ensures clean ==> forall x, y {:trigger Edge(FileGraph(fs), x, y)} ::
      x in seen && Edge(FileGraph(fs), x, y) ==> y in seen || y in Waiting(stack)
  {
    hide Reach, FileGraph;
  }

  /** Visiting the unseen, supported file on top of the stack. */
  lemma WalkVisit(fs: FileSystem, root: Id, seen: set<Id>, stack: seq<Pending>, clean: bool,
                  after: seq<Pending>, clean': bool)
    requires Walking(fs, root, seen, stack, clean) && stack != [] && (clean' ==> clean)
    requires Supported(fs, stack[|stack| - 1].entry.id)
    requires Waiting(stack[..|stack| - 1]) <= Waiting(after)
      <= Waiting(stack[..|stack| - 1]) + ChildIds(fs[stack[|stack| - 1].entry.id])
    requires clean' ==>
      Waiting(after) == Waiting(stack[..|stack| - 1]) + ChildIds(fs[stack[|stack| - 1].entry.id])
    ensures Walking(fs, root, seen + {stack[|stack| - 1].entry.id}, after, clean')
  {
    hide Reach, FileGraph, Walking, ChildIds, Waiting, Supported;
    WalkPop(fs, root, seen, stack, clean);
    WalkEdges(fs, root, seen, stack, clean);
    WalkSee(fs, root, seen, stack[..|stack| - 1], clean', stack[|stack| - 1].entry.id, after);
  }

  lemma WalkKeys(fs: FileSystem, root: Id, seen: set<Id>, stack: seq<Pending>, clean: bool)
    requires Walking(fs, root, seen, stack, clean)
    ensures seen <= fs.Keys
  {
    hide Reach, FileGraph;
  }
}
