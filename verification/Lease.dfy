/** The mkdir-based admission lease, run by any number of cooperating processes. */
module Lease {
  import opened Wrappers

  type RunId = nat

  /** Inode number: unique among existing directories, free for reuse once one is removed. */
  type Ino = nat

  /** An owner marker, `owner-<uuid>`; the uuid is drawn by the run that creates it. */
  datatype Marker = Marker(ino: Ino)

  /** The directory `cargo-active`: who created it, its inode, the markers inside by their creator. */
  datatype LockDir = LockDir(creator: RunId, ino: Ino, markers: map<RunId, Marker>)

  /** Where a run is between two system calls. */
  datatype Stage =
    | Waiting                                   // before lock.mkdir()
    | Created                                   // mkdir done, identity not read yet
    | Identified(ino: Ino)                      // identity read, marker not made
    | Marked(ino: Ino)                          // marker made, its identity not read
    | Holding(ino: Ino, marker: Ino)            // lease held
    | Releasing(ino: Ino, marker: Ino)          // lock identity confirmed
    | OwnsLock(ino: Ino, marker: Ino)           // owns_lease: lock identity confirmed again
    | OwnsMarker(ino: Ino)                      // owns_lease: marker identity confirmed too
    | MarkerGone(ino: Ino)                      // marker.rmdir() done
    | Aborting(ino: Ino)                        // marker failed: release without marker
    | AbortConfirmed(ino: Ino)                  // lock identity confirmed
    | Over                                      // refused, released, retained or crashed

  /** One step of one run, or of the operator who clears leases that nobody uses any more. */
  datatype Event =
    | Mkdir(run: RunId, ino: Ino)
    | Identify(run: RunId)
    | MakeMarker(run: RunId, ino: Ino, ok: bool)
    | IdentifyMarker(run: RunId, ok: bool)
    | BeginRelease(run: RunId)
    | CheckLockAgain(run: RunId)
    | CheckMarker(run: RunId)
    | RemoveMarker(run: RunId, ok: bool)
    | RemoveLock(run: RunId, ok: bool)
    | CheckAbort(run: RunId)
    | Retain(run: RunId)
    | Crash(run: RunId)
    | OperatorClear

  datatype State = State(lock: Option<LockDir>, stages: map<RunId, Stage>)

  function StageOf(s: State, r: RunId): Stage {
    if r in s.stages then s.stages[r] else Waiting
  }

  function Put(s: State, r: RunId, stage: Stage): State {
    s.(stages := s.stages[r := stage])
  }

  predicate InUse(s: State, ino: Ino) {
    && s.lock.Some?
    && (s.lock.value.ino == ino || exists m :: m in s.lock.value.markers && s.lock.value.markers[m].ino == ino)
  }

  /** Between creating the lock directory and either removing it or giving up. */
  predicate InSlot(stage: Stage) {
    !stage.Waiting? && !stage.Over?
  }

  /** `directory_identity(lock) == identity`. */
  predicate LockIs(s: State, ino: Ino) {
    s.lock.Some? && s.lock.value.ino == ino
  }

  /** `directory_identity(marker) == marker_identity`, for the marker of run `r`. */
  predicate MarkerIs(s: State, r: RunId, ino: Ino) {
    s.lock.Some? && r in s.lock.value.markers && s.lock.value.markers[r].ino == ino
  }

  /** One event; an event whose run is not at that point changes nothing. */
  function Apply(s: State, e: Event): State {
    match e
    case Mkdir(r, ino) =>
      if !StageOf(s, r).Waiting? then s
      else if s.lock.Some? then Put(s, r, Over)  // FileExistsError: "slot is active"
      else Put(s.(lock := Some(LockDir(r, ino, map[]))), r, Created)
    case Identify(r) =>
      if StageOf(s, r).Created? then
        (if s.lock.Some? then Put(s, r, Identified(s.lock.value.ino)) else Put(s, r, Over))
      else s
    case MakeMarker(r, ino, ok) =>
      var g := StageOf(s, r);
      if !g.Identified? then s
      else if ok && s.lock.Some? && r !in s.lock.value.markers && !InUse(s, ino) then
        Put(s.(lock := Some(s.lock.value.(markers := s.lock.value.markers[r := Marker(ino)]))), r, Marked(g.ino))
      else Put(s, r, Aborting(g.ino))
    case IdentifyMarker(r, ok) =>
      var g := StageOf(s, r);
      if !g.Marked? then s
      else if ok && s.lock.Some? && r in s.lock.value.markers then
        Put(s, r, Holding(g.ino, s.lock.value.markers[r].ino))
      else Put(s, r, Aborting(g.ino))
    case BeginRelease(r) =>
      var g := StageOf(s, r);
      if !g.Holding? then s
      else if LockIs(s, g.ino) then Put(s, r, Releasing(g.ino, g.marker)) else Put(s, r, Over)
    case CheckLockAgain(r) =>
      var g := StageOf(s, r);
      if !g.Releasing? then s
      else if LockIs(s, g.ino) then Put(s, r, OwnsLock(g.ino, g.marker)) else Put(s, r, Over)
    case CheckMarker(r) =>
      var g := StageOf(s, r);
      if !g.OwnsLock? then s
      else if MarkerIs(s, r, g.marker) then Put(s, r, OwnsMarker(g.ino)) else Put(s, r, Over)
    case RemoveMarker(r, ok) =>
      var g := StageOf(s, r);
      if !g.OwnsMarker? then s
      else if ok && s.lock.Some? && r in s.lock.value.markers then
        Put(s.(lock := Some(s.lock.value.(markers := s.lock.value.markers - {r}))), r, MarkerGone(g.ino))
      else Put(s, r, Over)
    case RemoveLock(r, ok) =>
      var g := StageOf(s, r);
      if !g.MarkerGone? && !g.AbortConfirmed? then s
      else if ok && s.lock.Some? && s.lock.value.markers == map[] then Put(s.(lock := None), r, Over)
      else Put(s, r, Over)
    case CheckAbort(r) =>
      var g := StageOf(s, r);
      if !g.Aborting? then s
      else if LockIs(s, g.ino) then Put(s, r, AbortConfirmed(g.ino)) else Put(s, r, Over)
    case Retain(r) =>
      if StageOf(s, r).Holding? then Put(s, r, Over) else s
    case Crash(r) =>
      Put(s, r, Over)
    case OperatorClear =>
      if s.lock.Some? && !InSlot(StageOf(s, s.lock.value.creator)) then s.(lock := None) else s
  }

  /** An undisturbed run that finds the slot free comes to hold it, with its own marker in its own directory. */
  lemma AcquireHolds(s: State, r: RunId, ino: Ino, marker: Ino)
    requires s.lock.None? && StageOf(s, r).Waiting? && marker != ino
    ensures var t := Apply(Apply(Apply(Apply(s, Mkdir(r, ino)), Identify(r)), MakeMarker(r, marker, true)),
                           IdentifyMarker(r, true));
      && StageOf(t, r) == Holding(ino, marker) && t.lock == Some(LockDir(r, ino, map[r := Marker(marker)]))
  {
    var s1 := Apply(s, Mkdir(r, ino));
    var s2 := Apply(s1, Identify(r));
    assert StageOf(s2, r) == Identified(ino) && s2.lock == Some(LockDir(r, ino, map[]));
    var s3 := Apply(s2, MakeMarker(r, marker, true));
    assert StageOf(s3, r) == Marked(ino) && s3.lock == Some(LockDir(r, ino, map[r := Marker(marker)]));
  }

  /** A run that finds the slot taken gives up and leaves it alone. */
  lemma TakenRefuses(s: State, r: RunId, ino: Ino)
    requires s.lock.Some? && StageOf(s, r).Waiting?
    ensures var t := Apply(s, Mkdir(r, ino)); t.lock == s.lock && StageOf(t, r).Over?
  {
  }

  function Run(s: State, events: seq<Event>): State
    decreases |events|
  {
    if events == [] then s else Run(Apply(s, events[0]), events[1..])
  }

  const START := State(None, map[])

  // ----- the invariant -----

  /** A run in the slot created the directory that is there, and knows its identity; its marker is
      there exactly while the run believes so; nobody else ever put a marker into it. */
  ghost predicate Inv(s: State) {
    && (forall r :: InSlot(StageOf(s, r)) ==> Owner(s, r))
    && (s.lock.Some? ==> forall m :: m in s.lock.value.markers ==> m == s.lock.value.creator)
  }

  ghost predicate Owner(s: State, r: RunId) {
    && s.lock.Some? && s.lock.value.creator == r
    && match StageOf(s, r)
       case Created => s.lock.value.markers == map[]
       case Identified(i) => s.lock.value.ino == i && s.lock.value.markers == map[]
       case Marked(i) => s.lock.value.ino == i && r in s.lock.value.markers
       case Holding(i, m) => s.lock.value.ino == i && MarkerIs(s, r, m)
       case Releasing(i, m) => s.lock.value.ino == i && MarkerIs(s, r, m)
       case OwnsLock(i, m) => s.lock.value.ino == i && MarkerIs(s, r, m)
       case OwnsMarker(i) => s.lock.value.ino == i && r in s.lock.value.markers
       case MarkerGone(i) => s.lock.value.ino == i && s.lock.value.markers == map[]
       case Aborting(i) => s.lock.value.ino == i
       case AbortConfirmed(i) => s.lock.value.ino == i
       case _ => false
  }

  /** Which run a step belongs to. */
  function Actor(e: Event): Option<RunId> {
    match e
    case OperatorClear => None
    case _ => Some(e.run)
  }

  lemma StepInv(s: State, e: Event)
    requires Inv(s)
    ensures Inv(Apply(s, e))
  {
    var t := Apply(s, e);
    forall r | InSlot(StageOf(t, r)) ensures Owner(t, r) {
      if e.OperatorClear? {
        assert Owner(s, r);
      } else if e.run != r {
        assert StageOf(t, r) == StageOf(s, r);
        assert Owner(s, r);
      } else {
        assert InSlot(StageOf(s, r)) ==> Owner(s, r);
      }
    }
  }

  lemma {:induction false} RunInv(s: State, events: seq<Event>)
    requires Inv(s)
    ensures Inv(Run(s, events))
    decreases |events|
  {
    if events != [] {
      StepInv(s, events[0]);
      RunInv(Apply(s, events[0]), events[1..]);
    }
  }

  /** Over every interleaving of any number of runs, with crashes anywhere, inode reuse and an operator
      clearing abandoned leases: at most one run is in the slot, and it owns the directory there. */
  lemma AtMostOneHolder(events: seq<Event>, a: RunId, b: RunId)
    ensures var s := Run(START, events);
      InSlot(StageOf(s, a)) && InSlot(StageOf(s, b)) ==> a == b && s.lock.Some? && s.lock.value.creator == a
  {
    RunInv(START, events);
  }

  /** No run ever removes a directory another run created: a step that makes the lock, or a marker in
      it, disappear is a step of its creator, or the operator's on a lease whose run is over. */
  lemma OnlyOwnDirectoriesRemoved(events: seq<Event>, e: Event)
    ensures var s := Run(START, events); var t := Apply(s, e);
      && (s.lock.Some? && (t.lock.None? || t.lock.value.creator != s.lock.value.creator) ==>
            Actor(e) == Some(s.lock.value.creator) || (Actor(e) == None && !InSlot(StageOf(s, s.lock.value.creator))))
      && (forall m :: s.lock.Some? && t.lock.Some? && m in s.lock.value.markers && m !in t.lock.value.markers ==>
            Actor(e) == Some(m))
  {
    var s := Run(START, events);
    RunInv(START, events);
    if !e.OperatorClear? && InSlot(StageOf(s, e.run)) {
      assert Owner(s, e.run);
    }
  }

  /** In any state whatever, even one left by somebody who cleared a lease in use: a lock that holds
      another run's marker, and that marker, survive every step of a run. */
  lemma ForeignMarkerProtects(s: State, e: Event, m: RunId)
    requires s.lock.Some? && m in s.lock.value.markers && Actor(e).Some? && Actor(e).value != m
    ensures var t := Apply(s, e);
      t.lock.Some? && t.lock.value.ino == s.lock.value.ino && m in t.lock.value.markers
  {
  }

  /** An undisturbed release works: from any reachable holding state the five release steps, each
      call succeeding, leave the slot free. */
  lemma ReleaseFrees(s: State, r: RunId)
    requires Inv(s) && StageOf(s, r).Holding?
    ensures var s1 := Apply(s, BeginRelease(r)); var s2 := Apply(s1, CheckLockAgain(r));
      var s3 := Apply(s2, CheckMarker(r)); var s4 := Apply(s3, RemoveMarker(r, true));
      Apply(s4, RemoveLock(r, true)).lock == None
  {
    assert Owner(s, r);
    var s3 := Apply(Apply(Apply(s, BeginRelease(r)), CheckLockAgain(r)), CheckMarker(r));
    assert s3.lock == s.lock && StageOf(s3, r).OwnsMarker?;
    assert s.lock.value.markers - {r} == map[];
  }
}
