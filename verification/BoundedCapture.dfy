/** The bounded capture of a child's two output streams: two reader threads and a polling classifier. */
module BoundedCapture {
  import opened Wrappers

  type Byte = bv8

  const CHUNK_SIZE: nat := 8192

  /** A reader thread: `content` is the whole stream it would ever read, `pos` how far it got. The two
      flags record what it put into the shared queues before it stopped. */
  datatype Reader = Reader(
    content: seq<Byte>, limit: nat, pos: nat, buffer: seq<Byte>, done: bool, overflowed: bool, failed: bool)

  /** What one `read1` call of a reader brings. */
  datatype Read = Chunk(size: nat) | EndOfStream | Failure

  datatype Which = Stdout | Stderr

  /** A step of the rest of the system. */
  datatype Event = ReaderStep(which: Which, read: Read) | ProcessExit | Tick(ticks: nat)

  function Start(content: seq<Byte>, limit: nat): Reader {
    Reader(content, limit, 0, [], false, false, false)
  }

  /** One turn of the loop of `read_bounded_stream`; a read that cannot happen changes nothing. */
  function Advance(r: Reader, read: Read): Reader {
    if r.done then r else
    match read
    case Failure => r.(done := true, failed := true)
    case EndOfStream => if r.pos == |r.content| then r.(done := true) else r
    case Chunk(n) =>
      if n == 0 || n > CHUNK_SIZE || r.pos + n > |r.content| || |r.buffer| > r.limit then r
      else
        var chunk := r.content[r.pos..r.pos + n];
        var remaining := r.limit - |r.buffer|;
        var kept := if n <= remaining then chunk else chunk[..remaining];
        r.(pos := r.pos + n, buffer := r.buffer + kept, done := n > remaining, overflowed := n > remaining)
  }

  /** What a reader's state says about its stream. */
  ghost predicate ReaderOk(r: Reader) {
    && r.pos <= |r.content| && |r.buffer| <= r.limit
    && (!r.overflowed ==> r.buffer == r.content[..r.pos])
    && (r.overflowed || r.failed ==> r.done)
    && (r.done && !r.overflowed && !r.failed ==> r.pos == |r.content|)
    && (r.overflowed ==> |r.content| > r.limit && r.buffer == r.content[..r.limit])
  }

  lemma AdvanceOk(r: Reader, read: Read)
    requires ReaderOk(r)
    ensures ReaderOk(Advance(r, read))
    ensures Later(r, Advance(r, read))
  {
    if read.Chunk? && !r.done && 0 < read.size <= CHUNK_SIZE && r.pos + read.size <= |r.content| {
      var n, remaining := read.size, r.limit - |r.buffer|;
      var chunk := r.content[r.pos..r.pos + n];
      assert r.content[..r.pos + n] == r.content[..r.pos] + chunk;
      if n > remaining {
        assert r.content[..r.limit] == r.content[..r.pos] + chunk[..remaining];
      }
    }
  }

  /** A chunk that is read advances the reader by its size. Of the whole stream so far the buffer holds what the limit
      allows, and the reader stops, overflowed, exactly when that is not all of it. */
  lemma ChunkRead(r: Reader, n: nat)
    requires ReaderOk(r) && !r.done && 0 < n <= CHUNK_SIZE && r.pos + n <= |r.content|
    ensures var r' := Advance(r, Chunk(n));
      && r'.pos == r.pos + n && r'.buffer == r.content[..if r.pos + n <= r.limit then r.pos + n else r.limit]
      && (r'.done <==> r.pos + n > r.limit) && (r'.overflowed <==> r.pos + n > r.limit) && !r'.failed
  {
    var remaining, chunk := r.limit - |r.buffer|, r.content[r.pos..r.pos + n];
    assert r.content[..r.pos + n] == r.content[..r.pos] + chunk;
    if n > remaining {
      assert r.content[..r.limit] == r.content[..r.pos] + chunk[..remaining];
    }
  }

  /** A reader that ran to its end without a signal holds its whole stream. */
  lemma QuietReaderIsComplete(r: Reader)
    requires ReaderOk(r) && r.done && !r.overflowed && !r.failed
    ensures r.buffer == r.content && |r.content| <= r.limit
  {
    assert r.content[..r.pos] == r.content;
  }

  // ----- the classifier -----

  datatype Verdict = Overflow | ReaderFailed | Hung | TimedOut

  datatype Decision = Decision(done: bool, failure: Option<Verdict>, exitedAt: Option<int>)

  /** `decide_direct_ripr_wait`, on clock readings counted in ticks. */
  function Decide(overflow: bool, readerFailure: bool, exited: bool, readersDone: bool, now: int, deadline: int,
                  exitedAt: Option<int>, postExit: int): Decision
  {
    if overflow then Decision(true, Some(Overflow), exitedAt)
    else if readerFailure then Decision(true, Some(ReaderFailed), exitedAt)
    else if exited then
      var at := if exitedAt.None? then now else exitedAt.value;
      if readersDone then Decision(true, None, Some(at))
      else
        var hang := if at + postExit < deadline then at + postExit else deadline;
        if now >= hang then Decision(true, Some(Hung), Some(at)) else Decision(false, None, Some(at))
    else if now >= deadline then Decision(true, Some(TimedOut), exitedAt)
    else Decision(false, None, exitedAt)
  }

  /** No poll at or after the deadline lets the wait go on. */
  lemma DeadlineEndsWait(overflow: bool, readerFailure: bool, exited: bool, readersDone: bool, now: int, deadline: int,
                         exitedAt: Option<int>, postExit: int)
    requires now >= deadline
    ensures Decide(overflow, readerFailure, exited, readersDone, now, deadline, exitedAt, postExit).done
  {
  }

  /** The wait ends well exactly when nothing was signalled and process and readers are all over. */
  lemma CleanEndIff(overflow: bool, readerFailure: bool, exited: bool, readersDone: bool, now: int, deadline: int,
                    exitedAt: Option<int>, postExit: int)
    ensures var d := Decide(overflow, readerFailure, exited, readersDone, now, deadline, exitedAt, postExit);
      d.done && d.failure.None? <==> !overflow && !readerFailure && exited && readersDone
  {
  }

  /** The order of the samples matters: had the queues been looked at before the threads, a reader that
      overflows in between would be taken for a complete one. */
  lemma QueuesFirstWouldBeWrong(now: int, deadline: int, postExit: int)
    ensures var before := Start([0, 0], 1); var after := Advance(before, Chunk(2));
      && ReaderOk(before) && !before.overflowed && after.done && after.overflowed && after.buffer != after.content
      && var d := Decide(before.overflowed, before.failed, true, after.done, now, deadline, None, postExit);
         d.done && d.failure.None?
  {
    var before := Start([0, 0], 1);
    assert before.content[0..2] == before.content;
  }

  // ----- the wait -----

  class Capture {
    var stdout: Reader
    var stderr: Reader
    var overflow: seq<Which>
    var failures: seq<Which>
    var exited: bool
    var now: int
    var schedule: seq<seq<Event>>

    ghost var takenOverflow: seq<Which>
    ghost var takenFailures: seq<Which>

    /** What the readers put into the queues is there, or the poller has taken it. */
    ghost predicate Inv()
      reads this
    {
      && ReaderOk(stdout) && ReaderOk(stderr)
      && Signalled(stdout.overflowed, Stdout, overflow, takenOverflow)
      && Signalled(stderr.overflowed, Stderr, overflow, takenOverflow)
      && Signalled(stdout.failed, Stdout, failures, takenFailures)
      && Signalled(stderr.failed, Stderr, failures, takenFailures)
    }

    constructor (out: seq<Byte>, outLimit: nat, err: seq<Byte>, errLimit: nat, events: seq<seq<Event>>)
      ensures Inv() && stdout == Start(out, outLimit) && stderr == Start(err, errLimit) && schedule == events
      ensures takenOverflow == [] && takenFailures == []
    {
      stdout, stderr := Start(out, outLimit), Start(err, errLimit);
      overflow, failures, exited, now, schedule := [], [], false, 0, events;
      takenOverflow, takenFailures := [], [];
    }

    /** One event of the rest of the system. */
    method Happen(e: Event)
      requires Inv()
      modifies this`stdout, this`stderr, this`overflow, this`failures, this`exited, this`now
      ensures Inv() && Later(old(stdout), stdout) && Later(old(stderr), stderr)
      ensures now >= old(now) && (old(exited) ==> exited)
      ensures old(stdout.done) && old(stderr.done) ==> overflow == old(overflow) && failures == old(failures)
    {
      hide ReaderOk, Advance;
      match e {
        case ReaderStep(which, read) =>
          var r := if which.Stdout? then stdout else stderr;
          AdvanceOk(r, read);
          var r' := Advance(r, read);
          if r'.overflowed && !r.overflowed { overflow := overflow + [which]; }
          if r'.failed && !r.failed { failures := failures + [which]; }
          if which.Stdout? { stdout := r'; } else { stderr := r'; }
        case ProcessExit =>
          exited := true;
        case Tick(d) =>
          now := now + d;
      }
    }

    /** Between two samples of the poller: any number of events. */
    method Interfere()
      requires Inv()
      modifies this`stdout, this`stderr, this`overflow, this`failures, this`exited, this`now, this`schedule
      ensures Inv() && Later(old(stdout), stdout) && Later(old(stderr), stderr)
      ensures now >= old(now) && (old(exited) ==> exited)
      ensures old(stdout.done) && old(stderr.done) ==> overflow == old(overflow) && failures == old(failures)
    {
      hide ReaderOk;
      if schedule != [] {
        var events := schedule[0];
        schedule := schedule[1..];
        for i := 0 to |events|
          invariant Inv() && Later(old(stdout), stdout) && Later(old(stderr), stderr)
          invariant now >= old(now) && (old(exited) ==> exited)
          invariant old(stdout.done) && old(stderr.done) ==> overflow == old(overflow) && failures == old(failures)
        {
          Happen(events[i]);
        }
      }
    }

    /** `take_overflow`: consume one signal, if there is one. */
    method TakeOverflow() returns (got: bool)
      requires Inv()
      modifies this`overflow, this`takenOverflow
      ensures Inv() && (got ==> stdout.overflowed || stderr.overflowed)
      ensures (got <==> old(overflow) != []) && (got ==> overflow == old(overflow)[1..])
      ensures !got ==> overflow == [] && takenOverflow == old(takenOverflow)
    {
      hide ReaderOk;
      got := overflow != [];
      if got {
        var first := overflow[0];
        assert first.Stdout? || first.Stderr?;
        assert overflow == [first] + overflow[1..];
        takenOverflow := takenOverflow + [first];
        overflow := overflow[1..];
      }
    }

    /** `take_reader_failures`: drain the queue. */
    method TakeFailures() returns (got: bool)
      requires Inv()
      modifies this`failures, this`takenFailures
      ensures Inv() && (got ==> stdout.failed || stderr.failed)
      ensures (got <==> old(failures) != []) && failures == []
      ensures !got ==> failures == [] && takenFailures == old(takenFailures)
    {
      hide ReaderOk;
      got := failures != [];
      if got {
        assert failures[0].Stdout? || failures[0].Stderr?;
        takenFailures := takenFailures + failures;
        failures := [];
      }
    }

    /** The samples of one turn, in the order the call takes them: threads, queues, process, clock. */
    method Sample() returns (p: Poll)
      requires Inv() && takenOverflow == [] && takenFailures == []
      modifies this
      ensures Inv() && Later(old(stdout), stdout) && Later(old(stderr), stderr) && (old(exited) ==> exited)
      ensures old(now) <= p.now == now
      // a thread seen dead is, and one dead before is seen dead
      ensures (!p.outAlive ==> stdout.done) && (old(stdout.done) ==> !p.outAlive)
      ensures (!p.errAlive ==> stderr.done) && (old(stderr.done) ==> !p.errAlive)
      // a signal taken was raised, and one raised before is taken
      ensures (p.overflow ==> stdout.overflowed || stderr.overflowed)
        && (old(stdout.overflowed || stderr.overflowed) ==> p.overflow)
      ensures (p.failure ==> stdout.failed || stderr.failed) && (old(stdout.failed || stderr.failed) ==> p.failure)
      ensures (p.exited ==> exited) && (old(exited) ==> p.exited)
      ensures !p.overflow && !p.failure ==> takenOverflow == [] && takenFailures == []
      ensures !p.overflow && !p.failure && !p.outAlive && !p.errAlive ==>
        !stdout.overflowed && !stderr.overflowed && !stdout.failed && !stderr.failed
    {
      hide ReaderOk;
      Interfere();
      var outAlive := !stdout.done;
      Interfere();
      var errAlive := !stderr.done;
      Interfere();
      var sawOverflow := TakeOverflow();
      Interfere();
      var sawFailure := TakeFailures();
      Interfere();
      var processExited := exited;
      Interfere();
      p := Poll(outAlive, errAlive, sawOverflow, sawFailure, processExited, now);
    }

    /** `wait_for_direct_ripr_capture`. Without a failure both buffers are the complete streams, within
        their limits, and no reader ever signalled anything; a failure names what really happened. The polls say
        when it ended and why. */
    method Wait(timeout: nat, postExit: nat) returns (failure: Option<Verdict>, ghost polls: seq<Poll>)
      requires Inv() && takenOverflow == [] && takenFailures == []
      modifies this
      ensures failure.None? ==>
        && stdout.buffer == stdout.content && |stdout.content| <= stdout.limit
        && stderr.buffer == stderr.content && |stderr.content| <= stderr.limit
        && !stdout.overflowed && !stderr.overflowed && !stdout.failed && !stderr.failed && exited
      ensures failure == Some(Overflow) ==> stdout.overflowed || stderr.overflowed
      ensures failure == Some(ReaderFailed) ==> stdout.failed || stderr.failed
      ensures failure == Some(TimedOut) ==> now >= old(now) + timeout
      ensures failure == Some(Hung) ==> exited
      ensures stdout.content == old(stdout.content) && stderr.content == old(stderr.content)
      // the last poll decides, no earlier one does
      ensures Decides(polls, old(now) + timeout, postExit, failure)
      // what was over before the wait is seen by its first poll, which then ends it
      ensures polls != [] && old(exited) ==> polls[0].exited
      ensures polls != [] && old(stdout.done) ==> !polls[0].outAlive
      ensures polls != [] && old(stderr.done) ==> !polls[0].errAlive
      ensures old(stdout.overflowed || stderr.overflowed) ==> failure == Some(Overflow)
      ensures old(exited && stdout.done && stderr.done) ==>
        failure == if old(stdout.overflowed || stderr.overflowed) then Some(Overflow)
                   else if old(stdout.failed || stderr.failed) then Some(ReaderFailed) else None
    {
      hide ReaderOk, Decide, Decides;
      NoPoll(now + timeout, postExit, now, exited);
      var deadline := now + timeout;
      var exitedAt: Option<int> := None;
      polls := [];
      while true
        invariant Inv() && deadline == old(now) + timeout && takenOverflow == [] && takenFailures == []
        invariant stdout.content == old(stdout.content) && stderr.content == old(stderr.content)
        invariant polls == [] ==>
          stdout == old(stdout) && stderr == old(stderr) && exited == old(exited) && now == old(now)
        invariant SoFar(polls, deadline, postExit, exitedAt, now, exited)
        invariant polls != [] ==>
          && (old(exited) ==> polls[0].exited) && (old(stdout.done) ==> !polls[0].outAlive)
          && (old(stderr.done) ==> !polls[0].errAlive) && !polls[0].overflow && !polls[0].failure
          && !old(stdout.overflowed || stderr.overflowed || stdout.failed || stderr.failed)
          && !(polls[0].exited && !polls[0].outAlive && !polls[0].errAlive)
        decreases deadline - now
      {
        hide SoFar;
        ghost var now0, exited0 := now, exited;
        var p := Sample();
        var readersDone := !p.outAlive && !p.errAlive;
        var d := Decide(p.overflow, p.failure, p.exited, readersDone, now, deadline, exitedAt, postExit);
        OneMorePoll(polls, deadline, postExit, exitedAt, now0, exited0, p, exited);
        polls := polls + [p];
        exitedAt := d.exitedAt;
        if d.done {
          failure := d.failure;
          LastPoll(polls, deadline, postExit, failure);
          if failure.None? {
            QuietReaderIsComplete(stdout);
            QuietReaderIsComplete(stderr);
          }
          return;
        }
        now := now + 1;
      }
    }
  }

  /** One poll of the wait: which threads are alive, whether a signal was taken, whether the process is over, when. */
  datatype Poll = Poll(outAlive: bool, errAlive: bool, overflow: bool, failure: bool, exited: bool, now: int)

  /** The process has been seen to be over for `postExit`. */
  ghost predicate OverFor(polls: seq<Poll>, now: int, postExit: nat) {
    exists j :: 0 <= j < |polls| && polls[j].exited && now >= polls[j].now + postExit
  }

  /** A poll lets the wait go on: nothing was signalled, the deadline is ahead, and if the process is over then some
      reader is alive and the process has not been seen over for too long. */
  ghost predicate GoesOn(polls: seq<Poll>, deadline: int, postExit: nat)
    requires polls != []
  {
    var p := polls[|polls| - 1];
    && !p.overflow && !p.failure && p.now < deadline
    && (p.exited ==> (p.outAlive || p.errAlive) && !OverFor(polls, p.now, postExit))
  }

  /** How a poll ends the wait. */
  ghost predicate Ends(polls: seq<Poll>, deadline: int, postExit: nat, failure: Option<Verdict>)
    requires polls != []
  {
    var p := polls[|polls| - 1];
    match failure
    case None => !p.overflow && !p.failure && p.exited && !p.outAlive && !p.errAlive
    case Some(Overflow) => p.overflow
    case Some(ReaderFailed) => !p.overflow && p.failure
    case Some(Hung) =>
      && !p.overflow && !p.failure && p.exited && (p.outAlive || p.errAlive)
      && (p.now >= deadline || OverFor(polls, p.now, postExit))
    case Some(TimedOut) => !p.overflow && !p.failure && !p.exited && p.now >= deadline
  }

  /** The polls so far, each later than the one before, let the wait go on. */
  ghost predicate Going(polls: seq<Poll>, deadline: int, postExit: nat) {
    && (forall i :: 0 < i <= |polls| ==> GoesOn(polls[..i], deadline, postExit))
    && forall i, j :: 0 <= i < j < |polls| ==> polls[i].now < polls[j].now && (polls[i].exited ==> polls[j].exited)
  }

  /** The last poll ends the wait, and no earlier one does. */
  ghost predicate Decides(polls: seq<Poll>, deadline: int, postExit: nat, failure: Option<Verdict>) {
    && polls != [] && Going(polls[..|polls| - 1], deadline, postExit) && Ends(polls, deadline, postExit, failure)
  }

  /** Going on, with the first time the process was seen to be over. */
  ghost predicate SoFar(polls: seq<Poll>, deadline: int, postExit: nat, exitedAt: Option<int>, now: int, exited: bool) {
    && Going(polls, deadline, postExit)
    && (forall j :: 0 <= j < |polls| ==> polls[j].now < now && (polls[j].exited ==> exited))
    && (exitedAt.None? <==> forall j :: 0 <= j < |polls| ==> !polls[j].exited)
    && (exitedAt.Some? ==> (exists j :: 0 <= j < |polls| && polls[j].exited && polls[j].now == exitedAt.value)
                           && forall j :: 0 <= j < |polls| && polls[j].exited ==> polls[j].now >= exitedAt.value)
  }

  lemma NoPoll(deadline: int, postExit: nat, now: int, exited: bool)
    ensures SoFar([], deadline, postExit, None, now, exited)
  {
  }

  lemma OneMorePoll(polls: seq<Poll>, deadline: int, postExit: nat, exitedAt: Option<int>, now: int, exited: bool,
                    p: Poll, later: bool)
    requires SoFar(polls, deadline, postExit, exitedAt, now, exited) && p.now >= now && (exited ==> p.exited)
    requires p.exited ==> later
    ensures
      var d := Decide(p.overflow, p.failure, p.exited, !p.outAlive && !p.errAlive, p.now, deadline, exitedAt, postExit);
      && (d.done ==> Decides(polls + [p], deadline, postExit, d.failure)) && (!d.done ==> p.now < deadline)
      && (!d.done ==> !p.overflow && !p.failure && !(p.exited && !p.outAlive && !p.errAlive))
      && (!d.done ==> SoFar(polls + [p], deadline, postExit, d.exitedAt, p.now + 1, later))
  {
    hide Decide;
    var readersDone := !p.outAlive && !p.errAlive;
    var d := Decide(p.overflow, p.failure, p.exited, readersDone, p.now, deadline, exitedAt, postExit);
    FailureMeans(p.overflow, p.failure, p.exited, readersDone, p.now, deadline, exitedAt, postExit);
    CleanEndIff(p.overflow, p.failure, p.exited, readersDone, p.now, deadline, exitedAt, postExit);
    if p.now >= deadline {
      DeadlineEndsWait(p.overflow, p.failure, p.exited, readersDone, p.now, deadline, exitedAt, postExit);
    }
    var more := polls + [p];
    assert more[..|polls|] == polls && more[..|more|] == more;
    if p.exited && !p.overflow && !p.failure {
      OverForIs(polls, deadline, postExit, exitedAt, now, exited, p);
    }
    if d.done {
      assert Ends(more, deadline, postExit, d.failure);
    } else {
      forall i | 0 < i <= |more| ensures GoesOn(more[..i], deadline, postExit) {
        assert if i <= |polls| then more[..i] == polls[..i] else more[..i] == more;
      }
    }
  }

  lemma LastPoll(polls: seq<Poll>, deadline: int, postExit: nat, failure: Option<Verdict>)
    requires Decides(polls, deadline, postExit, failure)
    ensures var p := polls[|polls| - 1];
      && (failure.None? <==> !p.overflow && !p.failure && p.exited && !p.outAlive && !p.errAlive)
      && (failure == Some(Overflow) <==> p.overflow) && (failure == Some(ReaderFailed) <==> !p.overflow && p.failure)
      && (failure == Some(TimedOut) ==> p.now >= deadline) && (failure == Some(Hung) ==> p.exited)
  {
    hide Going, OverFor;
  }

  /** The process has been over for too long exactly when the first time it was seen to be over says so. */
  lemma OverForIs(polls: seq<Poll>, deadline: int, postExit: nat, exitedAt: Option<int>, now: int, exited: bool,
                  p: Poll)
    requires SoFar(polls, deadline, postExit, exitedAt, now, exited) && p.now >= now && p.exited
    ensures OverFor(polls + [p], p.now, postExit) <==>
      p.now >= (if exitedAt.Some? then exitedAt.value else p.now) + postExit
  {
    hide Going;
    var more := polls + [p];
    assert more[|polls|] == p && forall j :: 0 <= j < |polls| ==> more[j] == polls[j];
    if exitedAt.Some? {
      var j :| 0 <= j < |polls| && polls[j].exited && polls[j].now == exitedAt.value;
      assert more[j].exited;
    }
  }

  lemma FailureMeans(overflow: bool, readerFailure: bool, exited: bool, readersDone: bool, now: int, deadline: int,
                     exitedAt: Option<int>, postExit: int)
    ensures var d := Decide(overflow, readerFailure, exited, readersDone, now, deadline, exitedAt, postExit);
      && (d.failure == Some(Overflow) <==> overflow)
      && (overflow || readerFailure || d.failure.Some? ==> d.done) && (!exited ==> d.exitedAt == exitedAt)
      && (d.failure == Some(ReaderFailed) <==> !overflow && readerFailure)
      && (d.failure == Some(TimedOut) <==> !overflow && !readerFailure && !exited && now >= deadline)
      && (d.failure == Some(Hung) <==>
           (!overflow && !readerFailure && exited && !readersDone && d.exitedAt.Some?
            && (now >= deadline || now >= d.exitedAt.value + postExit)))
      && (exited && !overflow && !readerFailure ==> d.exitedAt == if exitedAt.Some? then exitedAt else Some(now))
  {
  }

  /** A reader has raised a signal exactly when it is queued or has been taken out. */
  ghost predicate Signalled(raised: bool, who: Which, queue: seq<Which>, taken: seq<Which>) {
    raised <==> who in queue || who in taken
  }

  /** A reader some time later: a stopped one has not changed. */
  ghost predicate Later(r: Reader, r': Reader) {
    && r'.content == r.content && r'.limit == r.limit
    && (r.done ==> r' == r) && (r.overflowed ==> r'.overflowed) && (r.failed ==> r'.failed)
  }
}
