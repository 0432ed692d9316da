/**
 One job in one sandbox (runner/sandbox.go `runSandboxJob`): create, write files, start the process,
 tail its output while it runs, and terminate the sandbox whatever happened.
 */
module SandboxJob {
  import opened Options
  import opened Sequences

  /** streamChunk: the most one read of the streamed file brings. */
  const STREAM_CHUNK: nat := 1048576
  /** Polls that may fail in a row before the sandbox counts as lost. */
  const MAX_FAILURES: nat := 20
  /** Seconds the runner grants a job beyond its own timeout. */
  const GRACE: int := 15

  /** Why a call before the start of the process failed. */
  datatype Cause = WorkspaceFull | BaseNotFound | OtherCause

  datatype Session = SessionError | Session(status: string, exit: Option<int>)

  function Min(a: nat, b: nat): nat { if a <= b then a else b }

  /**
   The Box as one job meets it. Every call takes time, during which the process may append to its
   output and end, and the runner may be told to stop; what a call answers is otherwise up to the Box.
   */
  class Box {
    /** Seconds on an abstract clock. */
    var now: nat
    /** The runner's context has ended. */
    var ctxDone: bool
    /** The streamed file, and whether the session that writes it is still OPEN. */
    var file: seq<Byte>
    var open: bool
    /** Processes started. */
    var starts: nat
    /** Calls up to the start of a process that failed, files written, and reads of a job's log. */
    var refused: nat
    var written: nat
    var logReads: nat
    /** Sandbox ids answered by creates, and ids a terminate was sent for. */
    var obtained: seq<string>
    var terminated: seq<string>

    constructor ()
      ensures obtained == [] && terminated == [] && starts == 0
    {
      now, ctxDone, file, open, starts, obtained, terminated := 0, false, [], false, 0, [], [];
      refused, written, logReads := 0, 0, 0;
    }

    predicate Expired(deadline: int)
      reads this
    {
      ctxDone || now >= deadline
    }

    /** Time passes: an open session may append and end, a closed one does neither. */
    twostate predicate Passed()
      reads this
    {
      && old(now) < now && (old(ctxDone) ==> ctxDone)
      && old(file) <= file && (!old(open) ==> !open && file == old(file))
    }

    method Tick()
      modifies this`now, this`ctxDone, this`file, this`open
      ensures Passed()
    {
      var later :| later > now;
      now := later;
      if * {
        ctxDone := true;
      }
      if open {
        var more: seq<Byte> := *;
        file := file + more;
        open := *;
      }
    }

    /** A call that the job needs, whose only effect is its answer; on an ended context it fails. */
    method Call() returns (err: bool)
      modifies this`now, this`ctxDone, this`file, this`open, this`refused
      ensures Passed() && refused == old(refused) + (if err then 1 else 0)
      ensures ctxDone ==> err
    {
      Tick();
      err := *;
      if ctxDone {
        err := true;
      }
      if err {
        refused := refused + 1;
      }
    }

    method PutFile() returns (err: bool)
      modifies this`now, this`ctxDone, this`file, this`open, this`refused, this`written
      ensures Passed() && refused == old(refused) + (if err then 1 else 0)
      ensures written == old(written) + (if err then 0 else 1)
    {
      err := Call();
      if !err {
        written := written + 1;
      }
    }

    /** The end of a job's log, on a context of its own; a failure is not the job's. */
    method ReadLog()
      modifies this`now, this`ctxDone, this`file, this`open, this`logReads
      ensures Passed() && logReads == old(logReads) + 1
    {
      Tick();
      logReads := logReads + 1;
    }

    /** The create may answer an id and still fail: the wait for its operation does. */
    method CreateSandbox() returns (id: string, err: bool, cause: Cause)
      modifies this`now, this`ctxDone, this`file, this`open, this`refused, this`obtained
      ensures Passed() && refused == old(refused) + (if err then 1 else 0)
      ensures !err ==> id != ""
      ensures obtained == old(obtained) + (if id != "" then [id] else [])
    {
      id, cause := "", *;
      err := Call();
      if err {
        return;
      }
      id := *;
      if id == "" {
        refused := refused + 1;
        return "", true, OtherCause;
      }
      obtained := obtained + [id];
      var finished: bool := *;
      if !finished {
        err := Call();
      }
    }

    /** An error means that the process did not start. */
    method StartProcess() returns (err: bool)
      modifies this`now, this`ctxDone, this`file, this`open, this`refused, this`starts
      ensures old(now) < now && refused == old(refused) + (if err then 1 else 0)
      ensures err ==> starts == old(starts)
      ensures !err ==> starts == old(starts) + 1 && file == []
    {
      err := Call();
      if !err {
        starts, file, open := starts + 1, [], true;
      }
    }

    method GetSession(deadline: int) returns (s: Session)
      modifies this`now, this`ctxDone, this`file, this`open
      ensures Passed()
      ensures s.Session? ==> (s.status == "OPEN" <==> open)
    {
      Tick();
      var err: bool := *;
      if err || Expired(deadline) {
        return SessionError;
      }
      var status: string, exit: Option<int> := *, *;
      if open {
        return Session("OPEN", exit);
      }
      return Session(if status == "OPEN" then "CLOSED" else status, exit);
    }

    /** Up to `max` bytes from `offset` on, as the file stands when it is read. */
    method ReadFrom(offset: nat, max: nat, deadline: int) returns (err: bool, chunk: seq<Byte>)
      requires offset <= |file|
      modifies this`now, this`ctxDone, this`file, this`open
      ensures Passed()
      ensures !err ==> chunk == file[offset..Min(offset + max, |file|)] && !Expired(deadline)
    {
      Tick();
      err := *;
      if err || Expired(deadline) {
        return true, [];
      }
      chunk := file[offset..Min(offset + max, |file|)];
    }

    /** terminateDetached: on a context of its own. */
    method Terminate(id: string)
      modifies this`now, this`ctxDone, this`file, this`open, this`terminated
      ensures Passed() && terminated == old(terminated) + [id]
    {
      Tick();
      terminated := terminated + [id];
    }
  }

  datatype Job = Job(files: nat, streams: bool, keepsLog: bool, timeout: int)

  datatype Result = Result(exitCode: int, timedOut: bool)

  datatype RunError = NoError | StartError(cause: Cause) | ProcessFailed | ContextEnded | Lost

  function Timeout(job: Job): int { if job.timeout <= 0 then 600 else job.timeout }

  // ── tailing the output ─────────────────────────────────────────────────────

  /** The chunks handed on are the file so far, each of 1 to STREAM_CHUNK bytes. */
  predicate Tailed(chunks: seq<seq<Byte>>, file: seq<Byte>, offset: nat) {
    && offset <= |file| && Flatten(chunks) == file[..offset]
    && forall c :: c in chunks ==> 1 <= |c| <= STREAM_CHUNK
  }

  /** What a caller sees of it. */
  predicate Delivered(chunks: seq<seq<Byte>>, file: seq<Byte>) {
    Flatten(chunks) <= file && forall c :: c in chunks ==> 1 <= |c| <= 1048576
  }

  lemma {:induction false} TailedGrows(chunks: seq<seq<Byte>>, file: seq<Byte>, offset: nat, later: seq<Byte>)
    requires Tailed(chunks, file, offset) && file <= later
    ensures Tailed(chunks, later, offset)
  {
    assert later[..offset] == file[..offset];
  }

  lemma {:induction false} TailedOnce(chunks: seq<seq<Byte>>, file: seq<Byte>, offset: nat, chunk: seq<Byte>)
    requires Tailed(chunks, file, offset) && 1 <= |chunk| <= STREAM_CHUNK
    requires offset + |chunk| <= |file| && chunk == file[offset..offset + |chunk|]
    ensures Tailed(chunks + [chunk], file, offset + |chunk|)
  {
    FlattenSnoc(chunks, chunk);
    assert file[..offset] + chunk == file[..offset + |chunk|];
  }

  /** How far the reads of one poll get on a file that no longer grows; `failed`: which of them fail. */
  function DrainedTo(file: seq<Byte>, offset: nat, failed: seq<bool>): (end: nat)
    requires offset <= |file|
    ensures offset <= end <= |file|
    decreases |failed|
  {
    if failed == [] || failed[0] then offset
    else if |file| - offset < STREAM_CHUNK then |file|
    else DrainedTo(file, offset + STREAM_CHUNK, failed[1..])
  }

  /** The reads it takes to bring `bytes` bytes. */
  function ReadsFor(bytes: nat): nat {
    (bytes + STREAM_CHUNK - 1) / STREAM_CHUNK
  }

  /** Exactly when a poll after the end brings all that was left: when the reads that takes succeed. */
  lemma {:induction false} WhenAllIsDrained(file: seq<Byte>, offset: nat, failed: seq<bool>)
    requires offset <= |file|
    ensures DrainedTo(file, offset, failed) == |file|
            <==> ReadsFor(|file| - offset) <= |failed| && forall k :: 0 <= k < ReadsFor(|file| - offset) ==> !failed[k]
    decreases |failed|
  {
    var left := |file| - offset;
    if failed != [] && !failed[0] && left >= STREAM_CHUNK {
      WhenAllIsDrained(file, offset + STREAM_CHUNK, failed[1..]);
      assert ReadsFor(left) == ReadsFor(left - STREAM_CHUNK) + 1;
      assert forall k :: 1 <= k < |failed| ==> failed[k] == failed[1..][k - 1];
    }
  }

  /** One read more after full ones that all succeeded. */
  lemma {:induction false} DrainedSnoc(file: seq<Byte>, offset0: nat, count: nat, offset: nat, last: bool)
    requires offset == offset0 + count * STREAM_CHUNK <= |file|
    ensures DrainedTo(file, offset0, Succeeding(count) + [last])
            == if last then offset else if |file| - offset < STREAM_CHUNK then |file| else offset + STREAM_CHUNK
    decreases count
  {
    var failed := Succeeding(count) + [last];
    if count == 0 {
      assert failed == [last] && failed[1..] == [];
    } else {
      assert count * STREAM_CHUNK == (count - 1) * STREAM_CHUNK + STREAM_CHUNK;
      assert failed[1..] == Succeeding(count - 1) + [last];
      DrainedSnoc(file, offset0 + STREAM_CHUNK, count - 1, offset, last);
    }
  }

  function Succeeding(count: nat): (failed: seq<bool>) {
    seq(count, k requires 0 <= k < count => false)
  }

  /** One poll's reads: until a chunk comes short, which is the end of the file at that moment. */
  method Drain(box: Box, deadline: int, chunks0: seq<seq<Byte>>, offset0: nat)
    returns (err: bool, chunks: seq<seq<Byte>>, offset: nat, failed: seq<bool>)
    requires Tailed(chunks0, box.file, offset0)
    modifies box`now, box`ctxDone, box`file, box`open
    ensures box.Passed()
    ensures chunks0 <= chunks && Tailed(chunks, box.file, offset)
    ensures !err ==> offset == |box.file|
    ensures offset0 <= |old(box.file)| && (!old(box.open) ==> offset == DrainedTo(box.file, offset0, failed))
    ensures err <==> failed != [] && failed[|failed| - 1]
  {
    hide Tailed, Flatten, DrainedTo, Succeeding;
    chunks, offset := chunks0, offset0;
    var count := 0;
    failed := [];
    TailedBounds(chunks, box.file, offset);
    while true
      invariant unchanged(box) || box.Passed()
      invariant chunks0 <= chunks && Tailed(chunks, box.file, offset) && offset <= |box.file|
      invariant offset == offset0 + count * STREAM_CHUNK
      decreases if deadline > box.now then deadline - box.now else 0
    {
      ghost var before := box.file;
      var rerr, chunk := box.ReadFrom(offset, STREAM_CHUNK, deadline);
      TailedGrows(chunks, before, offset, box.file);
      DrainedSnoc(box.file, offset0, count, offset, rerr);
      failed := Succeeding(count) + [rerr];
      count := count + 1;
      if rerr {
        return true, chunks, offset, failed;
      }
      if |chunk| > 0 {
        TailedOnce(chunks, box.file, offset, chunk);
        chunks := chunks + [chunk];
        offset := offset + |chunk|;
      }
      if |chunk| < STREAM_CHUNK {
        return false, chunks, offset, failed;
      }
    }
  }

  lemma {:induction false} TailedBounds(chunks: seq<seq<Byte>>, file: seq<Byte>, offset: nat)
    requires Tailed(chunks, file, offset)
    ensures offset <= |file| && Delivered(chunks, file)
  {
  }

  // ── the polls ──────────────────────────────────────────────────────────────

  /** How many polls failed in a row at the end. */
  function Trailing(failed: seq<bool>): nat {
    if failed == [] || !failed[|failed| - 1] then 0 else Trailing(failed[..|failed| - 1]) + 1
  }

  /** No MAX_FAILURES in a row before the last poll. */
  ghost predicate NeverLost(failed: seq<bool>) {
    forall k :: 0 <= k < |failed| ==> Trailing(failed[..k]) < MAX_FAILURES
  }

  lemma {:induction false} OneMorePoll(failed: seq<bool>, last: bool)
    requires NeverLost(failed) && Trailing(failed) < MAX_FAILURES
    ensures NeverLost(failed + [last]) && Trailing(failed + [last]) == if last then Trailing(failed) + 1 else 0
  {
    var all := failed + [last];
    assert all[..|failed|] == failed;
    forall k | 0 <= k < |all| ensures Trailing(all[..k]) < MAX_FAILURES {
      if k < |failed| {
        assert all[..k] == failed[..k];
      }
    }
  }

  /**
   What following a job came to. `ended`: its session did; `complete`: and the reads after that all
   succeeded; `failed`: of the polls before that, which ones failed; `from`, `reading`: where the reads
   after the end began, and which of them failed.
   */
  datatype Followed = Followed(ended: bool, complete: bool, failed: seq<bool>, session: Session, from: nat,
                               reading: seq<bool>)

  /** The output delivered of a streamed job whose session ended. */
  ghost predicate LastDrained(chunks: seq<seq<Byte>>, file: seq<Byte>, how: Followed) {
    how.from <= |file| && Flatten(chunks) == file[..DrainedTo(file, how.from, how.reading)]
  }

  /**
   Exactly when a job's whole output was delivered, once its session has ended: when the reads it takes
   from where the poller stood succeed. A run is settled by its exit code all the same.
   */
  lemma {:induction false} WhenOutputIsWhole(chunks: seq<seq<Byte>>, file: seq<Byte>, how: Followed)
    requires LastDrained(chunks, file, how)
    ensures var needed := ReadsFor(|file| - how.from);
            Flatten(chunks) == file <==> needed <= |how.reading| && forall k :: 0 <= k < needed ==> !how.reading[k]
  {
    hide Flatten, ReadsFor;
    var end := DrainedTo(file, how.from, how.reading);
    WhenAllIsDrained(file, how.from, how.reading);
    assert file[..|file|] == file;
    assert end < |file| ==> |file[..end]| < |file|;
  }

  /** What a session that is no longer OPEN says of its job: its exit code; or, if it has none, that the
      process failed; or that its timeout killed it. */
  ghost predicate Concludes(s: Session, res: Result, err: RunError) {
    && s.Session? && s.status != "OPEN"
    && (s.exit.Some? ==> err.NoError? && res == Result(s.exit.value, false))
    && (s.exit.None? && s.status == "FAILED" ==> err.ProcessFailed?)
    && (s.exit.None? && s.status != "FAILED" ==> err.NoError? && res == Result(-1, true))
  }

  /** How the tail loop can end, of a job whose process started at `start`: with that output handed on and
      that verdict, when the clock, the context, the session and its file stand so. */
  ghost predicate EndsAs(job: Job, start: nat, now: nat, ctxDone: bool, open: bool, file: seq<Byte>, res: Result,
                         err: RunError, chunks: seq<seq<Byte>>, how: Followed)
  {
    && !err.StartError?
    && Delivered(chunks, file)
    && (how.complete ==> how.ended && (job.streams ==> Flatten(chunks) == file) && !open)
    && (how.ended ==> !open && (job.streams ==> LastDrained(chunks, file, how)))
    && NeverLost(how.failed)
    && (err.Lost? <==> Trailing(how.failed) == MAX_FAILURES)
    && (how.ended ==> Concludes(how.session, res, err))
    && (!how.ended ==>
          err.Lost? || (err.ContextEnded? && ctxDone) || (err.NoError? && !ctxDone && res == Result(-1, true)))
    && start <= now && (err.ContextEnded? ==> ctxDone)
    && (!how.ended && err.NoError? ==> now >= start + Timeout(job) + GRACE)
  }

  /** A job that ends with exit code 0 between two polls, whose next read fails: the loop can end with
      nothing of its output handed on, and the job counts as a success. */
  lemma {:induction false} SuccessWithoutOutput(job: Job, start: nat, file: seq<Byte>)
    requires job.streams && file != []
    ensures var how := Followed(true, false, [], Session("CLOSED", Some(0)), 0, [true]);
            && EndsAs(job, start, start + 2, false, false, file, Result(0, false), NoError, [], how)
            && Flatten<Byte>([]) != file
  {
    assert file[..0] == [];
  }

  /** The loop after the process started. */
  method Follow(box: Box, job: Job) returns (res: Result, err: RunError, chunks: seq<seq<Byte>>, how: Followed)
    requires box.file == []
    modifies box`now, box`ctxDone, box`file, box`open
    ensures EndsAs(job, old(box.now), box.now, box.ctxDone, box.open, box.file, res, err, chunks, how)
  {
    var deadline := box.now + Timeout(job) + GRACE;
    var offset, failures := 0, 0;
    chunks, res, err := [], Result(0, false), NoError;
    var failed: seq<bool> := [];
    hide Tailed, Trailing, NeverLost, Flatten;
    StartTailed(box.file);
    while true
      invariant Tailed(chunks, box.file, offset)
      invariant Trailing(failed) == failures < MAX_FAILURES && NeverLost(failed)
      invariant res == Result(0, false) && err.NoError? && old(box.now) <= box.now
      decreases if deadline > box.now then deadline - box.now else 0
    {
      ghost var before := box.file;
      var s := box.GetSession(deadline);
      TailedGrows(chunks, before, offset, box.file);
      var serr := s.SessionError?;
      var ended := s.Session? && s.status != "OPEN";
      var from, reading: seq<bool> := offset, [];
      if job.streams {
        var rerr;
        rerr, chunks, offset, reading := Drain(box, deadline, chunks, offset);
        serr := serr || rerr;
      }
      TailedBounds(chunks, box.file, offset);
      if ended {
        how := Followed(true, !serr, failed, s, from, reading);
        if job.streams {
          TailedIs(chunks, box.file, offset);
          if !serr {
            TailedWhole(chunks, box.file, offset);
          }
        }
        if s.exit.Some? {
          res := res.(exitCode := s.exit.value);
        } else if s.status == "FAILED" {
          err := ProcessFailed;
        } else { // killed by its timeout
          res := Result(-1, true);
        }
        return;
      }
      if box.Expired(deadline) {
        how := Followed(false, false, failed, s, 0, []);
        if box.ctxDone {
          err := ContextEnded;
        } else {
          res := Result(-1, true);
        }
        return;
      }
      OneMorePoll(failed, serr);
      failed := failed + [serr];
      if serr {
        failures := failures + 1;
        if failures >= MAX_FAILURES {
          err, how := Lost, Followed(false, false, failed, s, 0, []);
          return;
        }
      } else {
        failures := 0;
      }
      before := box.file;
      box.Tick();
      TailedGrows(chunks, before, offset, box.file);
    }
  }

  lemma {:induction false} StartTailed(file: seq<Byte>)
    ensures Tailed([], file, 0) && NeverLost([]) && Trailing([]) == 0
  {
  }

  lemma {:induction false} TailedIs(chunks: seq<seq<Byte>>, file: seq<Byte>, offset: nat)
    requires Tailed(chunks, file, offset)
    ensures offset <= |file| && Flatten(chunks) == file[..offset]
  {
  }

  lemma {:induction false} TailedWhole(chunks: seq<seq<Byte>>, file: seq<Byte>, offset: nat)
    requires Tailed(chunks, file, offset) && offset == |file|
    ensures Flatten(chunks) == file
  {
    assert file[..offset] == file;
  }

  // ── the whole job ──────────────────────────────────────────────────────────

  /** Everything up to the start of the process; no call that fails is passed over. */
  method Prepare(box: Box, job: Job) returns (err: bool)
    modifies box`now, box`ctxDone, box`file, box`open, box`refused, box`written, box`starts
    ensures box.starts == old(box.starts) + (if err then 0 else 1)
    ensures box.refused == old(box.refused) + (if err then 1 else 0)
    ensures box.written <= old(box.written) + job.files && (!err ==> box.written == old(box.written) + job.files)
    ensures !err ==> box.file == []
    ensures old(box.now) <= box.now
  {
    err := box.Call();
    if err {
      return;
    }
    for i := 0 to job.files
      invariant box.starts == old(box.starts) && old(box.now) <= box.now
      invariant box.refused == old(box.refused) && box.written == old(box.written) + i
    {
      err := box.PutFile();
      if err {
        return;
      }
    }
    err := box.StartProcess();
  }

  /** The job while it runs, and the read of its log after it. */
  method Attend(box: Box, job: Job) returns (res: Result, err: RunError, chunks: seq<seq<Byte>>, how: Followed)
    requires box.file == []
    modifies box`now, box`ctxDone, box`file, box`open, box`logReads
    ensures !err.StartError? && old(box.now) <= box.now
    ensures box.logReads == old(box.logReads) + (if err.NoError? && job.keepsLog then 1 else 0)
    ensures Delivered(chunks, box.file)
    ensures how.complete && job.streams ==> Flatten(chunks) == box.file
    ensures how.complete ==> how.ended
    ensures how.ended ==> !box.open && (job.streams ==> LastDrained(chunks, box.file, how))
    ensures NeverLost(how.failed) && (err.Lost? <==> Trailing(how.failed) == MAX_FAILURES)
    ensures err.ContextEnded? ==> box.ctxDone
    ensures how.ended ==> Concludes(how.session, res, err)
    ensures !how.ended ==> err.Lost? || err.ContextEnded? || (err.NoError? && res == Result(-1, true))
    ensures !how.ended && err.NoError? ==> box.now >= old(box.now) + Timeout(job) + GRACE
  {
    hide Trailing, NeverLost, Flatten, LastDrained, Delivered, Concludes, Timeout;
    res, err, chunks, how := Follow(box, job);
    if err.NoError? && job.keepsLog {
      ghost var before := box.file;
      box.ReadLog();
      DeliveredGrows(chunks, before, box.file);
    }
  }

  /**
   `runSandboxJob`. Every sandbox id obtained gets exactly one terminate, on every path; the error is
   a startError exactly when no process was started; and the chunks are always the beginning of the
   job's output, all of it when its session ended and the last reads succeeded.
   */
  method RunSandboxJob(box: Box, job: Job)
    returns (res: Result, err: RunError, chunks: seq<seq<Byte>>, how: Followed)
    modifies box
    ensures old(box.obtained) <= box.obtained
    ensures |box.obtained| <= |old(box.obtained)| + 1
    ensures box.terminated == old(box.terminated) + box.obtained[|old(box.obtained)|..]
    ensures err.StartError? <==> box.starts == old(box.starts)
    ensures box.refused == old(box.refused) + (if err.StartError? then 1 else 0)
    ensures !err.StartError? ==> box.written == old(box.written) + job.files
    ensures box.logReads == old(box.logReads) + (if err.NoError? && job.keepsLog then 1 else 0)
    ensures !err.StartError? ==> box.starts == old(box.starts) + 1 && |box.obtained| == |old(box.obtained)| + 1
    ensures err.StartError? ==> chunks == []
    ensures Delivered(chunks, box.file)
    ensures how.complete && job.streams && !err.StartError? ==> Flatten(chunks) == box.file && !box.open
    ensures how.ended && !err.StartError? ==> !box.open && (job.streams ==> LastDrained(chunks, box.file, how))
    ensures NeverLost(how.failed) && (err.Lost? <==> Trailing(how.failed) == MAX_FAILURES)
    ensures err.ContextEnded? ==> box.ctxDone
    ensures how.ended ==> Concludes(how.session, res, err)
    ensures !err.StartError? && !how.ended ==>
            err.Lost? || err.ContextEnded? || (err.NoError? && res == Result(-1, true))
    ensures !how.ended && err.NoError? ==> box.now >= old(box.now) + Timeout(job) + GRACE
  {
    res, chunks, how := Result(0, false), [], Followed(false, false, [], SessionError, 0, []);
    hide Tailed, Trailing, NeverLost, Flatten, LastDrained, Delivered, Concludes, Timeout;
    StartTailed([]);
    var id, cerr, cause := box.CreateSandbox();
    if cerr {
      err := StartError(cause);
    } else {
      var perr := Prepare(box, job);
      if perr {
        err := StartError(OtherCause);
      } else {
        res, err, chunks, how := Attend(box, job);
      }
    }
    NothingDelivered(box.file);
    // the deferred terminate
    if id != "" {
      ghost var before := box.file;
      box.Terminate(id);
      DeliveredGrows(chunks, before, box.file);
    }
  }

  lemma {:induction false} NothingDelivered(file: seq<Byte>)
    ensures Delivered([], file)
  {
  }

  lemma {:induction false} DeliveredGrows(chunks: seq<seq<Byte>>, file: seq<Byte>, later: seq<Byte>)
    requires file <= later
    ensures Delivered(chunks, file) ==> Delivered(chunks, later)
  {
    hide Flatten;
  }
}
