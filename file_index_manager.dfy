/** The life cycle of the file index manager (fileIndexManager.ts, `initFileIndexManager`): the
    scheduled indexing handler and the stream handler, both guarded by a cluster lock, and the
    `running`/`shutdown` flags they share. Lock acquisition, storage, the stream processor's
    liveness and timers are inputs; the steps that change shared state or the outside world (locks,
    `running`, the bulk index, the status save, the processor's life cycle) are recorded in a ghost
    effect log. */
module FileIndexManager {
  import opened Js
  import opened FileIndexSelection

  /** The two configured lock keys: the scheduled indexing one and the stream one. */
  datatype LockKey = IndexLock | StreamLock

  /** What a handler does to the outside world, in order. */
  datatype Effect =
    | LockAcquired(key: LockKey)
    | LockReleased(key: LockKey)
    | RunningSet(value: bool)
    | FilesIndexed(run: IndexRun)
    | StatusSaved
    | ProcessorCreated
    | ProcessorStarted
    | Waited
    | ProcessorShutdown

  datatype HandlerError = LockUnavailable | StorageFailure | IndexingFailed(cause: IndexError)

  /** How a run of the scheduled handler ends: nothing to do, done, or an exception leaving the handler. */
  datatype HandlerOutcome = Skipped | Completed | Raised(error: HandlerError)

  /** How a run of the stream handler ends; it never lets an exception out. */
  datatype StreamOutcome = LockHeldElsewhere | StartFailed | Ended

  datatype ManagerStatus = ManagerStatus(id: string, enable: bool, running: bool)

  const MANAGER_ID: string := "FILE_INDEX_MANAGER"

  /** Interval of the indexing schedule and of the stream supervisor, in milliseconds. */
  const SCHEDULE_TIME: nat := 300000
  const STREAM_SCHEDULE_TIME: nat := 10000

  // ---------------------------------------------------------------------------
  // Reading an effect log

  function ApplyLock(held: set<LockKey>, e: Effect): set<LockKey>
  {
    match e
    case LockAcquired(k) => held + {k}
    case LockReleased(k) => held - {k}
    case _ => held
  }

  /** The locks held after replaying `trace` from `held`. */
  function Held(held: set<LockKey>, trace: seq<Effect>): set<LockKey>
    decreases |trace|
  {
    if trace == [] then held else Held(ApplyLock(held, trace[0]), trace[1..])
  }

  function SetFlag(running: bool, e: Effect): bool
  {
    if e.RunningSet? then e.value else running
  }

  /** The value of the `running` flag after replaying `trace` from `running`. */
  function RunningAfter(running: bool, trace: seq<Effect>): bool
    decreases |trace|
  {
    if trace == [] then running else RunningAfter(SetFlag(running, trace[0]), trace[1..])
  }

  lemma {:induction false} HeldAppend(held: set<LockKey>, a: seq<Effect>, b: seq<Effect>)
    ensures Held(held, a + b) == Held(Held(held, a), b)
    decreases |a|
  {
    if a == [] {
      assert a + b == b;
    } else {
      assert (a + b)[0] == a[0] && (a + b)[1..] == a[1..] + b;
      HeldAppend(ApplyLock(held, a[0]), a[1..], b);
    }
  }

  lemma {:induction false} RunningAfterAppend(running: bool, a: seq<Effect>, b: seq<Effect>)
    ensures RunningAfter(running, a + b) == RunningAfter(RunningAfter(running, a), b)
    decreases |a|
  {
    if a == [] {
      assert a + b == b;
    } else {
      assert (a + b)[0] == a[0] && (a + b)[1..] == a[1..] + b;
      RunningAfterAppend(SetFlag(running, a[0]), a[1..], b);
    }
  }

  /** Replaying a short literal trace, one effect at a time. */
  lemma Replay1(held: set<LockKey>, running: bool, e1: Effect)
    ensures Held(held, [e1]) == ApplyLock(held, e1)
    ensures RunningAfter(running, [e1]) == SetFlag(running, e1)
  {
    assert [e1][1..] == [];
  }

  lemma Replay2(held: set<LockKey>, running: bool, e1: Effect, e2: Effect)
    ensures Held(held, [e1, e2]) == ApplyLock(ApplyLock(held, e1), e2)
    ensures RunningAfter(running, [e1, e2]) == SetFlag(SetFlag(running, e1), e2)
  {
    assert [e1, e2][1..] == [e2];
    Replay1(ApplyLock(held, e1), SetFlag(running, e1), e2);
  }

  lemma Replay3(held: set<LockKey>, running: bool, e1: Effect, e2: Effect, e3: Effect)
    ensures Held(held, [e1, e2, e3]) == ApplyLock(ApplyLock(ApplyLock(held, e1), e2), e3)
    ensures RunningAfter(running, [e1, e2, e3]) == SetFlag(SetFlag(SetFlag(running, e1), e2), e3)
  {
    assert [e1, e2, e3][1..] == [e2, e3];
    Replay2(ApplyLock(held, e1), SetFlag(running, e1), e2, e3);
  }

  /** A trace without lock or running effects changes neither. */
  predicate Neutral(trace: seq<Effect>)
  {
    forall i :: 0 <= i < |trace| ==> !trace[i].LockAcquired? && !trace[i].LockReleased? && !trace[i].RunningSet?
  }

  lemma {:induction false} NeutralKeeps(held: set<LockKey>, running: bool, trace: seq<Effect>)
    requires Neutral(trace)
    ensures Held(held, trace) == held && RunningAfter(running, trace) == running
  {
    if trace != [] {
      assert Neutral(trace[1..]) by {
        forall i | 0 <= i < |trace[1..]| ensures !trace[1..][i].LockAcquired? && !trace[1..][i].LockReleased? && !trace[1..][i].RunningSet? {
          assert trace[1..][i] == trace[i + 1];
        }
      }
      NeutralKeeps(held, running, trace[1..]);
    }
  }

  /** `running` is set to true only while `key` is held. */
  predicate RunningOnlyUnderLock(trace: seq<Effect>, key: LockKey)
  {
    forall i :: 0 <= i < |trace| && trace[i] == RunningSet(true) ==> key in Held({}, trace[..i])
  }

  // ---------------------------------------------------------------------------
  // The scheduled handler (`fileIndexHandler`)

  /** Where a storage collaborator throws during a run, if anywhere: before the bulk index (reading
      the last indexed date, listing, searching, loading content or the bulk index itself), or in
      `saveFileIndexStatus`, after the files were indexed. */
  datatype StorageFault = NoFault | BeforeBulkIndex | AtStatusSave

  /** The lock-protected body: last indexed date, `indexImportedFiles`, `saveFileIndexStatus`. */
  function IndexWork(job: IndexJob, fault: StorageFault): seq<Effect>
  {
    if fault == BeforeBulkIndex then []
    else match IndexImportedFiles(job)
      case Err(_) => []
      case Ok(run) => [FilesIndexed(run)] + (if fault == AtStatusSave then [] else [StatusSaved])
  }

  /** The effects of one run: nothing without enterprise edition; otherwise the lock attempt, and in
      the `finally` block `running := false` and the release of a lock that was obtained. */
  function IndexHandlerEffects(enterprise: bool, lockOk: bool, fault: StorageFault, job: IndexJob): seq<Effect>
  {
    if !enterprise then []
    else if !lockOk then [RunningSet(false)]
    else [LockAcquired(IndexLock), RunningSet(true)] + IndexWork(job, fault) + [RunningSet(false), LockReleased(IndexLock)]
  }

  /** There is no `catch`: a lock failure or a failing collaborator leaves the handler as an exception. */
  function IndexHandlerOutcome(enterprise: bool, lockOk: bool, fault: StorageFault, job: IndexJob): HandlerOutcome
  {
    if !enterprise then Skipped
    else if !lockOk then Raised(LockUnavailable)
    else WorkOutcome(job, fault)
  }

  /** How the lock-protected body ends. */
  function WorkOutcome(job: IndexJob, fault: StorageFault): HandlerOutcome
  {
    if fault == BeforeBulkIndex then Raised(StorageFailure)
    else match IndexImportedFiles(job)
      case Err(e) => Raised(IndexingFailed(e))
      case Ok(_) => if fault == AtStatusSave then Raised(StorageFailure) else Completed
  }

  /** Without enterprise edition a run does nothing at all. */
  lemma IndexHandlerNeedsEnterprise(lockOk: bool, fault: StorageFault, job: IndexJob)
    ensures IndexHandlerEffects(false, lockOk, fault, job) == []
    ensures IndexHandlerOutcome(false, lockOk, fault, job) == Skipped
  {
  }

  /** Every run with enterprise edition ends with `running` false and the lock set as it found it;
      a lock failure is the one outcome that obtains no lock and propagates. */
  lemma IndexHandlerReleases(enterprise: bool, lockOk: bool, fault: StorageFault, job: IndexJob, held: set<LockKey>, running: bool)
    requires IndexLock !in held
    ensures var trace := IndexHandlerEffects(enterprise, lockOk, fault, job);
            && Held(held, trace) == held
            && RunningAfter(running, trace) == (if enterprise then false else running)
            && (enterprise && !lockOk <==> IndexHandlerOutcome(enterprise, lockOk, fault, job) == Raised(LockUnavailable))
  {
    var work := IndexWork(job, fault);
    if enterprise && lockOk {
      var pre := [LockAcquired(IndexLock), RunningSet(true)];
      var post := [RunningSet(false), LockReleased(IndexLock)];
      Replay2(held, running, pre[0], pre[1]);
      NeutralKeeps(held + {IndexLock}, true, work);
      Replay2(held + {IndexLock}, true, post[0], post[1]);
      HeldAppend(held, pre + work, post);
      HeldAppend(held, pre, work);
      RunningAfterAppend(running, pre + work, post);
      RunningAfterAppend(running, pre, work);
    } else if enterprise {
      Replay1(held, running, RunningSet(false));
    }
  }

  /** The files reach the index exactly when the lock was obtained, storage held up to the bulk
      index and every selected file had metadata; the status is saved exactly when the run completes,
      so a failing `saveFileIndexStatus` leaves the files indexed and the handler raising. */
  lemma IndexHandlerIndexesAndSaves(enterprise: bool, lockOk: bool, fault: StorageFault, job: IndexJob, run: IndexRun)
    ensures var trace := IndexHandlerEffects(enterprise, lockOk, fault, job);
            && (FilesIndexed(run) in trace <==> enterprise && lockOk && fault != BeforeBulkIndex && IndexImportedFiles(job) == Ok(run))
            && (StatusSaved in trace <==> IndexHandlerOutcome(enterprise, lockOk, fault, job) == Completed)
            && (IndexHandlerOutcome(enterprise, lockOk, fault, job) == Raised(StorageFailure) <==> enterprise && lockOk && (fault == BeforeBulkIndex || (fault == AtStatusSave && IndexImportedFiles(job).Ok?)))
  {
  }

  /** `running` becomes true only after the index lock was obtained, and only once. */
  lemma IndexHandlerRunningUnderLock(enterprise: bool, lockOk: bool, fault: StorageFault, job: IndexJob)
    ensures RunningOnlyUnderLock(IndexHandlerEffects(enterprise, lockOk, fault, job), IndexLock)
  {
    var trace := IndexHandlerEffects(enterprise, lockOk, fault, job);
    if enterprise && lockOk {
      var work := IndexWork(job, fault);
      forall i | 0 <= i < |trace| && trace[i] == RunningSet(true) ensures IndexLock in Held({}, trace[..i]) {
        assert i == 1;
        assert trace[..1] == [LockAcquired(IndexLock)];
        Replay1({}, false, LockAcquired(IndexLock));
      }
    }
  }

  // ---------------------------------------------------------------------------
  // The stream handler (`fileIndexStreamHandler`)

  function Waits(n: nat): (r: seq<Effect>)
    ensures |r| == n && forall i :: 0 <= i < n ==> r[i] == Waited
  {
    if n == 0 then [] else Waits(n - 1) + [Waited]
  }

  /** Starting the processor and waiting while it reports itself running, unless shutdown was requested. */
  function ProcessorRun(shutdown: bool, startOk: bool, livePolls: nat): seq<Effect>
  {
    if startOk then [ProcessorStarted] + Waits(if shutdown then 0 else livePolls) else []
  }

  /** The effects of one run as written. `livePolls` is how many times the processor still reports
      itself running; a shutdown requested before the run stops the wait loop at once. The `finally`
      block shuts down whatever processor the closure holds (possibly one of an earlier run) and
      releases a lock obtained in this run; it never resets `running`. */
  function StreamHandlerEffects(processorCreated: bool, shutdown: bool, lockOk: bool, startOk: bool, livePolls: nat): seq<Effect>
  {
    if !lockOk then (if processorCreated then [ProcessorShutdown] else [])
    else [LockAcquired(StreamLock), RunningSet(true), ProcessorCreated]
         + ProcessorRun(shutdown, startOk, livePolls)
         + [ProcessorShutdown, LockReleased(StreamLock)]
  }

  function StreamHandlerOutcome(lockOk: bool, startOk: bool): StreamOutcome
  {
    if !lockOk then LockHeldElsewhere else if !startOk then StartFailed else Ended
  }

  /** Once shutdown is requested, a run waits no more. */
  lemma StreamHandlerStopsOnShutdown(processorCreated: bool, lockOk: bool, startOk: bool, livePolls: nat)
    ensures Waited !in StreamHandlerEffects(processorCreated, true, lockOk, startOk, livePolls)
  {
  }

  /** Every run releases the stream lock it obtained, and a run that obtained it has shut its processor down. */
  lemma StreamHandlerReleases(processorCreated: bool, shutdown: bool, lockOk: bool, startOk: bool, livePolls: nat, held: set<LockKey>)
    requires StreamLock !in held
    ensures var trace := StreamHandlerEffects(processorCreated, shutdown, lockOk, startOk, livePolls);
            && Held(held, trace) == held
            && (lockOk || processorCreated ==> ProcessorShutdown in trace)
  {
    if lockOk {
      var pre := [LockAcquired(StreamLock), RunningSet(true), ProcessorCreated];
      var mid := ProcessorRun(shutdown, startOk, livePolls);
      var post := [ProcessorShutdown, LockReleased(StreamLock)];
      Replay3(held, false, pre[0], pre[1], pre[2]);
      NeutralKeeps(held + {StreamLock}, true, mid);
      Replay2(held + {StreamLock}, true, post[0], post[1]);
      HeldAppend(held, pre + mid, post);
      HeldAppend(held, pre, mid);
      assert (pre + mid + post)[|pre + mid|] == ProcessorShutdown;
    } else if processorCreated {
      Replay1(held, false, ProcessorShutdown);
    }
  }

  /** As written, a run that obtained the lock leaves `running` true after it has released the lock. */
  lemma StreamHandlerLeavesRunning(processorCreated: bool, shutdown: bool, startOk: bool, livePolls: nat, running: bool)
    ensures var trace := StreamHandlerEffects(processorCreated, shutdown, true, startOk, livePolls);
            RunningAfter(running, trace) && Held({}, trace) == {}
  {
    var pre := [LockAcquired(StreamLock), RunningSet(true), ProcessorCreated];
    var mid := ProcessorRun(shutdown, startOk, livePolls);
    var post := [ProcessorShutdown, LockReleased(StreamLock)];
    Replay3({}, running, pre[0], pre[1], pre[2]);
    NeutralKeeps({StreamLock}, true, mid);
    Replay2({}, true, post[0], post[1]);
    RunningAfterAppend(running, pre + mid, post);
    RunningAfterAppend(running, pre, mid);
    StreamHandlerReleases(processorCreated, shutdown, true, startOk, livePolls, {});
  }

  /** The stream handler with `running = false` in its `finally` block, as the scheduled handler has it. */
  function StreamHandlerEffectsIntended(processorCreated: bool, shutdown: bool, lockOk: bool, startOk: bool, livePolls: nat): seq<Effect>
  {
    if !lockOk then (if processorCreated then [ProcessorShutdown] else [])
    else [LockAcquired(StreamLock), RunningSet(true), ProcessorCreated]
         + ProcessorRun(shutdown, startOk, livePolls)
         + [RunningSet(false), ProcessorShutdown, LockReleased(StreamLock)]
  }

  /** With that reset, `running` is true only under the stream lock and is false again when a run that
      obtained the lock ends; a run that did not obtain it leaves the flag alone. */
  lemma StreamHandlerIntendedResets(processorCreated: bool, shutdown: bool, lockOk: bool, startOk: bool, livePolls: nat, running: bool)
    ensures var trace := StreamHandlerEffectsIntended(processorCreated, shutdown, lockOk, startOk, livePolls);
            && RunningAfter(running, trace) == (if lockOk then false else running)
            && Held({}, trace) == {}
            && RunningOnlyUnderLock(trace, StreamLock)
  {
    var trace := StreamHandlerEffectsIntended(processorCreated, shutdown, lockOk, startOk, livePolls);
    if lockOk {
      var pre := [LockAcquired(StreamLock), RunningSet(true), ProcessorCreated];
      var mid := ProcessorRun(shutdown, startOk, livePolls);
      var post := [RunningSet(false), ProcessorShutdown, LockReleased(StreamLock)];
      Replay3({}, running, pre[0], pre[1], pre[2]);
      NeutralKeeps({StreamLock}, true, mid);
      Replay3({StreamLock}, true, post[0], post[1], post[2]);
      RunningAfterAppend(running, pre + mid, post);
      RunningAfterAppend(running, pre, mid);
      HeldAppend({}, pre + mid, post);
      HeldAppend({}, pre, mid);
      assert Held({}, pre) == {StreamLock};
      assert Held({StreamLock}, post) == {};
      assert trace == pre + mid + post;
      forall i | 0 <= i < |trace| && trace[i] == RunningSet(true) ensures StreamLock in Held({}, trace[..i]) {
        assert i == 1;
        assert trace[..1] == [LockAcquired(StreamLock)];
        Replay1({}, false, LockAcquired(StreamLock));
      }
    } else if processorCreated {
      Replay1({}, running, ProcessorShutdown);
    }
  }

  // ---------------------------------------------------------------------------
  // Timers

  /** `clearIntervalAsync` on the timer a closure variable refers to, if any. */
  function ClearTimer(timers: seq<bool>, timer: Option<nat>): seq<bool>
  {
    match timer
    case Some(i) => if i < |timers| then timers[i := false] else timers
    case None => timers
  }

  // ---------------------------------------------------------------------------
  // The closure state

  class Manager {
    var running: bool
    var shutdown: bool
    /** Whether `streamProcessor` holds a processor (it keeps the last one across runs). */
    var processorCreated: bool
    /** Every interval timer ever registered; true while it has not been cleared. */
    var timers: seq<bool>
    /** The timers `scheduler` and `streamScheduler` refer to. */
    var scheduler: Option<nat>
    var streamScheduler: Option<nat>
    ghost var log: seq<Effect>

    /** Between calls no lock is held, and the timer variables refer to registered timers. */
    ghost predicate Valid()
      reads this
    {
      && Held({}, log) == {}
      && (scheduler.Some? ==> scheduler.value < |timers|)
      && (streamScheduler.Some? ==> streamScheduler.value < |timers|)
    }

    /** `initFileIndexManager` */
    constructor ()
      ensures Valid()
      ensures !running && !shutdown && !processorCreated
      ensures timers == [] && scheduler == None && streamScheduler == None && log == []
    {
      running, shutdown, processorCreated := false, false, false;
      timers, scheduler, streamScheduler := [], None, None;
      log := [];
    }

    /** `start`: registers the two interval timers; a second call registers two more and forgets the first pair. */
    method Start()
      requires Valid()
      modifies this
      ensures Valid()
      ensures timers == old(timers) + [true, true]
      ensures scheduler == Some(|old(timers)|) && streamScheduler == Some(|old(timers)| + 1)
      ensures running == old(running) && shutdown == old(shutdown) && processorCreated == old(processorCreated)
      ensures log == old(log)
    {
      var n := |timers|;
      timers := timers + [true];
      scheduler := Some(n);
      timers := timers + [true];
      streamScheduler := Some(n + 1);
    }

    /** `status`: `running` is the in-process flag, whatever the locks. */
    method Status(managerEnabled: bool, attachmentProcessorEnabled: bool, enterpriseEdition: bool) returns (st: ManagerStatus)
      ensures st.id == MANAGER_ID
      ensures st.enable <==> managerEnabled && attachmentProcessorEnabled && enterpriseEdition
      ensures st.running == running
    {
      st := ManagerStatus(MANAGER_ID, managerEnabled && attachmentProcessorEnabled && enterpriseEdition, running);
    }

    /** `shutdown`: raises the flag and clears the two timers the closure variables refer to. */
    method Shutdown() returns (done: bool)
      requires Valid()
      modifies this
      ensures Valid()
      ensures shutdown && done
      ensures timers == ClearTimer(ClearTimer(old(timers), old(scheduler)), old(streamScheduler))
      ensures |timers| == |old(timers)|
      ensures scheduler == old(scheduler) && streamScheduler == old(streamScheduler)
      ensures running == old(running) && processorCreated == old(processorCreated) && log == old(log)
    {
      shutdown := true;
      if scheduler.Some? {
        timers := timers[scheduler.value := false];
      }
      if streamScheduler.Some? {
        timers := timers[streamScheduler.value := false];
      }
      done := true;
    }

    /** The `try` body of `fileIndexHandler` once the lock is held: the last indexed date,
        `indexImportedFiles` and `saveFileIndexStatus`, in that order. */
    method IndexUnderLock(job: IndexJob, fault: StorageFault) returns (outcome: HandlerOutcome)
      modifies this`log
      ensures log == old(log) + IndexWork(job, fault)
      ensures outcome == WorkOutcome(job, fault)
    {
      if fault == BeforeBulkIndex {
        outcome := Raised(StorageFailure);
        assert IndexWork(job, fault) == [];
      } else {
        var run := IndexImportedFiles(job);
        if run.Err? {
          outcome := Raised(IndexingFailed(run.error));
          assert IndexWork(job, fault) == [];
        } else {
          log := log + [FilesIndexed(run.value)];
          if fault == AtStatusSave {
            outcome := Raised(StorageFailure);
          } else {
            log := log + [StatusSaved];
            outcome := Completed;
            assert log == old(log) + [FilesIndexed(run.value), StatusSaved];
          }
        }
      }
    }

    /** `fileIndexHandler` */
    method FileIndexHandler(enterprise: bool, lockOk: bool, fault: StorageFault, job: IndexJob) returns (outcome: HandlerOutcome)
      requires Valid()
      modifies this
      ensures Valid()
      ensures log == old(log) + IndexHandlerEffects(enterprise, lockOk, fault, job)
      ensures outcome == IndexHandlerOutcome(enterprise, lockOk, fault, job)
      ensures running == (if enterprise then false else old(running))
      ensures shutdown == old(shutdown) && processorCreated == old(processorCreated)
      ensures timers == old(timers) && scheduler == old(scheduler) && streamScheduler == old(streamScheduler)
    {
      if !enterprise {
        return Skipped;
      }
      if !lockOk {
        // `lockResource` throws inside the `try`; the `finally` block still runs, with no lock to release
        running := false;
        log := log + [RunningSet(false)];
        HeldAppend({}, old(log), [RunningSet(false)]);
        Replay1({}, false, RunningSet(false));
        outcome := Raised(LockUnavailable);
      } else {
        outcome := IndexLocked(job, fault);
      }
    }

    /** `fileIndexHandler` once `lockResource` succeeded: the `try` body, then the `finally` block
        clearing `running` and releasing the lock. */
    method IndexLocked(job: IndexJob, fault: StorageFault) returns (outcome: HandlerOutcome)
      requires Valid()
      modifies this
      ensures Valid()
      ensures log == old(log) + IndexHandlerEffects(true, true, fault, job)
      ensures outcome == WorkOutcome(job, fault)
      ensures !running
      ensures shutdown == old(shutdown) && processorCreated == old(processorCreated)
      ensures timers == old(timers) && scheduler == old(scheduler) && streamScheduler == old(streamScheduler)
    {
      ghost var effects := IndexHandlerEffects(true, true, fault, job);
      running := true;
      log := log + [LockAcquired(IndexLock), RunningSet(true)];
      outcome := IndexUnderLock(job, fault);
      // finally
      running := false;
      log := log + [RunningSet(false), LockReleased(IndexLock)];
      assert log == old(log) + effects;
      assert Held({}, log) == {} by {
        HeldAppend({}, old(log), effects);
        IndexHandlerReleases(true, true, fault, job, {}, false);
      }
    }

    /** `while (!shutdown && streamProcessor.running()) await wait(WAIT_TIME_ACTION)`, the processor
        reporting itself running `livePolls` times. */
    method WaitWhileLive(livePolls: nat) returns (polls: nat)
      modifies this`log
      ensures polls == if shutdown then 0 else livePolls
      ensures log == old(log) + Waits(polls)
    {
      polls := 0;
      while !shutdown && polls < livePolls
        invariant polls <= livePolls && (shutdown ==> polls == 0)
        invariant log == old(log) + Waits(polls)
      {
        log := log + [Waited];
        polls := polls + 1;
      }
    }

    /** The `try` body of `fileIndexStreamHandler` after the processor was created: start it and
        wait while it runs. */
    method RunProcessor(startOk: bool, livePolls: nat) returns (outcome: StreamOutcome)
      modifies this`log
      ensures log == old(log) + ProcessorRun(shutdown, startOk, livePolls)
      ensures outcome == StreamHandlerOutcome(true, startOk)
    {
      if !startOk {
        outcome := StartFailed;
      } else {
        log := log + [ProcessorStarted];
        var polls := WaitWhileLive(livePolls);
        outcome := Ended;
      }
    }

    /** `fileIndexStreamHandler` */
    method FileIndexStreamHandler(lockOk: bool, startOk: bool, livePolls: nat) returns (outcome: StreamOutcome)
      requires Valid()
      modifies this
      ensures Valid()
      ensures log == old(log) + StreamHandlerEffects(old(processorCreated), shutdown, lockOk, startOk, livePolls)
      ensures outcome == StreamHandlerOutcome(lockOk, startOk)
      ensures running == (lockOk || old(running))
      ensures processorCreated == (lockOk || old(processorCreated))
      ensures shutdown == old(shutdown)
      ensures timers == old(timers) && scheduler == old(scheduler) && streamScheduler == old(streamScheduler)
    {
      if !lockOk {
        // `lockResource` throws inside the `try`; the `finally` block shuts down a processor an
        // earlier run created, and there is no lock to release
        if processorCreated {
          log := log + [ProcessorShutdown];
          HeldAppend({}, old(log), [ProcessorShutdown]);
          Replay1({}, false, ProcessorShutdown);
        }
        outcome := LockHeldElsewhere;
      } else {
        outcome := StreamLocked(startOk, livePolls);
      }
    }

    /** `fileIndexStreamHandler` once `lockResource` succeeded: create and start the processor, wait
        while it runs, then the `finally` block shutting it down and releasing the lock. */
    method StreamLocked(startOk: bool, livePolls: nat) returns (outcome: StreamOutcome)
      requires Valid()
      modifies this
      ensures Valid()
      ensures log == old(log) + StreamHandlerEffects(old(processorCreated), shutdown, true, startOk, livePolls)
      ensures outcome == StreamHandlerOutcome(true, startOk)
      ensures running && processorCreated
      ensures shutdown == old(shutdown)
      ensures timers == old(timers) && scheduler == old(scheduler) && streamScheduler == old(streamScheduler)
    {
      ghost var effects := StreamHandlerEffects(processorCreated, shutdown, true, startOk, livePolls);
      running := true;
      processorCreated := true;
      log := log + [LockAcquired(StreamLock), RunningSet(true), ProcessorCreated];
      outcome := RunProcessor(startOk, livePolls);
      // finally
      log := log + [ProcessorShutdown, LockReleased(StreamLock)];
      assert log == old(log) + effects;
      assert Held({}, log) == {} by {
        HeldAppend({}, old(log), effects);
        StreamHandlerReleases(old(processorCreated), shutdown, true, startOk, livePolls, {});
      }
    }
  }
}
