/**
 * The scan pipeline: a pool of workers takes files from an unbuffered channel and writes their
 * hashes to a shared map. Every interleaving of the workers gives what a sequential loop gives.
 */
module Pipeline {
  import opened Text
  import opened Order
  import opened Compare
  import opened Walk

  /** sumFile: the hash of a file, or None where the file cannot be read. */
  type SumFile = string -> Option<string>

  // ---------------------------------------------------------------- the sequential scan

  function SeqMap(sum: SumFile, start: Files, list: seq<string>): Files {
    if list == [] then start
    else
      var before := SeqMap(sum, start, list[..|list| - 1]);
      var file := list[|list| - 1];
      match sum(file)
      case Some(hash) => before[file := hash]
      case None => before
  }

  function SeqUnreadable(sum: SumFile, list: seq<string>): nat {
    if list == [] then 0
    else SeqUnreadable(sum, list[..|list| - 1]) + if sum(list[|list| - 1]).None? then 1 else 0
  }

  // ---------------------------------------------------------------- the pool

  /** Where a worker stands in its loop. */
  datatype Worker =
    | Idle                                // waiting to receive a file
    | Hashing(file: string)               // has a file, inside sumFile
    | HaveSum(file: string, hash: string) // waiting for the lock of the map
    | MapLocked(file: string, hash: string)
    | MapWritten                          // still holds the lock
    | HaveError                           // waiting for the lock of the counter
    | ErrLocked
    | ErrRead(count: nat)                 // has read the counter it increments
    | ErrWritten                          // still holds the lock
    | Exited

  datatype Job = Job(sum: SumFile, start: Files, list: seq<string>)

  datatype Pool = Pool(
    next: nat,                  // how many files have been handed out
    closed: bool,               // the channel is closed
    checked: Option<nat>,       // the size of the map, once the main goroutine has seen all workers exit
    workers: seq<Worker>,
    fileMap: Files,
    mapLock: Option<nat>,       // the worker that holds fileMap.mux
    unreadable: nat,
    errLock: Option<nat>)       // the worker that holds errMu

  datatype Action =
    | Receive(w: nat) | Hash(w: nat)
    | LockMap(w: nat) | WriteMap(w: nat) | UnlockMap(w: nat)
    | LockErr(w: nat) | ReadErr(w: nat) | WriteErr(w: nat) | UnlockErr(w: nat)
    | Exit(w: nat) | Close | Finish

  predicate Enabled(job: Job, s: Pool, a: Action) {
    match a
    case Close => !s.closed && s.next >= |job.list|
    case Finish => s.closed && s.checked.None? && s.mapLock.None? && AllExited(s)
    case _ =>
      a.w < |s.workers| &&
      var worker := s.workers[a.w];
      match a
      case Receive(_) => worker.Idle? && !s.closed && s.next < |job.list|
      case Hash(_) => worker.Hashing?
      case LockMap(_) => worker.HaveSum? && s.mapLock.None?
      case WriteMap(_) => worker.MapLocked?
      case UnlockMap(_) => worker.MapWritten?
      case LockErr(_) => worker.HaveError? && s.errLock.None?
      case ReadErr(_) => worker.ErrLocked?
      case WriteErr(_) => worker.ErrRead?
      case UnlockErr(_) => worker.ErrWritten?
      case Exit(_) => worker.Idle? && s.closed
  }

  function Do(job: Job, s: Pool, a: Action): Pool
    requires Enabled(job, s, a)
  {
    match a
    case Close => s.(closed := true)
    case Finish => s.(checked := Some(|s.fileMap|))
    case Receive(w) => Become(s, w, Hashing(job.list[s.next])).(next := s.next + 1)
    case Hash(w) =>
      var file := s.workers[w].file;
      Become(s, w, match job.sum(file) case Some(hash) => HaveSum(file, hash) case None => HaveError)
    case LockMap(w) => Become(s, w, MapLocked(s.workers[w].file, s.workers[w].hash)).(mapLock := Some(w))
    case WriteMap(w) => Become(s, w, MapWritten).(fileMap := s.fileMap[s.workers[w].file := s.workers[w].hash])
    case UnlockMap(w) => Become(s, w, Idle).(mapLock := None)
    case LockErr(w) => Become(s, w, ErrLocked).(errLock := Some(w))
    case ReadErr(w) => Become(s, w, ErrRead(s.unreadable))
    case WriteErr(w) => Become(s, w, ErrWritten).(unreadable := s.workers[w].count + 1)
    case UnlockErr(w) => Become(s, w, Idle).(errLock := None)
    case Exit(w) => Become(s, w, Exited)
  }

  function Become(s: Pool, w: nat, worker: Worker): Pool
    requires w < |s.workers|
  {
    s.(workers := s.workers[w := worker])
  }

  function Init(job: Job, n: nat): Pool {
    Pool(0, false, None, seq(n, _ => Idle), job.start, None, 0, None)
  }

  predicate AllExited(s: Pool) {
    forall w :: 0 <= w < |s.workers| ==> s.workers[w].Exited?
  }

  predicate Final(s: Pool) {
    s.checked.Some?
  }

  // ---------------------------------------------------------------- counting over workers

  function Total(workers: seq<Worker>, f: Worker -> nat): nat {
    if workers == [] then 0 else f(workers[0]) + Total(workers[1..], f)
  }

  lemma {:induction false} TotalUpdate(workers: seq<Worker>, f: Worker -> nat, w: nat, worker: Worker)
    requires w < |workers|
    ensures Total(workers[w := worker], f) == Total(workers, f) - f(workers[w]) + f(worker)
  {
    if w > 0 {
      TotalUpdate(workers[1..], f, w - 1, worker);
      assert workers[w := worker][1..] == workers[1..][w - 1 := worker];
    }
  }

  lemma {:induction false} TotalZero(workers: seq<Worker>, f: Worker -> nat)
    requires forall w :: 0 <= w < |workers| ==> f(workers[w]) == 0
    ensures Total(workers, f) == 0
  {
    if workers != [] {
      TotalZero(workers[1..], f);
    }
  }

  /** 1 for a worker whose unreadable file is not counted yet. */
  function Uncounted(sum: SumFile): Worker -> nat {
    (worker: Worker) =>
      if worker.HaveError? || worker.ErrLocked? || worker.ErrRead?
         || (worker.Hashing? && sum(worker.file).None?) then 1 else 0
  }

  /** The readable file a worker has not written yet. */
  predicate Holds(sum: SumFile, worker: Worker, file: string) {
    (worker.Hashing? || worker.HaveSum? || worker.MapLocked?) && worker.file == file && sum(file).Some?
  }

  // ---------------------------------------------------------------- invariant

  ghost predicate WorkerOk(job: Job, s: Pool, w: nat)
    requires w < |s.workers| && s.next <= |job.list|
  {
    var worker := s.workers[w];
    && (worker.Hashing? || worker.HaveSum? || worker.MapLocked? ==> worker.file in job.list[..s.next])
    && (worker.HaveSum? || worker.MapLocked? ==> job.sum(worker.file) == Some(worker.hash))
    && (worker.MapLocked? || worker.MapWritten? <==> s.mapLock == Some(w))
    && (worker.ErrLocked? || worker.ErrRead? || worker.ErrWritten? <==> s.errLock == Some(w))
    && (worker.ErrRead? ==> worker.count == s.unreadable)
    && (worker.Exited? ==> s.closed)
  }

  /** Away from the files workers still hold, the map is that of the sequential scan so far. */
  ghost predicate MapOk(job: Job, s: Pool)
    requires s.next <= |job.list|
  {
    var target := SeqMap(job.sum, job.start, job.list[..s.next]);
    forall f :: (forall w :: 0 <= w < |s.workers| ==> !Holds(job.sum, s.workers[w], f)) ==>
      (f in s.fileMap <==> f in target) && (f in target ==> s.fileMap[f] == target[f])
  }

  ghost predicate CountOk(job: Job, s: Pool)
    requires s.next <= |job.list|
  {
    s.unreadable + Total(s.workers, Uncounted(job.sum)) == SeqUnreadable(job.sum, job.list[..s.next])
  }

  ghost predicate Inv(job: Job, s: Pool) {
    && s.next <= |job.list| && |s.workers| > 0
    && (s.closed ==> s.next == |job.list|)
    && (s.mapLock.Some? ==> s.mapLock.value < |s.workers|)
    && (s.errLock.Some? ==> s.errLock.value < |s.workers|)
    && (forall w :: 0 <= w < |s.workers| ==> WorkerOk(job, s, w))
    && MapOk(job, s)
    && CountOk(job, s)
    && (s.checked.Some? ==> s.closed && s.checked.value == |s.fileMap| && AllExited(s))
  }

  lemma {:induction false} InitInv(job: Job, n: nat)
    requires n > 0
    ensures Inv(job, Init(job, n))
  {
    TotalZero(Init(job, n).workers, Uncounted(job.sum));
    assert job.list[..0] == [];
  }

  lemma {:induction false} SeqNext(sum: SumFile, start: Files, list: seq<string>, next: nat)
    requires next < |list|
    ensures SeqMap(sum, start, list[..next + 1])
         == var before := SeqMap(sum, start, list[..next]);
            match sum(list[next]) { case Some(hash) => before[list[next] := hash] case None => before }
    ensures SeqUnreadable(sum, list[..next + 1])
      == SeqUnreadable(sum, list[..next]) + if sum(list[next]).None? then 1 else 0
  {
    assert list[..next + 1][..next] == list[..next];
  }

  lemma {:induction false} SeqMapAt(sum: SumFile, start: Files, list: seq<string>, f: string)
    ensures f in SeqMap(sum, start, list) <==> f in start || (f in list && sum(f).Some?)
    ensures f in list && sum(f).Some? ==> SeqMap(sum, start, list)[f] == sum(f).value
    ensures f in start && (f !in list || sum(f).None?) ==> SeqMap(sum, start, list)[f] == start[f]
  {
    if list != [] {
      var init := list[..|list| - 1];
      SeqMapAt(sum, start, init, f);
      assert list == init + [list[|list| - 1]];
    }
  }

  // ---------------------------------------------------------------- every step keeps the invariant

  lemma {:induction false} StepInv(job: Job, s: Pool, a: Action)
    requires Inv(job, s) && Enabled(job, s, a)
    ensures Inv(job, Do(job, s, a))
  {
    StepWorkers(job, s, a);
    StepMap(job, s, a);
    StepCount(job, s, a);
  }

  lemma {:induction false} StepWorkers(job: Job, s: Pool, a: Action)
    requires Inv(job, s) && Enabled(job, s, a)
    ensures var s' := Do(job, s, a);
      && |s'.workers| == |s.workers| && s'.next <= |job.list|
      && forall w :: 0 <= w < |s.workers| ==> WorkerOk(job, s', w)
  {
    var s' := Do(job, s, a);
    forall w | 0 <= w < |s.workers| ensures WorkerOk(job, s', w) {
      assert WorkerOk(job, s, w);
      if a.Receive? {
        assert job.list[..s'.next] == job.list[..s.next] + [job.list[s.next]];
      }
      if !a.Close? && !a.Finish? {
        assert WorkerOk(job, s, a.w);
      }
    }
  }

  lemma {:induction false} StepMap(job: Job, s: Pool, a: Action)
    requires Inv(job, s) && Enabled(job, s, a)
    ensures Do(job, s, a).next <= |job.list| && MapOk(job, Do(job, s, a))
  {
    var s' := Do(job, s, a);
    if !a.Close? && !a.Finish? {
      assert WorkerOk(job, s, a.w);
      if a.Receive? {
        SeqNext(job.sum, job.start, job.list, s.next);
      }
      var target := SeqMap(job.sum, job.start, job.list[..s.next]);
      var target' := SeqMap(job.sum, job.start, job.list[..s'.next]);
      forall f | forall w :: 0 <= w < |s'.workers| ==> !Holds(job.sum, s'.workers[w], f)
        ensures (f in s'.fileMap <==> f in target') && (f in target' ==> s'.fileMap[f] == target'[f])
      {
        assert !Holds(job.sum, s'.workers[a.w], f);
        if a.WriteMap? && f == s.workers[a.w].file {
          SeqMapAt(job.sum, job.start, job.list[..s.next], f);
        } else {
          forall w | 0 <= w < |s.workers| ensures !Holds(job.sum, s.workers[w], f) {
            assert !Holds(job.sum, s'.workers[w], f);
          }
        }
      }
    }
  }

  lemma {:induction false} StepCount(job: Job, s: Pool, a: Action)
    requires Inv(job, s) && Enabled(job, s, a)
    ensures Do(job, s, a).next <= |job.list| && CountOk(job, Do(job, s, a))
  {
    if !a.Close? && !a.Finish? {
      assert WorkerOk(job, s, a.w);
      var s' := Do(job, s, a);
      TotalUpdate(s.workers, Uncounted(job.sum), a.w, s'.workers[a.w]);
      if a.Receive? {
        SeqNext(job.sum, job.start, job.list, s.next);
      }
    }
  }

  // ---------------------------------------------------------------- progress

  /** How many steps a worker is away from rest, at most. */
  function Work(): Worker -> nat {
    (worker: Worker) =>
      match worker
      case Exited => 0
      case Idle => 1
      case ErrWritten => 2
      case MapWritten => 3
      case ErrRead(_) => 3
      case ErrLocked => 4
      case MapLocked(_, _) => 4
      case HaveError => 5
      case HaveSum(_, _) => 5
      case Hashing(_) => 6
  }

  function Measure(job: Job, s: Pool): int {
    7 * (|job.list| - s.next) + Total(s.workers, Work())
    + (if s.closed then 0 else 1) + if s.checked.Some? then 0 else 1
  }

  /** Every step makes the measure smaller, so no run has more steps than the measure it starts with. */
  lemma {:induction false} StepDecreases(job: Job, s: Pool, a: Action)
    requires Inv(job, s) && Enabled(job, s, a)
    ensures 0 <= Measure(job, Do(job, s, a)) < Measure(job, s)
  {
    if !a.Close? && !a.Finish? {
      assert WorkerOk(job, s, a.w);
      TotalUpdate(s.workers, Work(), a.w, Do(job, s, a).workers[a.w]);
    }
  }

  /** The step a worker that is neither idle nor gone is waiting to take, or the step of the one it waits for. */
  lemma {:induction false} BusyStep(job: Job, s: Pool, w: nat) returns (a: Action)
    requires Inv(job, s) && w < |s.workers| && !s.workers[w].Idle? && !s.workers[w].Exited?
    ensures Enabled(job, s, a)
  {
    var v := w;
    if s.workers[w].HaveSum? && s.mapLock.Some? {
      v := s.mapLock.value;
    } else if s.workers[w].HaveError? && s.errLock.Some? {
      v := s.errLock.value;
    }
    assert WorkerOk(job, s, v);
    a := match s.workers[v]
      case Hashing(_) => Hash(v)
      case HaveSum(_, _) => LockMap(v)
      case MapLocked(_, _) => WriteMap(v)
      case MapWritten => UnlockMap(v)
      case HaveError => LockErr(v)
      case ErrLocked => ReadErr(v)
      case ErrRead(_) => WriteErr(v)
      case _ => UnlockErr(v);
  }

  /** No deadlock: short of the end some step can be taken. */
  lemma {:induction false} NoDeadlock(job: Job, s: Pool) returns (a: Action)
    requires Inv(job, s) && !Final(s)
    ensures Enabled(job, s, a)
  {
    if w :| 0 <= w < |s.workers| && !s.workers[w].Idle? && !s.workers[w].Exited? {
      a := BusyStep(job, s, w);
    } else if !s.closed {
      assert WorkerOk(job, s, 0);
      a := if s.next < |job.list| then Receive(0) else Close;
    } else if w :| 0 <= w < |s.workers| && s.workers[w].Idle? {
      a := Exit(w);
    } else {
      assert s.mapLock.Some? ==> WorkerOk(job, s, s.mapLock.value);
      a := Finish;
    }
  }

  /** At the end map and counter are those of the sequential scan. */
  lemma {:induction false} FinalResult(job: Job, s: Pool)
    requires Inv(job, s) && Final(s)
    ensures s.fileMap == SeqMap(job.sum, job.start, job.list)
    ensures s.unreadable == SeqUnreadable(job.sum, job.list)
    ensures s.checked == Some(|SeqMap(job.sum, job.start, job.list)|)
  {
    assert job.list[..s.next] == job.list;
    TotalZero(s.workers, Uncounted(job.sum));
    var target := SeqMap(job.sum, job.start, job.list);
    forall f ensures (f in s.fileMap <==> f in target) && (f in target ==> s.fileMap[f] == target[f]) {}
  }

  // ---------------------------------------------------------------- whole runs

  /** The pool after a sequence of steps, if each could be taken. */
  ghost function Run(job: Job, s: Pool, actions: seq<Action>): Option<Pool>
    decreases |actions|
  {
    if actions == [] then Some(s)
    else if Enabled(job, s, actions[0]) then Run(job, Do(job, s, actions[0]), actions[1..])
    else None
  }

  lemma {:induction false} RunInv(job: Job, s: Pool, actions: seq<Action>)
    requires Inv(job, s) && Run(job, s, actions).Some?
    ensures Inv(job, Run(job, s, actions).value)
    ensures 0 <= Measure(job, Run(job, s, actions).value) <= Measure(job, s) - |actions|
    decreases |actions|
  {
    if actions != [] {
      StepInv(job, s, actions[0]);
      StepDecreases(job, s, actions[0]);
      RunInv(job, Do(job, s, actions[0]), actions[1..]);
    } else {
      assert Total(s.workers, Work()) >= 0;
    }
  }

  /**
   * For every number of workers and every interleaving: the runs that cannot go on are those that
   * have ended, they end with the sequential result, and no run is longer than a bound given by the job.
   */
  lemma {:induction false} EveryRun(job: Job, n: nat, actions: seq<Action>)
    requires n > 0 && Run(job, Init(job, n), actions).Some?
    ensures |actions| <= 7 * |job.list| + n + 2
    ensures var s := Run(job, Init(job, n), actions).value;
      && (Final(s) <==> forall a :: !Enabled(job, s, a))
      && (Final(s) ==>
            && s.fileMap == SeqMap(job.sum, job.start, job.list)
            && s.unreadable == SeqUnreadable(job.sum, job.list)
            && s.checked == Some(|s.fileMap|))
  {
    InitInv(job, n);
    RunInv(job, Init(job, n), actions);
    IdleWork(n);
    var s := Run(job, Init(job, n), actions).value;
    if Final(s) {
      FinalResult(job, s);
    } else {
      var a := NoDeadlock(job, s);
    }
  }

  lemma {:induction false} IdleWork(n: nat)
    ensures Total(seq(n, _ => Idle), Work()) == n
  {
    var workers: seq<Worker> := seq(n, _ => Idle);
    if n > 0 {
      IdleWork(n - 1);
      assert workers[1..] == seq(n - 1, _ => Idle);
    }
  }

  // ---------------------------------------------------------------- the scan

  /** The hashes found so far. */
  class SafeFileMap {
    var v: Files

    constructor ()
      ensures v == map[]
    {
      v := map[];
    }
  }

  /** The step worker `w` takes next. */
  function StepOf(s: Pool, w: nat): Action
    requires w < |s.workers|
  {
    match s.workers[w]
    case Idle => if s.closed then Exit(w) else Receive(w)
    case Hashing(_) => Hash(w)
    case HaveSum(_, _) => LockMap(w)
    case MapLocked(_, _) => WriteMap(w)
    case MapWritten => UnlockMap(w)
    case HaveError => LockErr(w)
    case ErrLocked => ReadErr(w)
    case ErrRead(_) => WriteErr(w)
    case _ => UnlockErr(w)
  }

  /** An arbitrary scheduler: any goroutine that can take a step may be the one that takes it. */
  method Schedule(job: Job, s: Pool) returns (a: Action)
    requires Inv(job, s) && !Final(s)
    ensures Enabled(job, s, a)
  {
    ghost var possible := NoDeadlock(job, s);
    assert !possible.Close? && !possible.Finish? ==> StepOf(s, possible.w) == possible;
    if
    case w: nat :| w < |s.workers| && Enabled(job, s, StepOf(s, w)) => a := StepOf(s, w);
    case Enabled(job, s, Close) => a := Close;
    case Enabled(job, s, Finish) => a := Finish;
  }

  /**
   * parallelFileCheck, run by an arbitrary scheduler: each round takes any step any goroutine can
   * take. Its result does not depend on the choices.
   */
  method ParallelFileCheck(
      noWalk: string -> bool, path: string, tree: Node, sum: SumFile, paraCount: int, fileMap: SafeFileMap)
    returns (found: nat, checked: nat, unreadable: nat)
    modifies fileMap
    ensures var list := Walked(noWalk, path, tree);
      && fileMap.v == SeqMap(sum, old(fileMap.v), list)
      && found == |list| && checked == |fileMap.v| && unreadable == SeqUnreadable(sum, list)
  {
    var allFilesList := new FileList();
    WalkFiles(noWalk, path, tree, allFilesList);
    var files := allFilesList.files;
    assert files == Walked(noWalk, path, tree);
    var workers := if paraCount < 1 then 1 else paraCount;
    var job := Job(sum, fileMap.v, files);
    var s := Init(job, workers);
    InitInv(job, workers);
    while s.checked.None?
      invariant Inv(job, s)
      decreases Measure(job, s)
    {
      var a := Schedule(job, s);
      StepInv(job, s, a);
      StepDecreases(job, s, a);
      s := Do(job, s, a);
    }
    FinalResult(job, s);
    fileMap.v := s.fileMap;
    found, checked, unreadable := |files|, s.checked.value, s.unreadable;
  }

  /** Started on an empty map, every file found is either checked or unreadable. */
  lemma {:induction false} FoundIsCheckedOrUnreadable(sum: SumFile, list: seq<string>)
    requires Distinct(list)
    ensures |list| == |SeqMap(sum, map[], list)| + SeqUnreadable(sum, list)
  {
    if list != [] {
      var init, last := list[..|list| - 1], list[|list| - 1];
      FoundIsCheckedOrUnreadable(sum, init);
      SeqMapAt(sum, map[], init, last);
      assert last !in init;
      var before := SeqMap(sum, map[], init);
      if sum(last).Some? {
        assert before[last := sum(last).value].Keys == before.Keys + {last};
      }
    }
  }

  /** The three counts of a scan of a file system tree add up. */
  lemma {:induction false} ScanCounts(noWalk: string -> bool, path: string, tree: Node, sum: SumFile)
    requires WellNamed(tree)
    ensures var list := Walked(noWalk, path, tree);
      |list| == |SeqMap(sum, map[], list)| + SeqUnreadable(sum, list)
  {
    WalkedDistinct(noWalk, path, tree);
    FoundIsCheckedOrUnreadable(sum, Walked(noWalk, path, tree));
  }
}
