/**
 * The agent at work: connections, background operations, cron jobs and web scans compete for one
 * pair of flags; cron jobs leave a bounded history; every command is answered by one sentinel.
 * Each action below is one step of one goroutine; a run is any interleaving of actions.
 */
module Operations {
  import opened Text
  import opened Order
  import opened Scheduler

  // ---------------------------------------------------------------- state

  /** Where a background scan or compare stands. */
  datatype Stage =
    | Starting   // the flag is set, the goroutine is not running yet
    | Working    // inside callScan or compareReportsString
    | Ended      // it returned, failed or panicked; the deferred function has not cleared the flag
    | Cleared    // the flag is cleared, the sentinel is still to be sent

  /** Where a firing of a cron job stands. */
  datatype RunStage =
    | Claimed                                              // the flag is set
    | Timed(start: nat)                                    // the start time is taken
    | Recorded(start: nat, at: nat)                        // in the history as running
    | Finished(start: nat, at: nat, end: nat, status: string)   // the flag is still set
    | Yielded(start: nat, at: nat, end: nat, status: string)    // the flag is cleared, the history not updated
    | Refused                                              // another operation holds a flag
    | RefusedTimed(start: nat)
    | RefusedReady(start: nat, end: nat)                   // about to be recorded as skipped

  datatype Op =
    | Background(scan: bool, conn: Option<nat>, stage: Stage)  // conn is None for a web scan
    | CronRun(name: string, run: RunStage)

  /** The read loop of a connection. */
  datatype Loop =
    | Reading
    | Processing          // a command has been read and is not answered
    | Launching(op: nat)  // the flag is set for it, its goroutine not started

  datatype Conn = Conn(received: nat, sentinels: nat, loop: Loop)

  datatype Agent = Agent(
    scanRunning: bool,
    compareRunning: bool,
    ops: map<nat, Op>,
    nextId: nat,
    acquired: multiset<nat>,   // operations that have set a flag, in order of time forgotten
    released: multiset<nat>,   // operations that have cleared it
    conns: map<nat, Conn>,
    clock: nat,
    history: seq<JobRun>,      // what the scheduler keeps
    log: seq<JobRun>)          // what an unbounded history would hold, each run updating its own entry

  const INIT := Agent(false, false, map[], 0, multiset{}, multiset{}, map[], 0, [], [])

  datatype Action =
    | Connect(c: nat)
    | Receive(c: nat, blank: bool)
    | Answer(c: nat)                    // any command the read loop answers itself, refusals included
    | Launch(c: nat, scan: bool)        // "scan" or "compare" with both flags clear
    | WebScan
    | CronFire(name: string)
    | Spawn(id: nat)
    | End(id: nat)                      // normal return, error or recovered panic
    | Clear(id: nat)
    | Notify(id: nat)
    | TakeTime(id: nat, status: string)
    | RecordRun(id: nat)
    | CronClear(id: nat)
    | UpdateRun(id: nat)

  predicate Free(s: Agent) {
    !s.scanRunning && !s.compareRunning
  }

  predicate IsBackground(s: Agent, id: nat, stage: Stage) {
    id in s.ops && s.ops[id].Background? && s.ops[id].stage == stage
  }

  predicate IsCron(s: Agent, id: nat) {
    id in s.ops && s.ops[id].CronRun?
  }

  /** "complete" or "error: ...". */
  predicate FinalStatus(status: string) {
    status == "complete" || "error: " <= status
  }

  predicate Enabled(s: Agent, a: Action) {
    match a
    case Connect(c) => c !in s.conns
    case Receive(c, _) => c in s.conns && s.conns[c].loop.Reading?
    case Answer(c) => c in s.conns && s.conns[c].loop.Processing?
    case Launch(c, _) => c in s.conns && s.conns[c].loop.Processing? && Free(s)
    case WebScan => Free(s)
    case CronFire(_) => true
    case Spawn(id) => IsBackground(s, id, Starting)
    case End(id) => IsBackground(s, id, Working)
    case Clear(id) => IsBackground(s, id, Ended)
    case Notify(id) => IsBackground(s, id, Cleared)
    case TakeTime(id, status) =>
      IsCron(s, id) && var run := s.ops[id].run;
      run.Claimed? || run.Refused? || run.RefusedTimed? || (run.Recorded? && FinalStatus(status))
    case RecordRun(id) => IsCron(s, id) && (s.ops[id].run.Timed? || s.ops[id].run.RefusedReady?)
    case CronClear(id) => IsCron(s, id) && s.ops[id].run.Finished?
    case UpdateRun(id) => IsCron(s, id) && s.ops[id].run.Yielded? && s.ops[id].run.at < |s.log|
  }

  function Begin(s: Agent, op: Op): Agent {
    s.(ops := s.ops[s.nextId := op], nextId := s.nextId + 1)
  }

  function SetConn(s: Agent, c: nat, conn: Conn): Agent {
    s.(conns := s.conns[c := conn])
  }

  function SetRun(s: Agent, id: nat, run: RunStage): Agent
    requires IsCron(s, id)
  {
    s.(ops := s.ops[id := s.ops[id].(run := run)])
  }

  function Do(s: Agent, a: Action): Agent
    requires Enabled(s, a)
  {
    match a
    case Connect(c) => SetConn(s, c, Conn(0, 0, Reading))
    case Receive(c, blank) =>
      if blank then s
      else SetConn(s, c, s.conns[c].(received := s.conns[c].received + 1, loop := Processing))
    case Answer(c) => SetConn(s, c, s.conns[c].(sentinels := s.conns[c].sentinels + 1, loop := Reading))
    case Launch(c, scan) =>
      SetConn(Begin(s, Background(scan, Some(c), Starting)), c, s.conns[c].(loop := Launching(s.nextId)))
        .(scanRunning := scan, compareRunning := !scan, acquired := s.acquired + multiset{s.nextId})
    case WebScan =>
      Begin(s, Background(true, None, Starting)).(scanRunning := true, acquired := s.acquired + multiset{s.nextId})
    case CronFire(name) =>
      if Free(s) then
        Begin(s, CronRun(name, Claimed)).(scanRunning := true, acquired := s.acquired + multiset{s.nextId})
      else Begin(s, CronRun(name, Refused))
    case Spawn(id) =>
      var started := s.(ops := s.ops[id := s.ops[id].(stage := Working)]);
      var conn := s.ops[id].conn;
      if conn.Some? && conn.value in s.conns then
        SetConn(started, conn.value, s.conns[conn.value].(loop := Reading))
      else started
    case End(id) => s.(ops := s.ops[id := s.ops[id].(stage := Ended)])
    case Clear(id) =>
      var op := s.ops[id];
      s.(ops := if op.conn.Some? then s.ops[id := op.(stage := Cleared)] else s.ops - {id},
         scanRunning := s.scanRunning && !op.scan,
         compareRunning := s.compareRunning && op.scan,
         released := s.released + multiset{id})
    case Notify(id) =>
      var conn := s.ops[id].conn;
      var rest := s.(ops := s.ops - {id});
      if conn.Some? && conn.value in s.conns
      then SetConn(rest, conn.value, s.conns[conn.value].(sentinels := s.conns[conn.value].sentinels + 1)) else rest
    case TakeTime(id, status) =>
      var now := s.clock + 1;
      var run := match s.ops[id].run
        case Claimed => Timed(now)
        case Recorded(start, at) => Finished(start, at, now, status)
        case Refused => RefusedTimed(now)
        case RefusedTimed(start) => RefusedReady(start, now)
        case other => other;
      SetRun(s, id, run).(clock := now)
    case RecordRun(id) =>
      var op := s.ops[id];
      if op.run.Timed? then
        var entry := JobRun(op.name, op.run.start, 0, RUNNING);
        SetRun(s, id, Recorded(op.run.start, |s.log|)).(history := Record(s.history, entry), log := s.log + [entry])
      else
        var entry := JobRun(op.name, op.run.start, op.run.end, "skipped");
        s.(ops := s.ops - {id}, history := Record(s.history, entry), log := s.log + [entry])
    case CronClear(id) =>
      var run := s.ops[id].run;
      SetRun(s, id, Yielded(run.start, run.at, run.end, run.status)).(
        scanRunning := false, released := s.released + multiset{id})
    case UpdateRun(id) =>
      var op := s.ops[id];
      var run := op.run;
      s.(ops := s.ops - {id},
         history := UpdateLast(s.history, op.name, run.start, run.end, run.status),
         log := s.log[run.at := s.log[run.at].(end := run.end, status := run.status)])
  }

  // ---------------------------------------------------------------- flags

  /** The operation has set a flag and not cleared it: it is in flight. */
  predicate Holding(op: Op) {
    match op
    case Background(_, _, stage) => !stage.Cleared?
    case CronRun(_, run) => run.Claimed? || run.Timed? || run.Recorded? || run.Finished?
  }

  predicate IsScan(op: Op) {
    op.CronRun? || op.scan
  }

  predicate HoldsFlag(s: Agent, id: nat) {
    id in s.ops && Holding(s.ops[id])
  }

  /** At most one operation is in flight, and each flag is set exactly when an operation of its kind is. */
  ghost predicate FlagInv(s: Agent) {
    && (forall id, id' :: HoldsFlag(s, id) && HoldsFlag(s, id') ==> id == id')
    && (s.scanRunning <==> exists id :: HoldsFlag(s, id) && IsScan(s.ops[id]))
    && (s.compareRunning <==> exists id :: HoldsFlag(s, id) && !IsScan(s.ops[id]))
  }

  ghost predicate IdsInv(s: Agent) {
    forall id :: id in s.ops || id in s.acquired ==> id < s.nextId
  }

  /** Nobody sets a flag twice; whoever set one has cleared it once, or is still in flight. */
  ghost predicate ReleaseInv(s: Agent) {
    && IdsInv(s)
    && forall id :: s.acquired[id] <= 1 && s.acquired[id] == s.released[id] + if HoldsFlag(s, id) then 1 else 0
  }

  /** The operation a step belongs to; for steps of read loops that start none, a number not in use. */
  function Acting(s: Agent, a: Action): nat {
    match a
    case Connect(_) => s.nextId
    case Receive(_, _) => s.nextId
    case Answer(_) => s.nextId
    case Launch(_, _) => s.nextId
    case WebScan => s.nextId
    case CronFire(_) => s.nextId
    case _ => a.id
  }

  function OpAt(s: Agent, id: nat): Option<Op> {
    if id in s.ops then Some(s.ops[id]) else None
  }

  ghost predicate SameElsewhere(s: Agent, s': Agent, id: nat) {
    forall other :: other != id ==> OpAt(s', other) == OpAt(s, other)
  }

  datatype FlagEffect = Keeps | Acquires | Releases

  function EffectOf(s: Agent, a: Action): FlagEffect {
    match a
    case Launch(_, _) => Acquires
    case WebScan => Acquires
    case CronFire(_) => if Free(s) then Acquires else Keeps
    case Clear(_) => Releases
    case CronClear(_) => Releases
    case _ => Keeps
  }

  /** How one step changes the operation it belongs to, the flags and the two records of their use. */
  ghost predicate FlagStep(s: Agent, s': Agent, id: nat, effect: FlagEffect) {
    match effect
    case Keeps =>
      && s'.scanRunning == s.scanRunning && s'.compareRunning == s.compareRunning
      && s'.acquired == s.acquired && s'.released == s.released
      && HoldsFlag(s', id) == HoldsFlag(s, id)
      && (HoldsFlag(s, id) ==> IsScan(s'.ops[id]) == IsScan(s.ops[id]))
    case Acquires =>
      && Free(s) && HoldsFlag(s', id) && s'.acquired == s.acquired + multiset{id} && s'.released == s.released
      && s'.scanRunning == IsScan(s'.ops[id]) && s'.compareRunning == !IsScan(s'.ops[id])
    case Releases =>
      && HoldsFlag(s, id) && !HoldsFlag(s', id) && s'.acquired == s.acquired && s'.released == s.released + multiset{id}
      && s'.scanRunning == (s.scanRunning && !IsScan(s.ops[id]))
      && s'.compareRunning == (s.compareRunning && IsScan(s.ops[id]))
  }

  lemma {:induction false} StepElsewhere(s: Agent, a: Action)
    requires IdsInv(s) && Enabled(s, a)
    ensures SameElsewhere(s, Do(s, a), Acting(s, a))
    ensures s.nextId <= Do(s, a).nextId && (Acting(s, a) in Do(s, a).ops ==> Acting(s, a) < Do(s, a).nextId)
  {}

  /** A cron job in flight excludes a compare. */
  lemma {:induction false} CronExcludesCompare(s: Agent, id: nat)
    requires FlagInv(s) && HoldsFlag(s, id) && IsScan(s.ops[id])
    ensures !s.compareRunning
  {}

  lemma {:induction false} StepFlags(s: Agent, a: Action)
    requires IdsInv(s) && Enabled(s, a) && (a.CronClear? ==> !s.compareRunning)
    ensures FlagStep(s, Do(s, a), Acting(s, a), EffectOf(s, a))
  {
    if a.Launch? || a.WebScan? || a.CronFire? || a.Clear? || a.CronClear? {
      FlagsMove(s, a);
    } else {
      FlagsStay(s, a);
    }
  }

  lemma {:induction false} FlagsMove(s: Agent, a: Action)
    requires IdsInv(s) && Enabled(s, a) && (a.CronClear? ==> !s.compareRunning)
    requires a.Launch? || a.WebScan? || a.CronFire? || a.Clear? || a.CronClear?
    ensures FlagStep(s, Do(s, a), Acting(s, a), EffectOf(s, a))
  {
    assert s.nextId !in s.ops;
  }

  lemma {:induction false} FlagsStay(s: Agent, a: Action)
    requires IdsInv(s) && Enabled(s, a)
    requires !(a.Launch? || a.WebScan? || a.CronFire? || a.Clear? || a.CronClear?)
    ensures FlagStep(s, Do(s, a), Acting(s, a), EffectOf(s, a))
  {
    assert s.nextId !in s.ops;
  }

  lemma {:induction false} FlagsAfter(s: Agent, s': Agent, id: nat, effect: FlagEffect)
    requires FlagInv(s) && SameElsewhere(s, s', id) && FlagStep(s, s', id, effect)
    ensures FlagInv(s')
  {
    forall other | other != id ensures HoldsFlag(s', other) == HoldsFlag(s, other)
                               ensures HoldsFlag(s, other) ==> s'.ops[other] == s.ops[other] {
      assert OpAt(s', other) == OpAt(s, other);
    }
    match effect {
      case Keeps =>
      case Acquires => NobodyHolds(s);
      case Releases =>
    }
  }

  lemma {:induction false} NobodyHolds(s: Agent)
    requires FlagInv(s) && Free(s)
    ensures forall id :: !HoldsFlag(s, id)
  {
    forall id ensures !HoldsFlag(s, id) {
      if HoldsFlag(s, id) {
        HolderSetsFlag(s, id);
      }
    }
  }

  lemma {:induction false} HolderSetsFlag(s: Agent, id: nat)
    requires FlagInv(s) && HoldsFlag(s, id)
    ensures !Free(s)
  {}

  lemma {:induction false} ReleasesAfter(s: Agent, s': Agent, id: nat, effect: FlagEffect)
    requires FlagInv(s) && ReleaseInv(s) && SameElsewhere(s, s', id) && FlagStep(s, s', id, effect)
    requires s.nextId <= s'.nextId && (id in s'.ops ==> id < s'.nextId) && (effect.Acquires? ==> id == s.nextId)
    ensures ReleaseInv(s')
  {
    forall other | other != id
      ensures HoldsFlag(s', other) == HoldsFlag(s, other) && (other in s'.ops <==> other in s.ops)
    {
      assert OpAt(s', other) == OpAt(s, other);
    }
    assert effect.Acquires? ==> id !in s.acquired && id !in s.ops;
  }

  // ---------------------------------------------------------------- sentinels

  /** The background operations of a connection that still owe it a sentinel. */
  ghost function Owed(s: Agent, c: nat): set<nat> {
    set id | id in s.ops && Owes(s.ops[id], c)
  }

  predicate Owes(op: Op, c: nat) {
    op.Background? && op.conn == Some(c) && !op.stage.Starting?
  }

  ghost predicate ConnInv(s: Agent) {
    && (forall c :: c in s.conns ==> CountOk(s, c))
    && (forall id :: id in s.ops ==> ConnOf(s, id))
  }

  /** What one step does to the number of sentinels owed to a connection. */
  lemma {:induction false} OwedAfter(s: Agent, s': Agent, id: nat, c: nat)
    requires SameElsewhere(s, s', id)
    ensures |Owed(s', c)| == |Owed(s, c)| - (if id in s.ops && Owes(s.ops[id], c) then 1 else 0)
                           + (if id in s'.ops && Owes(s'.ops[id], c) then 1 else 0)
  {
    forall other | other != id ensures other in Owed(s', c) <==> other in Owed(s, c) {
      assert OpAt(s', other) == OpAt(s, other);
    }
    ChangeOne(Owed(s, c), Owed(s', c), id);
  }

  lemma {:induction false} ChangeOne(a: set<nat>, b: set<nat>, id: nat)
    requires forall other :: other != id ==> (other in a <==> other in b)
    ensures |b| == |a| - (if id in a then 1 else 0) + (if id in b then 1 else 0)
  {
    assert a - {id} == b - {id};
    WithoutOne(a, id);
    WithoutOne(b, id);
  }

  lemma {:induction false} WithoutOne(a: set<nat>, id: nat)
    ensures |a - {id}| == |a| - if id in a then 1 else 0
  {
    assert id !in a ==> a - {id} == a;
  }

  ghost predicate CountOk(s: Agent, c: nat)
    requires c in s.conns
  {
    s.conns[c].received == s.conns[c].sentinels + |Owed(s, c)| + if s.conns[c].loop.Reading? then 0 else 1
  }

  ghost predicate ConnOf(s: Agent, id: nat)
    requires id in s.ops
  {
    s.ops[id].Background? && s.ops[id].conn.Some? ==>
      && s.ops[id].conn.value in s.conns
      && (s.ops[id].stage.Starting? ==> s.conns[s.ops[id].conn.value].loop == Launching(id))
  }

  predicate OwesAt(s: Agent, id: nat, c: nat) {
    id in s.ops && Owes(s.ops[id], c)
  }

  /** A step keeps the balance between what a connection received, answered, owes and is processing. */
  ghost predicate Balanced(s: Agent, s': Agent, id: nat, c: nat)
    requires c in s.conns && c in s'.conns
  {
    s'.conns[c].received + s.conns[c].sentinels + One(OwesAt(s, id, c)) + One(!s.conns[c].loop.Reading?)
    == s.conns[c].received + s'.conns[c].sentinels + One(OwesAt(s', id, c)) + One(!s'.conns[c].loop.Reading?)
  }

  lemma {:induction false} StepBalanced(s: Agent, a: Action, c: nat)
    requires IdsInv(s) && Enabled(s, a) && c in s.conns
    requires Acting(s, a) in s.ops ==> ConnOf(s, Acting(s, a))
    ensures c in Do(s, a).conns && Balanced(s, Do(s, a), Acting(s, a), c)
  {
    if a.Connect? || a.Receive? || a.Answer? || a.Launch? || a.Spawn? || a.Notify? {
      BalancedTalk(s, a, c);
    } else {
      BalancedWork(s, a, c);
    }
  }

  lemma {:induction false} BalancedTalk(s: Agent, a: Action, c: nat)
    requires IdsInv(s) && Enabled(s, a) && c in s.conns
    requires Acting(s, a) in s.ops ==> ConnOf(s, Acting(s, a))
    requires a.Connect? || a.Receive? || a.Answer? || a.Launch? || a.Spawn? || a.Notify?
    ensures c in Do(s, a).conns && Balanced(s, Do(s, a), Acting(s, a), c)
  {
    assert s.nextId !in s.ops;
  }

  lemma {:induction false} BalancedWork(s: Agent, a: Action, c: nat)
    requires IdsInv(s) && Enabled(s, a) && c in s.conns
    requires Acting(s, a) in s.ops ==> ConnOf(s, Acting(s, a))
    requires !(a.Connect? || a.Receive? || a.Answer? || a.Launch? || a.Spawn? || a.Notify?)
    ensures c in Do(s, a).conns && Balanced(s, Do(s, a), Acting(s, a), c)
  {
    assert s.nextId !in s.ops;
  }

  /** A connection that is just made is balanced. */
  lemma {:induction false} NewConnection(s: Agent, a: Action, c: nat)
    requires ConnInv(s) && Enabled(s, a) && c in Do(s, a).conns && c !in s.conns
    ensures Do(s, a).ops == s.ops && CountOk(Do(s, a), c)
  {
    assert a == Connect(c) by {
      assert Acting(s, a) in s.ops ==> ConnOf(s, Acting(s, a));
    }
    forall other | other in s.ops ensures !Owes(s.ops[other], c) {
      assert ConnOf(s, other);
    }
    assert Owed(Do(s, a), c) == {};
  }

  lemma {:induction false} ConnOfAfter(s: Agent, a: Action, id: nat)
    requires IdsInv(s) && Enabled(s, a) && id in Do(s, a).ops
    requires Acting(s, a) in s.ops ==> ConnOf(s, Acting(s, a))
    requires id in s.ops ==> ConnOf(s, id)
    requires id != Acting(s, a) ==> OpAt(Do(s, a), id) == OpAt(s, id)
    ensures ConnOf(Do(s, a), id)
  {
    assert s.nextId !in s.ops;
  }

  lemma {:induction false} ConnsAfter(s: Agent, a: Action)
    requires ConnInv(s) && IdsInv(s) && Enabled(s, a) && SameElsewhere(s, Do(s, a), Acting(s, a))
    ensures ConnInv(Do(s, a))
  {
    var s', mine := Do(s, a), Acting(s, a);
    assert mine in s.ops ==> ConnOf(s, mine);
    forall c | c in s'.conns ensures CountOk(s', c) {
      if c in s.conns {
        assert CountOk(s, c);
        OwedAfter(s, s', mine, c);
        StepBalanced(s, a, c);
      } else {
        NewConnection(s, a, c);
      }
    }
    forall id | id in s'.ops ensures ConnOf(s', id) {
      assert id != mine ==> OpAt(s', id) == OpAt(s, id);
      assert id in s.ops ==> ConnOf(s, id);
      ConnOfAfter(s, a, id);
    }
  }

  // ---------------------------------------------------------------- history

  /** The start time of a cron run, once it is taken. */
  function StartOf(op: Option<Op>): Option<nat> {
    if op.None? || op.value.Background? || op.value.run.Claimed? || op.value.run.Refused? then None
    else Some(op.value.run.start)
  }

  /** The place in the log of the entry that a cron run will update. */
  function EntryOf(op: Option<Op>): Option<nat> {
    if op.Some? && op.value.CronRun? && (op.value.run.Recorded? || op.value.run.Finished? || op.value.run.Yielded?)
    then Some(op.value.run.at) else None
  }

  ghost predicate LogStarts(s: Agent) {
    && (forall i :: 0 <= i < |s.log| ==> s.log[i].start <= s.clock)
    && (forall i, j :: 0 <= i < j < |s.log| ==> s.log[i].start != s.log[j].start)
  }

  /** A start time not yet in the log is new there. */
  ghost predicate FreshStart(s: Agent, id: nat) {
    var op := OpAt(s, id);
    StartOf(op).Some? ==>
      && StartOf(op).value <= s.clock
      && (EntryOf(op).None? ==> forall i :: 0 <= i < |s.log| ==> s.log[i].start != StartOf(op).value)
  }

  ghost predicate StartsInv(s: Agent) {
    && LogStarts(s)
    && (forall id :: FreshStart(s, id))
    && (forall id, id' :: id != id' && StartOf(OpAt(s, id)).Some? ==> StartOf(OpAt(s, id)) != StartOf(OpAt(s, id')))
  }

  ghost predicate OwnEntry(s: Agent, id: nat) {
    var op := OpAt(s, id);
    EntryOf(op).Some? ==>
      && op.value.run.at < |s.log|
      && s.log[op.value.run.at] == JobRun(op.value.name, op.value.run.start, 0, RUNNING)
      && (op.value.run.Finished? || op.value.run.Yielded? ==> op.value.run.status != RUNNING)
  }

  ghost predicate Owned(s: Agent, i: nat) {
    exists id :: EntryOf(OpAt(s, id)) == Some(i)
  }

  ghost predicate EntriesInv(s: Agent) {
    && (forall id :: OwnEntry(s, id))
    && (forall i :: 0 <= i < |s.log| && s.log[i].status == RUNNING ==> Owned(s, i))
  }

  ghost predicate HistoryInv(s: Agent) {
    s.history == LastN(s.log, MAX_HISTORY)
  }

  /** What one step does to the log and to the run it belongs to. */
  ghost predicate RunStep(s: Agent, s': Agent, id: nat, a: Action) {
    var op, op' := OpAt(s, id), OpAt(s', id);
    match a
    case TakeTime(_, _) =>
      && s'.clock == s.clock + 1 && s'.log == s.log && s'.history == s.history
      && EntryOf(op') == EntryOf(op)
      && StartOf(op') == (if StartOf(op).None? then Some(s.clock + 1) else StartOf(op))
      && (EntryOf(op).Some? ==>
            op'.value.name == op.value.name && op'.value.run.Finished? && op'.value.run.status != RUNNING)
    case RecordRun(_) =>
      && s'.clock == s.clock && StartOf(op).Some? && EntryOf(op).None? && |s'.log| == |s.log| + 1
      && var entry := s'.log[|s.log|];
      && s'.log == s.log + [entry] && s'.history == Record(s.history, entry) && entry.start == StartOf(op).value
      && (op'.None? ==> entry.status != RUNNING)
      && (op'.Some? ==> EntryOf(op') == Some(|s.log|) && StartOf(op') == StartOf(op) && op'.value.run.Recorded?)
      && (op'.Some? ==> entry == JobRun(op'.value.name, op'.value.run.start, 0, RUNNING))
    case UpdateRun(_) =>
      && s'.clock == s.clock && EntryOf(op).Some? && op'.None? && op.value.run.Yielded? && op.value.run.at < |s.log|
      && var run := op.value.run;
      && s'.log == s.log[run.at := s.log[run.at].(end := run.end, status := run.status)]
      && s'.history == UpdateLast(s.history, op.value.name, run.start, run.end, run.status)
    case _ =>
      && s'.clock == s.clock && s'.log == s.log && s'.history == s.history
      && EntryOf(op') == EntryOf(op) && StartOf(op') == StartOf(op)
      && (EntryOf(op).Some? ==> op'.value.name == op.value.name)
      && (EntryOf(op).Some? && (op'.value.run.Finished? || op'.value.run.Yielded?) ==>
            (op.value.run.Finished? || op.value.run.Yielded?) && op'.value.run.status == op.value.run.status)
  }

  lemma {:induction false} StatusNotRunning(status: string)
    ensures FinalStatus(status) ==> status != RUNNING
    ensures "skipped" != RUNNING
  {
    assert "error: "[0] == 'e' && "complete"[0] == 'c' && RUNNING[0] == 'r' && "skipped"[0] == 's';
  }

  lemma {:induction false} StepRunShape(s: Agent, a: Action)
    requires IdsInv(s) && Enabled(s, a)
    ensures RunStep(s, Do(s, a), Acting(s, a), a)
  {
    match a {
      case TakeTime(id, status) => TimeShape(s, id, status);
      case RecordRun(id) => RecordShape(s, id);
      case UpdateRun(id) => UpdateShape(s, id);
      case _ => OtherShape(s, a);
    }
  }

  lemma {:induction false} TimeShape(s: Agent, id: nat, status: string)
    requires Enabled(s, TakeTime(id, status))
    ensures RunStep(s, Do(s, TakeTime(id, status)), id, TakeTime(id, status))
  {
    hide FinalStatus;
    StatusNotRunning(status);
  }

  lemma {:induction false} RecordShape(s: Agent, id: nat)
    requires Enabled(s, RecordRun(id))
    ensures RunStep(s, Do(s, RecordRun(id)), id, RecordRun(id))
  {
    hide Record;
    StatusNotRunning("");
  }

  lemma {:induction false} UpdateShape(s: Agent, id: nat)
    requires Enabled(s, UpdateRun(id))
    ensures RunStep(s, Do(s, UpdateRun(id)), id, UpdateRun(id))
  {
    hide UpdateLast;
  }

  lemma {:induction false} OtherShape(s: Agent, a: Action)
    requires IdsInv(s) && Enabled(s, a) && !a.TakeTime? && !a.RecordRun? && !a.UpdateRun?
    ensures RunStep(s, Do(s, a), Acting(s, a), a)
  {
    assert s.nextId !in s.ops;
  }

  lemma {:induction false} StartsAfter(s: Agent, s': Agent, id: nat, a: Action)
    requires StartsInv(s) && EntriesInv(s) && SameElsewhere(s, s', id) && RunStep(s, s', id, a)
    ensures StartsInv(s')
  {
    assert FreshStart(s, id) && OwnEntry(s, id);
    forall other ensures FreshStart(s', other) {
      assert FreshStart(s, other);
      assert other != id ==> OpAt(s', other) == OpAt(s, other);
      assert other != id && StartOf(OpAt(s, other)).Some? ==> StartOf(OpAt(s, other)) != StartOf(OpAt(s, id));
    }
    forall x, y | x != y && StartOf(OpAt(s', x)).Some? ensures StartOf(OpAt(s', x)) != StartOf(OpAt(s', y)) {
      assert FreshStart(s, x) && FreshStart(s, y);
      assert x != id ==> OpAt(s', x) == OpAt(s, x);
      assert y != id ==> OpAt(s', y) == OpAt(s, y);
      assert StartOf(OpAt(s, x)).Some? ==> StartOf(OpAt(s, x)) != StartOf(OpAt(s, y));
      assert StartOf(OpAt(s, y)).Some? ==> StartOf(OpAt(s, y)) != StartOf(OpAt(s, x));
    }
  }

  /** Two runs own two entries. */
  lemma {:induction false} EntriesApart(s: Agent, id: nat, other: nat)
    requires StartsInv(s) && OwnEntry(s, id) && OwnEntry(s, other) && id != other
    requires EntryOf(OpAt(s, id)).Some? && EntryOf(OpAt(s, other)).Some?
    ensures EntryOf(OpAt(s, id)) != EntryOf(OpAt(s, other))
  {
    assert StartOf(OpAt(s, id)) != StartOf(OpAt(s, other));
  }

  lemma {:induction false} EntriesAfter(s: Agent, s': Agent, id: nat, a: Action)
    requires StartsInv(s) && EntriesInv(s) && SameElsewhere(s, s', id) && RunStep(s, s', id, a)
    ensures EntriesInv(s')
  {
    forall other ensures OwnEntry(s', other) {
      assert OwnEntry(s, other) && OwnEntry(s, id);
      if other != id {
        assert OpAt(s', other) == OpAt(s, other);
        if a.UpdateRun? && EntryOf(OpAt(s, other)).Some? {
          EntriesApart(s, id, other);
        }
      }
    }
    forall i | 0 <= i < |s'.log| && s'.log[i].status == RUNNING ensures Owned(s', i) {
      assert OwnEntry(s, id);
      if i < |s.log| {
        assert s.log[i].status == RUNNING;
        var other :| EntryOf(OpAt(s, other)) == Some(i);
        assert other != id ==> OpAt(s', other) == OpAt(s, other);
        assert EntryOf(OpAt(s', other)) == Some(i);
      } else {
        assert EntryOf(OpAt(s', id)) == Some(i);
      }
    }
  }

  lemma {:induction false} HistoryAfter(s: Agent, s': Agent, id: nat, a: Action)
    requires StartsInv(s) && EntriesInv(s) && HistoryInv(s) && RunStep(s, s', id, a)
    ensures HistoryInv(s')
  {
    if a.RecordRun? {
      RecordLast(s.log, s'.log[|s.log|]);
    } else if a.UpdateRun? {
      assert OwnEntry(s, id);
      var run := OpAt(s, id).value.run;
      UpdateLastIsOwn(s.log, run.at, run.end, run.status);
    }
  }

  // ---------------------------------------------------------------- all interleavings

  ghost predicate Inv(s: Agent) {
    FlagInv(s) && ReleaseInv(s) && ConnInv(s) && StartsInv(s) && EntriesInv(s) && HistoryInv(s)
  }

  lemma {:induction false} InitInv()
    ensures Inv(INIT)
  {}

  lemma {:induction false} StepInv(s: Agent, a: Action)
    requires Inv(s) && Enabled(s, a)
    ensures Inv(Do(s, a))
  {
    StepElsewhere(s, a);
    if a.CronClear? {
      CronExcludesCompare(s, a.id);
    }
    StepFlags(s, a);
    StepRunShape(s, a);
    var s', id := Do(s, a), Acting(s, a);
    FlagsAfter(s, s', id, EffectOf(s, a));
    ReleasesAfter(s, s', id, EffectOf(s, a));
    ConnsAfter(s, a);
    StartsAfter(s, s', id, a);
    EntriesAfter(s, s', id, a);
    HistoryAfter(s, s', id, a);
  }

  /** The agent after a sequence of actions, if each could be taken. */
  ghost function Run(s: Agent, actions: seq<Action>): Option<Agent>
    decreases |actions|
  {
    if actions == [] then Some(s)
    else if Enabled(s, actions[0]) then Run(Do(s, actions[0]), actions[1..])
    else None
  }

  lemma {:induction false} RunInv(s: Agent, actions: seq<Action>)
    requires Inv(s) && Run(s, actions).Some?
    ensures Inv(Run(s, actions).value)
    decreases |actions|
  {
    if actions != [] {
      StepInv(s, actions[0]);
      RunInv(Do(s, actions[0]), actions[1..]);
    }
  }

  ghost predicate Reachable(s: Agent) {
    exists actions :: Run(INIT, actions) == Some(s)
  }

  lemma {:induction false} ReachableInv(s: Agent)
    requires Reachable(s)
    ensures Inv(s)
  {
    var actions :| Run(INIT, actions) == Some(s);
    InitInv();
    RunInv(INIT, actions);
  }

  // ---------------------------------------------------------------- what holds in every reachable state

  /** Mutual exclusion: at most one operation is in flight, and the flags tell which kind. */
  lemma {:induction false} OneOperation(s: Agent)
    requires Reachable(s)
    ensures forall id, id' :: HoldsFlag(s, id) && HoldsFlag(s, id') ==> id == id'
    ensures s.scanRunning <==> exists id :: HoldsFlag(s, id) && IsScan(s.ops[id])
    ensures s.compareRunning <==> exists id :: HoldsFlag(s, id) && !IsScan(s.ops[id])
    ensures !(s.scanRunning && s.compareRunning)
  {
    ReachableInv(s);
  }

  /** Every operation that set a flag clears it exactly once: it has done so unless it is in flight. */
  lemma {:induction false} ReleasedOnce(s: Agent, id: nat)
    requires Reachable(s)
    ensures s.released[id] <= s.acquired[id] <= 1
    ensures id in s.acquired ==> (s.released[id] == 0 <==> HoldsFlag(s, id))
    ensures HoldsFlag(s, id) ==> id in s.acquired
  {
    ReachableInv(s);
  }

  /**
   * Sentinels sent are non-blank commands received, less the background operations still in
   * flight, less the one command the read loop may be in the middle of.
   */
  lemma {:induction false} SentinelCount(s: Agent, c: nat)
    requires Reachable(s) && c in s.conns
    ensures s.conns[c].loop.Reading? ==> s.conns[c].sentinels == s.conns[c].received - |Owed(s, c)|
    ensures !s.conns[c].loop.Reading? ==> s.conns[c].sentinels == s.conns[c].received - |Owed(s, c)| - 1
  {
    ReachableInv(s);
  }

  /**
   * The flag is cleared before the last sentinel: a connection waiting for a command has had all its answers
   * exactly when none of its background operations is left, in whatever stage.
   */
  lemma {:induction false} AllAnswered(s: Agent, c: nat)
    requires Reachable(s) && c in s.conns && s.conns[c].loop.Reading?
    ensures s.conns[c].sentinels == s.conns[c].received
       <==> forall id :: id in s.ops && s.ops[id].Background? ==> s.ops[id].conn != Some(c)
  {
    ReachableInv(s);
    assert CountOk(s, c);
    forall id | id in s.ops && s.ops[id].Background? && s.ops[id].conn == Some(c) ensures id in Owed(s, c) {
      assert ConnOf(s, id);
    }
    assert |Owed(s, c)| == 0 <==> Owed(s, c) == {};
  }

  /** The history is the end of the ideal log, and only runs in flight are shown as running. */
  lemma {:induction false} HistoryIsLog(s: Agent)
    requires Reachable(s)
    ensures s.history == LastN(s.log, MAX_HISTORY)
    ensures (forall id :: id in s.ops ==> !s.ops[id].CronRun?) ==>
      forall i :: 0 <= i < |s.history| ==> s.history[i].status != RUNNING
  {
    ReachableInv(s);
    var gone := |s.log| - |s.history|;
    forall i | 0 <= i < |s.history| && s.history[i].status == RUNNING
      ensures exists id :: id in s.ops && s.ops[id].CronRun?
    {
      assert s.history[i] == s.log[gone + i];
      assert Owned(s, gone + i);
      var id :| EntryOf(OpAt(s, id)) == Some(gone + i);
      assert id in s.ops;
    }
  }

  // ---------------------------------------------------------------- what the history shows as running

  /** An entry of the log is running exactly while a cron run has still to update it. */
  lemma {:induction false} RunningIsOwned(s: Agent, i: nat)
    requires Reachable(s) && i < |s.log|
    ensures s.log[i].status == RUNNING <==> exists id :: EntryOf(OpAt(s, id)) == Some(i)
  {
    ReachableInv(s);
    assert s.log[i].status == RUNNING ==> Owned(s, i);
    if id :| EntryOf(OpAt(s, id)) == Some(i) {
      assert OwnEntry(s, id);
    }
  }

  /** A cron run that has still to update an entry that the history shows. */
  predicate InWindow(s: Agent, id: nat) {
    EntryOf(OpAt(s, id)).Some? && EntryOf(OpAt(s, id)).value + |s.history| >= |s.log|
  }

  predicate HasYielded(s: Agent, id: nat) {
    id in s.ops && s.ops[id].CronRun? && s.ops[id].run.Yielded?
  }

  ghost function WindowRuns(s: Agent): set<nat> {
    set id | id in s.ops && InWindow(s, id)
  }

  /** The places of the history that show a run as running. */
  ghost function RunningPlaces(history: seq<JobRun>): set<nat> {
    set i: nat | i < |history| && history[i].status == RUNNING
  }

  /** The place in the history of the entry of a run. */
  ghost function PlaceOf(s: Agent, id: nat): nat
    requires InWindow(s, id)
  {
    EntryOf(OpAt(s, id)).value + |s.history| - |s.log|
  }

  lemma {:induction false} PlaceRuns(s: Agent, id: nat)
    requires Inv(s) && InWindow(s, id)
    ensures PlaceOf(s, id) in RunningPlaces(s.history)
  {
    assert OwnEntry(s, id);
    assert s.history[PlaceOf(s, id)] == s.log[EntryOf(OpAt(s, id)).value];
  }

  lemma {:induction false} PlaceOwned(s: Agent, i: nat) returns (id: nat)
    requires Inv(s) && i in RunningPlaces(s.history)
    ensures id in s.ops && InWindow(s, id) && PlaceOf(s, id) == i
  {
    var at := i + |s.log| - |s.history|;
    assert s.history[i] == s.log[at];
    assert Owned(s, at);
    id :| EntryOf(OpAt(s, id)) == Some(at);
  }

  /**
   * The history shows as many running entries as there are runs whose entry is still in the window and not
   * updated, and all of these runs but one have given up the flag already.
   */
  lemma {:induction false} RunningEntries(s: Agent)
    requires Reachable(s)
    ensures |RunningPlaces(s.history)| == |WindowRuns(s)|
    ensures forall id, id' :: id in WindowRuns(s) && id' in WindowRuns(s) && id != id' ==>
      HasYielded(s, id) || HasYielded(s, id')
  {
    hide Inv, Reachable, InWindow, PlaceOf;
    ReachableInv(s);
    var runs, places := WindowRuns(s), RunningPlaces(s.history);
    forall id | id in runs ensures PlaceOf(s, id) in places {
      PlaceRuns(s, id);
    }
    forall id, id' | id in runs && id' in runs && PlaceOf(s, id) == PlaceOf(s, id') ensures id == id' {
      SamePlace(s, id, id');
    }
    forall i | i in places ensures exists id :: id in runs && PlaceOf(s, id) == i {
      var id := PlaceOwned(s, i);
      assert id in runs;
    }
    ImageSize(runs, places, id requires InWindow(s, id) => PlaceOf(s, id));
    forall id, id' | id in runs && id' in runs && id != id' ensures HasYielded(s, id) || HasYielded(s, id') {
      OneHolds(s, id, id');
    }
  }

  lemma {:induction false} SamePlace(s: Agent, id: nat, id': nat)
    requires Inv(s) && InWindow(s, id) && InWindow(s, id') && PlaceOf(s, id) == PlaceOf(s, id')
    ensures id == id'
  {
    if id != id' {
      assert OwnEntry(s, id) && OwnEntry(s, id');
      EntriesApart(s, id, id');
    }
  }

  lemma {:induction false} OneHolds(s: Agent, id: nat, id': nat)
    requires Inv(s) && InWindow(s, id) && InWindow(s, id') && id != id'
    ensures HasYielded(s, id) || HasYielded(s, id')
  {
    assert !HasYielded(s, id) ==> HoldsFlag(s, id);
    assert !HasYielded(s, id') ==> HoldsFlag(s, id');
  }

  /**
   * The history shows more than one running entry exactly when a run that has given up the flag has not updated
   * its entry in the window, and another run has not updated its entry there either.
   */
  lemma {:induction false} SeveralRunning(s: Agent)
    requires Reachable(s)
    ensures (exists i, j ::
        0 <= i < j < |s.history| && s.history[i].status == RUNNING && s.history[j].status == RUNNING)
       <==> (exists id, id' :: id != id' && InWindow(s, id) && InWindow(s, id') && HasYielded(s, id))
  {
    hide Inv, Reachable, InWindow, PlaceOf, HasYielded;
    ReachableInv(s);
    if i, j :| 0 <= i < j < |s.history| && s.history[i].status == RUNNING && s.history[j].status == RUNNING {
      var id := PlaceOwned(s, i);
      var id' := PlaceOwned(s, j);
      OneHolds(s, id, id');
    }
    if id, id' :| id != id' && InWindow(s, id) && InWindow(s, id') && HasYielded(s, id) {
      PlaceRuns(s, id);
      PlaceRuns(s, id');
      var i, j := PlaceOf(s, id), PlaceOf(s, id');
      if i == j {
        SamePlace(s, id, id');
      }
    }
  }

  /** The agent once a job has cleared its flag and not yet updated its history entry. */
  ghost function FirstYielded(first: string): Agent {
    var e1 := JobRun(first, 1, 0, RUNNING);
    Agent(false, false, map[0 := CronRun(first, Yielded(1, 0, 2, "complete"))], 1,
          multiset{0}, multiset{0}, map[], 2, [e1], [e1])
  }

  /** It happens: a job clears its flag before it updates its entry, and the next job may be running by then. */
  lemma {:induction false} TwoRunning(first: string, second: string) returns (s: Agent)
    ensures Reachable(s)
    ensures s.history == [JobRun(first, 1, 0, RUNNING), JobRun(second, 3, 0, RUNNING)]
  {
    var later := [CronFire(second), TakeTime(1, ""), RecordRun(1)];
    var actions := FirstJob(first, later);
    s := SecondJob(first, second, later);
  }

  lemma {:induction false} SecondJob(first: string, second: string, later: seq<Action>) returns (s: Agent)
    requires later == [CronFire(second), TakeTime(1, ""), RecordRun(1)]
    ensures Run(FirstYielded(first), later) == Some(s)
    ensures s.history == [JobRun(first, 1, 0, RUNNING), JobRun(second, 3, 0, RUNNING)]
  {
    var e1, e2 := JobRun(first, 1, 0, RUNNING), JobRun(second, 3, 0, RUNNING);
    var mid := FirstYielded(first);
    var s1 := Do(mid, CronFire(second));
    assert s1.ops[1] == CronRun(second, Claimed) && s1.clock == 2;
    var s2 := Do(s1, TakeTime(1, ""));
    assert s2.ops[1] == CronRun(second, Timed(3)) && s2.history == [e1];
    s := Do(s2, RecordRun(1));
    assert s.history == [e1] + [e2];
    RunSteps(mid, CronFire(second), [TakeTime(1, ""), RecordRun(1)]);
    RunSteps(s1, TakeTime(1, ""), [RecordRun(1)]);
    RunSteps(s2, RecordRun(1), []);
  }

  lemma {:induction false} FirstJob(first: string, later: seq<Action>) returns (actions: seq<Action>)
    ensures Run(INIT, actions) == Run(FirstYielded(first), later)
  {
    hide FirstRecorded, FirstYielded, Run, Do, Enabled;
    var end := [TakeTime(0, "complete")] + ([CronClear(0)] + later);
    FirstStarts(first, end);
    FirstEnds(first, later);
    actions := [CronFire(first)] + ([TakeTime(0, "")] + ([RecordRun(0)] + end));
  }

  ghost function FirstRecorded(first: string): Agent {
    var e1 := JobRun(first, 1, 0, RUNNING);
    Agent(true, false, map[0 := CronRun(first, Recorded(1, 0))], 1, multiset{0}, multiset{}, map[], 1, [e1], [e1])
  }

  lemma {:induction false} FirstStarts(first: string, later: seq<Action>)
    ensures Run(INIT, [CronFire(first)] + ([TakeTime(0, "")] + ([RecordRun(0)] + later)))
      == Run(FirstRecorded(first), later)
  {
    var e1 := JobRun(first, 1, 0, RUNNING);
    var s1 := Agent(true, false, map[0 := CronRun(first, Claimed)], 1, multiset{0}, multiset{}, map[], 0, [], []);
    var s2 := s1.(ops := map[0 := CronRun(first, Timed(1))], clock := 1);
    var rest := [RecordRun(0)] + later;
    assert Do(INIT, CronFire(first)) == s1;
    RunSteps(INIT, CronFire(first), [TakeTime(0, "")] + rest);
    assert Do(s1, TakeTime(0, "")) == s2;
    RunSteps(s1, TakeTime(0, ""), rest);
    assert [] + [e1] == [e1];
    assert Do(s2, RecordRun(0)) == FirstRecorded(first);
    RunSteps(s2, RecordRun(0), later);
  }

  lemma {:induction false} FirstEnds(first: string, later: seq<Action>)
    ensures Run(FirstRecorded(first), [TakeTime(0, "complete")] + ([CronClear(0)] + later))
      == Run(FirstYielded(first), later)
  {
    var s3 := FirstRecorded(first);
    var s4 := s3.(ops := map[0 := CronRun(first, Finished(1, 0, 2, "complete"))], clock := 2);
    assert Do(s3, TakeTime(0, "complete")) == s4;
    RunSteps(s3, TakeTime(0, "complete"), [CronClear(0)] + later);
    assert Do(s4, CronClear(0)) == FirstYielded(first);
    RunSteps(s4, CronClear(0), later);
  }

  lemma {:induction false} RunSteps(s: Agent, a: Action, rest: seq<Action>)
    requires Enabled(s, a)
    ensures Run(s, [a] + rest) == Run(Do(s, a), rest)
  {
    assert ([a] + rest)[1..] == rest;
  }

  // ---------------------------------------------------------------- no operation is stuck

  /** The step an operation takes next; `status` is how a scan of a job ends. */
  function NextStep(op: Op, id: nat, status: string): Action {
    match op
    case Background(_, _, Starting) => Spawn(id)
    case Background(_, _, Working) => End(id)
    case Background(_, _, Ended) => Clear(id)
    case Background(_, _, Cleared) => Notify(id)
    case CronRun(_, Timed(_)) => RecordRun(id)
    case CronRun(_, RefusedReady(_, _)) => RecordRun(id)
    case CronRun(_, Finished(_, _, _, _)) => CronClear(id)
    case CronRun(_, Yielded(_, _, _, _)) => UpdateRun(id)
    case CronRun(_, _) => TakeTime(id, status)
  }

  function StepsLeft(op: Op): nat {
    match op
    case Background(_, _, Starting) => 4
    case Background(_, _, Working) => 3
    case Background(_, _, Ended) => 2
    case Background(_, _, Cleared) => 1
    case CronRun(_, Claimed) => 6
    case CronRun(_, Timed(_)) => 5
    case CronRun(_, Recorded(_, _)) => 4
    case CronRun(_, Finished(_, _, _, _)) => 3
    case CronRun(_, Yielded(_, _, _, _)) => 2
    case CronRun(_, Refused) => 4
    case CronRun(_, RefusedTimed(_)) => 3
    case CronRun(_, RefusedReady(_, _)) => 2
  }

  lemma {:induction false} StepsTaken(s: Agent, id: nat, status: string)
    requires id in s.ops && OwnEntry(s, id) && FinalStatus(status)
    ensures var a := NextStep(s.ops[id], id, status);
      Enabled(s, a) && (id in Do(s, a).ops ==> StepsLeft(Do(s, a).ops[id]) < StepsLeft(s.ops[id]))
  {
    hide Do, Enabled, NextStep, StepsLeft, OwnEntry, FinalStatus;
    if s.ops[id].Background? {
      BackgroundSteps(s, id, status);
    } else {
      CronSteps(s, id, status);
    }
  }

  lemma {:induction false} BackgroundSteps(s: Agent, id: nat, status: string)
    requires id in s.ops && s.ops[id].Background?
    ensures var a := NextStep(s.ops[id], id, status);
      Enabled(s, a) && (id in Do(s, a).ops ==> StepsLeft(Do(s, a).ops[id]) < StepsLeft(s.ops[id]))
  {
    hide Record, UpdateLast;
    match s.ops[id].stage {
      case Starting => assert NextStep(s.ops[id], id, status) == Spawn(id);
      case Working => assert NextStep(s.ops[id], id, status) == End(id);
      case Ended => assert NextStep(s.ops[id], id, status) == Clear(id);
      case Cleared => assert NextStep(s.ops[id], id, status) == Notify(id);
    }
  }

  lemma {:induction false} CronSteps(s: Agent, id: nat, status: string)
    requires id in s.ops && s.ops[id].CronRun? && OwnEntry(s, id) && FinalStatus(status)
    ensures var a := NextStep(s.ops[id], id, status);
      Enabled(s, a) && (id in Do(s, a).ops ==> StepsLeft(Do(s, a).ops[id]) < StepsLeft(s.ops[id]))
  {
    hide Do, Enabled, StepsLeft, OwnEntry, FinalStatus, NextStep;
    if NextStep(s.ops[id], id, status).TakeTime? {
      ClockSteps(s, id, status);
    } else {
      EntrySteps(s, id, status);
    }
  }

  lemma {:induction false} ClockSteps(s: Agent, id: nat, status: string)
    requires id in s.ops && s.ops[id].CronRun? && FinalStatus(status) && NextStep(s.ops[id], id, status).TakeTime?
    ensures var a := NextStep(s.ops[id], id, status);
      Enabled(s, a) && (id in Do(s, a).ops ==> StepsLeft(Do(s, a).ops[id]) < StepsLeft(s.ops[id]))
  {
    hide FinalStatus;
  }

  lemma {:induction false} EntrySteps(s: Agent, id: nat, status: string)
    requires id in s.ops && s.ops[id].CronRun? && OwnEntry(s, id) && !NextStep(s.ops[id], id, status).TakeTime?
    ensures var a := NextStep(s.ops[id], id, status);
      Enabled(s, a) && (id in Do(s, a).ops ==> StepsLeft(Do(s, a).ops[id]) < StepsLeft(s.ops[id]))
  {
    hide Record, UpdateLast;
  }

  /**
   * In every reachable state every operation can end by steps of its own, six at most, whatever the others do not
   * do, and however its scan ends; then it holds no flag.
   */
  lemma {:induction false} EndsAlone(s: Agent, id: nat, status: string) returns (actions: seq<Action>)
    requires Inv(s) && id in s.ops && FinalStatus(status)
    ensures Run(s, actions).Some? && |actions| <= 6
    ensures id !in Run(s, actions).value.ops && !HoldsFlag(Run(s, actions).value, id)
    ensures forall a :: a in actions ==>
      a in [Spawn(id), End(id), Clear(id), Notify(id), TakeTime(id, status), RecordRun(id), CronClear(id),
            UpdateRun(id)]
  {
    SixAtMost(s.ops[id]);
    actions := EndsWithin(s, id, status);
  }

  lemma {:induction false} SixAtMost(op: Op)
    ensures StepsLeft(op) <= 6
  {}

  lemma {:induction false} EndsWithin(s: Agent, id: nat, status: string) returns (actions: seq<Action>)
    requires Inv(s) && id in s.ops && FinalStatus(status)
    ensures Run(s, actions).Some? && |actions| <= StepsLeft(s.ops[id]) && id !in Run(s, actions).value.ops
    ensures forall a :: a in actions ==>
      a in [Spawn(id), End(id), Clear(id), Notify(id), TakeTime(id, status), RecordRun(id), CronClear(id),
            UpdateRun(id)]
    decreases StepsLeft(s.ops[id])
  {
    hide Inv, Do, Enabled, OwnEntry, FinalStatus;
    InvEntry(s, id);
    StepsTaken(s, id, status);
    var a := NextStep(s.ops[id], id, status);
    StepInv(s, a);
    var rest := [];
    if id in Do(s, a).ops {
      rest := EndsWithin(Do(s, a), id, status);
    }
    actions := [a] + rest;
    RunSteps(s, a, rest);
  }

  lemma {:induction false} InvEntry(s: Agent, id: nat)
    requires Inv(s)
    ensures OwnEntry(s, id)
  {}
}
