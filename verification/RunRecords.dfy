/** What the history says of a firing of a job, told from the actions of the run alone. */
module RunRecords {
  import opened Text
  import opened Scheduler
  import opened Operations

  // ---------------------------------------------------------------- reading a run off its actions

  predicate Begins(a: Action) {
    a.Launch? || a.WebScan? || a.CronFire?
  }

  /** How many operations have begun; each has the number of those before it. */
  function Begun(actions: seq<Action>): nat {
    if actions == [] then 0
    else Begun(actions[..|actions| - 1]) + if Begins(actions[|actions| - 1]) then 1 else 0
  }

  /** How often the clock has been read; each reading is later than those before it. */
  function Readings(actions: seq<Action>): nat {
    if actions == [] then 0
    else Readings(actions[..|actions| - 1]) + if actions[|actions| - 1].TakeTime? then 1 else 0
  }

  /** How many entries have been recorded. */
  function Records(actions: seq<Action>): nat {
    if actions == [] then 0
    else Records(actions[..|actions| - 1]) + if actions[|actions| - 1].RecordRun? then 1 else 0
  }

  /** The job whose firing has a number. */
  function Name(actions: seq<Action>, id: nat): Option<string> {
    if actions == [] then None
    else
      var init, a := actions[..|actions| - 1], actions[|actions| - 1];
      if a.CronFire? && Begun(init) == id then Some(a.name) else Name(init, id)
  }

  datatype ClockTime = ClockTime(time: nat, status: string)

  /** When a firing has read the clock, and how its scan had ended by then. */
  function Times(actions: seq<Action>, id: nat): seq<ClockTime> {
    if actions == [] then []
    else
      var init, a := actions[..|actions| - 1], actions[|actions| - 1];
      Times(init, id)
      + if a.TakeTime? && a.id == id then [ClockTime(Readings(init) + 1, a.status)] else []
  }

  /** The place of the entry a firing has recorded, among all entries. */
  function Place(actions: seq<Action>, id: nat): Option<nat> {
    if actions == [] then None
    else
      var init, a := actions[..|actions| - 1], actions[|actions| - 1];
      if a == RecordRun(id) then Some(Records(init)) else Place(init, id)
  }

  /** Both flags were clear when the job fired. */
  ghost predicate Accepted(actions: seq<Action>, id: nat) {
    if actions == [] then false
    else
      var init, a := actions[..|actions| - 1], actions[|actions| - 1];
      if a.CronFire? && Begun(init) == id then Run(INIT, init).Some? && Free(Run(INIT, init).value)
      else Accepted(init, id)
  }

  lemma {:induction false} RunSnoc(s: Agent, actions: seq<Action>, a: Action)
    ensures Run(s, actions + [a])
         == match Run(s, actions) { case Some(t) => if Enabled(t, a) then Some(Do(t, a)) else None case None => None }
    decreases |actions|
  {
    hide Do, Enabled;
    if actions == [] {
      assert actions + [a] == [a] && [a][1..] == [];
    } else {
      assert (actions + [a])[1..] == actions[1..] + [a];
      if Enabled(s, actions[0]) {
        RunSnoc(Do(s, actions[0]), actions[1..], a);
      }
    }
  }

  // ---------------------------------------------------------------- what a state keeps of the actions

  ghost predicate FinalEntry(actions: seq<Action>, s: Agent, id: nat, p: nat) {
    && p < |s.log| && Name(actions, id).Some? && |Times(actions, id)| == 2
    && (Accepted(actions, id) <==> UpdateRun(id) in actions)
    && s.log[p] == JobRun(
         Name(actions, id).value, Times(actions, id)[0].time, Times(actions, id)[1].time,
         if UpdateRun(id) in actions then Times(actions, id)[1].status else "skipped")
  }

  /** A firing under way: how far it is, and the entry it has recorded. */
  ghost predicate UnderWay(actions: seq<Action>, s: Agent, id: nat, name: string, run: RunStage) {
    var times := Times(actions, id);
    && Name(actions, id) == Some(name) && UpdateRun(id) !in actions
    && match run
       case Claimed => Accepted(actions, id) && times == [] && Place(actions, id) == None
       case Timed(start) =>
         Accepted(actions, id) && |times| == 1 && times[0].time == start && Place(actions, id) == None
       case Recorded(start, at) =>
         && Accepted(actions, id) && |times| == 1 && times[0].time == start && Place(actions, id) == Some(at)
         && at < |s.log| && s.log[at] == JobRun(name, start, 0, RUNNING)
       case Finished(start, at, end, status) =>
         && Accepted(actions, id) && |times| == 2 && times[0].time == start && times[1] == ClockTime(end, status)
         && Place(actions, id) == Some(at) && at < |s.log| && s.log[at] == JobRun(name, start, 0, RUNNING)
       case Yielded(start, at, end, status) =>
         && Accepted(actions, id) && |times| == 2 && times[0].time == start && times[1] == ClockTime(end, status)
         && Place(actions, id) == Some(at) && at < |s.log| && s.log[at] == JobRun(name, start, 0, RUNNING)
       case Refused => !Accepted(actions, id) && times == [] && Place(actions, id) == None
       case RefusedTimed(start) =>
         !Accepted(actions, id) && |times| == 1 && times[0].time == start && Place(actions, id) == None
       case RefusedReady(start, end) =>
         && !Accepted(actions, id) && |times| == 2 && times[0].time == start && times[1].time == end
         && Place(actions, id) == None
  }

  ghost predicate Traced(actions: seq<Action>, s: Agent, id: nat) {
    match OpAt(s, id)
    case Some(CronRun(name, run)) => UnderWay(actions, s, id, name, run)
    case Some(Background(_, _, _)) => Untouched(actions, id)
    case None =>
      && (id >= s.nextId ==> Untouched(actions, id))
      && (Place(actions, id).Some? ==> FinalEntry(actions, s, id, Place(actions, id).value))
      && (UpdateRun(id) in actions ==> Place(actions, id).Some?)
  }

  predicate Untouched(actions: seq<Action>, id: nat) {
    Times(actions, id) == [] && Place(actions, id) == None && UpdateRun(id) !in actions && Name(actions, id) == None
  }

  ghost predicate TracedAll(actions: seq<Action>, s: Agent) {
    && s.nextId == Begun(actions) && s.clock == Readings(actions) && |s.log| == Records(actions)
    && (forall id :: Traced(actions, s, id))
    && (forall id :: Place(actions, id).Some? ==> Place(actions, id).value < |s.log|)
    && (forall id, other :: Place(actions, id).Some? && Place(actions, id) == Place(actions, other) ==> id == other)
    && (forall p :: 0 <= p < |s.log| ==> Taken(actions, p))
  }

  /** A firing has recorded the entry at a place. */
  ghost predicate Taken(actions: seq<Action>, p: nat) {
    exists id :: Place(actions, id) == Some(p)
  }

  /** One more action, as the functions above see it. */
  lemma {:induction false} OneMore(actions: seq<Action>, a: Action, id: nat)
    ensures var more := actions + [a];
      && Begun(more) == Begun(actions) + (if Begins(a) then 1 else 0)
      && Readings(more) == Readings(actions) + (if a.TakeTime? then 1 else 0)
      && Records(more) == Records(actions) + (if a.RecordRun? then 1 else 0)
      && Name(more, id) == (if a.CronFire? && Begun(actions) == id then Some(a.name) else Name(actions, id))
      && Times(more, id) == (if a.TakeTime? && a.id == id then
           Times(actions, id) + [ClockTime(Readings(actions) + 1, a.status)] else Times(actions, id))
      && Place(more, id) == (if a == RecordRun(id) then Some(Records(actions)) else Place(actions, id))
      && Accepted(more, id) == (if a.CronFire? && Begun(actions) == id then
           Run(INIT, actions).Some? && Free(Run(INIT, actions).value) else Accepted(actions, id))
      && (UpdateRun(id) in more <==> UpdateRun(id) in actions || a == UpdateRun(id))
  {
    assert (actions + [a])[..|actions|] == actions;
    assert Times(actions, id) + [] == Times(actions, id);
  }

  /** The operation a step belongs to. */
  lemma {:induction false} OwnStep(actions: seq<Action>, s: Agent, a: Action)
    requires Run(INIT, actions) == Some(s) && Enabled(s, a) && IdsInv(s)
    requires Traced(actions, s, Acting(s, a)) && s.nextId == Begun(actions) && s.clock == Readings(actions)
    requires |s.log| == Records(actions)
    ensures Traced(actions + [a], Do(s, a), Acting(s, a))
  {
    hide Run, Begun, Readings, Records, Name, Times, Place, Accepted;
    OneMore(actions, a, Acting(s, a));
    assert s.nextId !in s.ops;
    if a.UpdateRun? || a.RecordRun? {
      OwnRecord(actions, s, a);
    } else if a.TakeTime? {
      OwnTime(actions, s, a);
    }
  }

  lemma {:induction false} OwnTime(actions: seq<Action>, s: Agent, a: Action)
    requires Run(INIT, actions) == Some(s) && Enabled(s, a) && a.TakeTime?
    requires Traced(actions, s, a.id) && s.clock == Readings(actions)
    ensures Traced(actions + [a], Do(s, a), a.id)
  {
    hide Run, Begun, Readings, Records, Name, Times, Place, Accepted;
    OneMore(actions, a, a.id);
  }

  lemma {:induction false} OwnRecord(actions: seq<Action>, s: Agent, a: Action)
    requires Run(INIT, actions) == Some(s) && Enabled(s, a) && (a.UpdateRun? || a.RecordRun?)
    requires Traced(actions, s, a.id) && |s.log| == Records(actions) && IdsInv(s)
    ensures Traced(actions + [a], Do(s, a), a.id)
  {
    hide Run, Begun, Readings, Records, Name, Times, Place, Accepted, Record, UpdateLast;
    OneMore(actions, a, a.id);
  }

  /** Every other operation. */
  lemma {:induction false} OtherStep(actions: seq<Action>, s: Agent, a: Action, id: nat)
    requires Enabled(s, a) && IdsInv(s) && id != Acting(s, a)
    requires Traced(actions, s, id) && s.nextId == Begun(actions)
    requires Place(actions, id).Some? ==> Place(actions, id).value < |s.log|
    requires a.UpdateRun? && Place(actions, id).Some? ==> s.ops[a.id].run.at != Place(actions, id).value
    ensures Traced(actions + [a], Do(s, a), id)
  {
    hide Run, Begun, Readings, Records, Name, Times, Place, Accepted, Record, UpdateLast;
    StepElsewhere(s, a);
    OneMore(actions, a, id);
    LogElsewhere(s, a, id, if Place(actions, id).Some? then Place(actions, id).value else |s.log|);
    assert OpAt(Do(s, a), id) == OpAt(s, id);
  }

  lemma {:induction false} LogElsewhere(s: Agent, a: Action, id: nat, p: nat)
    requires Enabled(s, a) && (a.UpdateRun? ==> s.ops[a.id].run.at != p)
    ensures p < |s.log| ==> p < |Do(s, a).log| && Do(s, a).log[p] == s.log[p]
    ensures s.nextId <= Do(s, a).nextId && (id == s.nextId && Begins(a) ==> id == Acting(s, a))
  {
    hide Record, UpdateLast;
  }

  lemma {:induction false} TracedNext(actions: seq<Action>, s: Agent, a: Action)
    requires Run(INIT, actions) == Some(s) && Enabled(s, a) && IdsInv(s) && TracedAll(actions, s)
    ensures TracedAll(actions + [a], Do(s, a))
  {
    hide Run, Begun, Readings, Records, Name, Times, Place, Accepted, Traced, Do, Enabled;
    var more, s' := actions + [a], Do(s, a);
    CountersNext(s, a);
    UpdatesOwn(actions, s, a);
    OneMore(actions, a, 0);
    forall id ensures Traced(more, s', id) {
      if id == Acting(s, a) {
        OwnStep(actions, s, a);
      } else {
        OtherStep(actions, s, a, id);
      }
    }
    PlacesNext(actions, a, |s.log|);
  }

  lemma {:induction false} UpdatesOwn(actions: seq<Action>, s: Agent, a: Action)
    requires Enabled(s, a) && (forall id :: Traced(actions, s, id))
    ensures a.UpdateRun? ==> Place(actions, a.id) == Some(s.ops[a.id].run.at)
    ensures a.RecordRun? ==> Place(actions, a.id).None?
  {
    hide Begun, Readings, Records, Name, Times, Place, Accepted;
    if a.UpdateRun? || a.RecordRun? {
      assert Traced(actions, s, a.id);
    }
  }

  lemma {:induction false} CountersNext(s: Agent, a: Action)
    requires Enabled(s, a)
    ensures var s' := Do(s, a);
      && s'.nextId == s.nextId + (if Begins(a) then 1 else 0)
      && s'.clock == s.clock + (if a.TakeTime? then 1 else 0)
      && |s'.log| == |s.log| + (if a.RecordRun? then 1 else 0)
  {
    hide Record, UpdateLast;
  }

  lemma {:induction false} PlacesNext(actions: seq<Action>, a: Action, n: nat)
    requires n == Records(actions)
    requires forall id :: Place(actions, id).Some? ==> Place(actions, id).value < n
    requires forall id, other :: Place(actions, id).Some? && Place(actions, id) == Place(actions, other) ==> id == other
    requires forall p :: 0 <= p < n ==> Taken(actions, p)
    requires a.RecordRun? ==> Place(actions, a.id).None?
    ensures var more, n' := actions + [a], n + if a.RecordRun? then 1 else 0;
      && (forall id :: Place(more, id).Some? ==> Place(more, id).value < n')
      && (forall id, other :: Place(more, id).Some? && Place(more, id) == Place(more, other) ==> id == other)
      && (forall p :: 0 <= p < n' ==> Taken(more, p))
  {
    hide Place, Records;
    forall id ensures Place(actions + [a], id) == if a == RecordRun(id) then Some(n) else Place(actions, id) {
      OneMore(actions, a, id);
    }
    forall p | 0 <= p < n + (if a.RecordRun? then 1 else 0)
      ensures Taken(actions + [a], p)
    {
      if p < n {
        assert Taken(actions, p);
        var id :| Place(actions, id) == Some(p);
        assert Place(actions + [a], id) == Some(p);
      } else {
        assert Place(actions + [a], a.id) == Some(p);
      }
    }
  }

  lemma {:induction false} RunTraced(actions: seq<Action>, s: Agent)
    requires Run(INIT, actions) == Some(s)
    ensures TracedAll(actions, s)
  {
    hide Do, Enabled, TracedAll, IdsInv;
    if actions == [] {
      NothingTraced();
    } else {
      var init, a := actions[..|actions| - 1], actions[|actions| - 1];
      assert actions == init + [a];
      RunSnoc(INIT, init, a);
      var t := Run(INIT, init).value;
      RunTraced(init, t);
      HasIds(init, t);
      TracedNext(init, t, a);
    }
  }

  lemma {:induction false} NothingTraced()
    ensures TracedAll([], INIT)
  {}

  lemma {:induction false} HasIds(actions: seq<Action>, s: Agent)
    requires Run(INIT, actions) == Some(s)
    ensures IdsInv(s)
  {
    assert Reachable(s);
    ReachableInv(s);
  }

  // ---------------------------------------------------------------- from the actions to the history

  lemma {:induction false} RecordedPlace(actions: seq<Action>, id: nat)
    ensures Place(actions, id).Some? <==> RecordRun(id) in actions
  {
    if actions != [] {
      var init := actions[..|actions| - 1];
      RecordedPlace(init, id);
      assert actions == init + [actions[|actions| - 1]];
    }
  }

  /** A firing keeps its name, and whether it was accepted, from the moment it happened. */
  lemma {:induction false} FiringKnown(actions: seq<Action>, f: nat)
    requires f < |actions| && actions[f].CronFire?
    ensures Begun(actions[..f]) < Begun(actions)
    ensures Name(actions, Begun(actions[..f])) == Some(actions[f].name)
    ensures Accepted(actions, Begun(actions[..f]))
       <==> Run(INIT, actions[..f]).Some? && Free(Run(INIT, actions[..f]).value)
  {
    hide Run;
    var init := actions[..|actions| - 1];
    if f < |init| {
      FiringKnown(init, f);
      assert init[..f] == actions[..f];
    } else {
      assert actions[..f] == init;
    }
  }

  /** The history shows the entry at a place, if it is among the last. */
  ghost predicate Shows(s: Agent, p: nat, entry: JobRun) {
    && p < |s.log| && s.log[p] == entry
    && (p + 100 >= |s.log| ==>
          p + |s.history| >= |s.log| && s.history[p + |s.history| - |s.log|] == entry)
  }

  lemma {:induction false} ShowsEntry(actions: seq<Action>, s: Agent, p: nat)
    requires Run(INIT, actions) == Some(s) && p < |s.log|
    ensures Shows(s, p, s.log[p])
  {
    hide Run;
    assert Reachable(s);
    HistoryIsLog(s);
  }

  /** Every firing that has recorded has one entry of its own, and there are no other entries. */
  lemma {:induction false} OneEntryEach(actions: seq<Action>, s: Agent)
    requires Run(INIT, actions) == Some(s)
    ensures |s.log| == Records(actions)
    ensures forall id :: RecordRun(id) in actions ==> Place(actions, id).Some? && Place(actions, id).value < |s.log|
    ensures forall id, other :: id != other && RecordRun(id) in actions && RecordRun(other) in actions ==>
      Place(actions, id) != Place(actions, other)
    ensures forall p :: 0 <= p < |s.log| ==> Taken(actions, p)
  {
    hide Run, Records, Place;
    RunTraced(actions, s);
    forall id ensures Place(actions, id).Some? <==> RecordRun(id) in actions {
      RecordedPlace(actions, id);
    }
  }

  /**
   * A firing that has updated its entry: the entry has the job's name, the two times at which the firing read the
   * clock, and the status its scan ended with; while it is among the last hundred, the history shows it.
   */
  lemma {:induction false} FinishedRun(actions: seq<Action>, s: Agent, id: nat)
    requires Run(INIT, actions) == Some(s) && UpdateRun(id) in actions
    ensures Name(actions, id).Some? && |Times(actions, id)| == 2 && Place(actions, id).Some?
    ensures var times := Times(actions, id);
      Shows(s, Place(actions, id).value,
        JobRun(Name(actions, id).value, times[0].time, times[1].time, times[1].status))
  {
    hide Run, Name, Times, Place, Accepted, Shows;
    RunTraced(actions, s);
    assert Traced(actions, s, id);
    ShowsEntry(actions, s, Place(actions, id).value);
  }

  /**
   * A firing while a flag was set: once it has recorded, its entry has the job's name, its two readings of the
   * clock, and "skipped", and it never updates it.
   */
  lemma {:induction false} SkippedRun(actions: seq<Action>, s: Agent, f: nat, t: Agent)
    requires Run(INIT, actions) == Some(s) && f < |actions| && actions[f].CronFire?
    requires Run(INIT, actions[..f]) == Some(t) && (t.scanRunning || t.compareRunning)
    ensures var id := Begun(actions[..f]);
      && UpdateRun(id) !in actions
      && (RecordRun(id) in actions ==>
            && |Times(actions, id)| == 2 && Place(actions, id).Some?
            && Shows(s, Place(actions, id).value,
                 JobRun(actions[f].name, Times(actions, id)[0].time, Times(actions, id)[1].time, "skipped")))
  {
    hide Run, Begun, Name, Times, Place, Accepted, Shows;
    var id := Begun(actions[..f]);
    FiringKnown(actions, f);
    RecordedPlace(actions, id);
    RunTraced(actions, s);
    assert Traced(actions, s, id);
    if RecordRun(id) in actions {
      ShowsEntry(actions, s, Place(actions, id).value);
    }
  }

  /**
   * A firing with both flags clear: from its recording to its update its entry has the job's name and its first
   * reading of the clock, no end, and is running.
   */
  lemma {:induction false} RunningRun(actions: seq<Action>, s: Agent, f: nat, t: Agent)
    requires Run(INIT, actions) == Some(s) && f < |actions| && actions[f].CronFire?
    requires Run(INIT, actions[..f]) == Some(t) && !t.scanRunning && !t.compareRunning
    ensures var id := Begun(actions[..f]);
      RecordRun(id) in actions && UpdateRun(id) !in actions ==>
        && |Times(actions, id)| >= 1 && Place(actions, id).Some?
        && Shows(s, Place(actions, id).value, JobRun(actions[f].name, Times(actions, id)[0].time, 0, "running"))
  {
    hide Run, Begun, Name, Times, Place, Accepted, Shows;
    var id := Begun(actions[..f]);
    FiringKnown(actions, f);
    RecordedPlace(actions, id);
    RunTraced(actions, s);
    assert Traced(actions, s, id);
    if RecordRun(id) in actions && UpdateRun(id) !in actions {
      ShowsEntry(actions, s, Place(actions, id).value);
    }
  }

  /** The readings of the clock are those of the actions that take the time for the firing, in their order. */
  lemma {:induction false} TimesAre(actions: seq<Action>, id: nat, status: string, i: nat)
    requires i < |actions| && actions[i] == TakeTime(id, status)
    ensures ClockTime(Readings(actions[..i + 1]), status) in Times(actions, id)
    ensures Readings(actions[..i]) < Readings(actions[..i + 1])
  {
    var init := actions[..|actions| - 1];
    assert actions[..i + 1][..i] == actions[..i];
    if i < |init| {
      TimesAre(init, id, status, i);
      assert init[..i + 1] == actions[..i + 1] && init[..i] == actions[..i];
    } else {
      assert actions[..i + 1] == actions && actions[..i] == init;
    }
  }

  // ---------------------------------------------------------------- connections

  /** How many commands a connection has sent; blank lines are none. */
  function Commands(actions: seq<Action>, c: nat): nat {
    if actions == [] then 0
    else
      Commands(actions[..|actions| - 1], c) + if actions[|actions| - 1] == Receive(c, false) then 1 else 0
  }

  lemma {:induction false} CommandsCounted(actions: seq<Action>, s: Agent, c: nat)
    requires Run(INIT, actions) == Some(s)
    ensures if c in s.conns then s.conns[c].received == Commands(actions, c) else Commands(actions, c) == 0
  {
    hide Do, Enabled;
    if actions != [] {
      var init, a := actions[..|actions| - 1], actions[|actions| - 1];
      assert actions == init + [a];
      RunSnoc(INIT, init, a);
      CommandsCounted(init, Run(INIT, init).value, c);
      ReceivedNext(Run(INIT, init).value, a, c);
    }
  }

  lemma {:induction false} ReceivedNext(s: Agent, a: Action, c: nat)
    requires Enabled(s, a)
    ensures c in s.conns ==> c in Do(s, a).conns
    ensures c in s.conns ==> Do(s, a).conns[c].received == s.conns[c].received + if a == Receive(c, false) then 1 else 0
    ensures c !in s.conns && c in Do(s, a).conns ==> Do(s, a).conns[c].received == 0
    ensures c !in s.conns ==> a != Receive(c, false)
  {
    hide Record, UpdateLast;
  }

  /** A connection that waits for a command, and has no operation left, has had a sentinel for each command it sent. */
  lemma {:induction false} OneSentinelEach(actions: seq<Action>, s: Agent, c: nat)
    requires Run(INIT, actions) == Some(s) && c in s.conns && s.conns[c].loop.Reading?
    requires forall id :: id in s.ops && s.ops[id].Background? ==> s.ops[id].conn != Some(c)
    ensures s.conns[c].sentinels == Commands(actions, c)
  {
    hide Run, Commands;
    CommandsCounted(actions, s, c);
    assert Reachable(s);
    AllAnswered(s, c);
  }
}
