/** One connection: the command loop of the agent and its background operations. */
module Protocol {
  import opened Text
  import opened Scheduler
  import opened Replies
  import opened Reports
  import Users
  import UserTexts
  import CompareTexts
  import Tables
  import Operations

  const DONE := "---DONE---"

  // ---------------------------------------------------------------- the two ends of a connection

  /** What goes over a connection: texts, and the sentinel that ends the answer to a command. */
  datatype Piece = Say(text: string) | Sentinel

  function Says(texts: seq<string>): (pieces: seq<Piece>)
    ensures |pieces| == |texts| && forall i :: 0 <= i < |texts| ==> pieces[i] == Say(texts[i])
  {
    seq(|texts|, i requires 0 <= i < |texts| => Say(texts[i]))
  }

  function Bytes(p: Piece): string {
    match p
    case Say(text) => text
    case Sentinel => DONE + "\n"
  }

  /** The bytes a client receives. */
  function Wire(pieces: seq<Piece>): string {
    if pieces == [] then "" else Wire(pieces[..|pieces| - 1]) + Bytes(pieces[|pieces| - 1])
  }

  function Sentinels(pieces: seq<Piece>): nat {
    multiset(pieces)[Sentinel]
  }

  class ClientConn {
    var out: seq<Piece>

    constructor ()
      ensures out == []
    {
      out := [];
    }

    method Write(s: string)
      modifies this
      ensures out == old(out) + [Say(s)]
    {
      out := out + [Say(s)];
    }

    method Done()
      modifies this
      ensures out == old(out) + [Sentinel]
    {
      out := out + [Sentinel];
    }
  }

  /** The pair of flags every long operation of the agent competes for. */
  class AgentState {
    var scanRunning: bool
    var compareRunning: bool

    constructor ()
      ensures Now() == Flags(false, false)
    {
      scanRunning, compareRunning := false, false;
    }

    function Now(): Flags
      reads this
    {
      Flags(scanRunning, compareRunning)
    }

    /** The critical section that "scan" and "compare" enter. */
    method TryStart(scan: bool) returns (started: bool)
      modifies this
      ensures started == !Busy(old(Now()))
      ensures Now() == if started then Flags(scan, !scan) else old(Now())
    {
      if scanRunning || compareRunning {
        return false;
      }
      if scan {
        scanRunning := true;
      } else {
        compareRunning := true;
      }
      started := true;
    }

    method Release(scan: bool)
      modifies this
      ensures Now() == if scan then old(Now()).(scan := false) else old(Now()).(compare := false)
    {
      if scan {
        scanRunning := false;
      } else {
        compareRunning := false;
      }
    }
  }

  // ---------------------------------------------------------------- the command loop

  /** What the read loop writes for a command. */
  function Writes(o: Outcome): seq<Piece> {
    match o
    case Inline(texts) => Says(texts) + [Sentinel]
    case Started(scan) => [Say(Opening(scan))]
  }

  function FlagsAfter(f: Flags, o: Outcome): Flags {
    if o.Inline? then f else Flags(o.scan, !o.scan)
  }

  function BoardOf(sched: AgentScheduler?): Option<Board>
    reads sched
  {
    if sched == null then None else Some(Board(sched.jobs, sched.history, sched.valid))
  }

  /** What the agent keeps, as a value. */
  function WorldOf(dir: ReportDir, file: Users.UsersFile, sched: AgentScheduler?): World
    reads dir, file, sched
  {
    World(dir.files, Users.Load(file.content), BoardOf(sched))
  }

  method WriteAll(cc: ClientConn, texts: seq<string>)
    modifies cc
    ensures cc.out == old(cc.out) + Says(texts)
  {
    for i := 0 to |texts|
      invariant cc.out == old(cc.out) + Says(texts[..i])
    {
      cc.Write(texts[i]);
      assert Says(texts[..i + 1]) == Says(texts[..i]) + [Say(texts[i])];
    }
    assert texts[..|texts|] == texts;
  }

  method Answer(cc: ClientConn, texts: seq<string>)
    modifies cc
    ensures cc.out == old(cc.out) + Writes(Inline(texts))
  {
    WriteAll(cc, texts);
    cc.Done();
  }

  /** A report that can be read, as it is stored but always ending in a newline, or one line that says why not. */
  method ListReportDataString(w: Wording, files: map<string, string>, id: string) returns (out: string)
    ensures Terminated(out)
    ensures Reports.ValidReportID(id) && id in files && Terminated(files[id]) ==> out == files[id]
    ensures Reports.ValidReportID(id) && id in files && !Terminated(files[id]) ==> out == files[id] + "\n"
    ensures Reports.ValidReportID(id) && id !in files ==> out == ErrorLine(w.openError(id))
    ensures !Reports.ValidReportID(id) ==> out == ErrorLine("invalid report ID")
  {
    if !Reports.ValidReportID(id) {
      return ErrorLine("invalid report ID");
    }
    if id !in files {
      return ErrorLine(w.openError(id));
    }
    out := files[id];
    if out != "" && out[|out| - 1] != '\n' {
      out := out + "\n";
    }
  }

  lemma {:induction false} DataReplied(w: Wording, files: map<string, string>, id: string)
    ensures Reports.ValidReportID(id) && id in files && Terminated(files[id]) ==> DataText(w, files, id) == files[id]
    ensures Reports.ValidReportID(id) && id in files && !Terminated(files[id]) ==>
      DataText(w, files, id) == files[id] + "\n"
    ensures Reports.ValidReportID(id) && id !in files ==> DataText(w, files, id) == ErrorLine(w.openError(id))
    ensures !Reports.ValidReportID(id) ==> DataText(w, files, id) == ErrorLine("invalid report ID")
  {}

  method AddToSchedule(env: Env, sched: AgentScheduler, payload: string) returns (text: string)
    modifies sched`jobs, sched`file
    ensures text == AddText(env.w, old(BoardOf(sched)).value, payload)
    ensures sched.jobs == (match JobFields(payload)
      case Some(j) =>
        if RefuseAdd(old(sched.jobs), j, sched.valid).None? then old(sched.jobs) + [j] else old(sched.jobs)
      case None => old(sched.jobs))
    ensures sched.jobs != old(sched.jobs) ==> sched.file == Some(ScheduleFile(sched.jobs))
  {
    hide JobFields, ScheduleFile, ErrorLine, AddErrorText, UniqueNames;
    var parsed := JobFields(payload);
    if parsed.None? {
      return ErrorLine("usage: schedule add name|cronExpr|command");
    }
    var j := parsed.value;
    var error := sched.AddJob(j);
    if error.Some? {
      return ErrorLine(AddErrorText(env.w, j, error.value));
    }
    text := "Job " + j.name + " scheduled (" + j.schedule + " \U{2192} " + j.command + ")\n";
  }

  method RemoveFromSchedule(env: Env, sched: AgentScheduler, name: string) returns (text: string)
    modifies sched`jobs, sched`file
    ensures text == RemoveText(env.w, old(BoardOf(sched)).value, name)
    ensures sched.jobs == WithoutJob(old(sched.jobs), name)
    ensures sched.jobs != old(sched.jobs) ==> sched.file == Some(ScheduleFile(sched.jobs))
  {
    hide ScheduleFile, ErrorLine, UniqueNames, HasJob;
    ghost var before := sched.jobs;
    var ok := sched.RemoveJob(name);
    if !ok {
      NotThere(before, name);
      return ErrorLine("job " + env.w.quote(name) + " not found");
    }
    text := "Job " + name + " removed\n";
  }

  lemma {:induction false} NotThere(jobs: seq<SchedJob>, name: string)
    requires !HasJob(jobs, name)
    ensures WithoutJob(jobs, name) == jobs
  {
    NoJobOut(jobs, name);
  }

  /** "schedule ...": the answer, and the jobs afterwards. */
  method HandleScheduleCmd(cc: ClientConn, parts: seq<string>, sched: AgentScheduler?, env: Env)
    requires parts != []
    modifies cc, sched
    ensures cc.out == old(cc.out) + Writes(Inline(ScheduleTexts(env, old(BoardOf(sched)), parts)))
    ensures sched == null || BoardOf(sched) == Some(BoardAfter(old(BoardOf(sched)).value, parts))
    ensures sched == null || sched.jobs == old(sched.jobs) || sched.file == Some(ScheduleFile(sched.jobs))
  {
    hide Writes, ErrorLine, AddText, RemoveText, AddUsage, ScheduleUsage, RemoveUsage, UnknownSub, SubVerbOf;
    hide JobFields, RefuseAdd, WithoutJob, ScheduleFile, Join, Tables.ScheduleTable, Tables.HistoryTable;
    if sched == null {
      Answer(cc, [ErrorLine("scheduler not running")]);
      return;
    }
    if |parts| < 2 {
      Answer(cc, ScheduleUsage());
      return;
    }
    match SubVerbOf(parts[1]) {
      case ListJobs =>
        var table := Tables.ListJobs(sched.jobs, env.next);
        Answer(cc, [table]);
      case History =>
        var table := Tables.ListHistory(sched.history, env.format);
        Answer(cc, [table]);
      case Add =>
        if |parts| < 3 {
          Answer(cc, AddUsage());
        } else {
          var text := AddToSchedule(env, sched, Join(parts[2..], ' '));
          Answer(cc, [text]);
        }
      case Remove =>
        if |parts| < 3 {
          Answer(cc, RemoveUsage());
        } else {
          var text := RemoveFromSchedule(env, sched, parts[2]);
          Answer(cc, [text]);
        }
      case OtherSub =>
        Answer(cc, UnknownSub(parts[1]));
    }
  }

  /** "scan" and "compare" once their arguments are there: refuse, or set the flag and announce the operation. */
  method StartOperation(agent: AgentState, cc: ClientConn, scan: bool) returns (o: Outcome)
    modifies agent, cc
    ensures o == if Busy(old(agent.Now())) then Inline([BUSY]) else Started(scan)
    ensures cc.out == old(cc.out) + Writes(o)
    ensures agent.Now() == FlagsAfter(old(agent.Now()), o)
  {
    var started := agent.TryStart(scan);
    if !started {
      o := Inline([BUSY]);
      Answer(cc, o.texts);
    } else {
      o := Started(scan);
      cc.Write(Opening(scan));
    }
  }

  /**
   * The commands that start nothing and keep users and jobs: what is answered. "quickcompare" saves a comparison
   * in the report directory.
   */
  method InlineText(
      agent: AgentState, dir: ReportDir, sched: AgentScheduler?, users: Users.UserMap,
      parts: seq<string>, user: string, role: string, env: Env)
    returns (texts: seq<string>)
    requires parts != [] && Allowed(parts, role)
    requires !VerbOf(parts[0]).Scan? && !VerbOf(parts[0]).Compare? && !VerbOf(parts[0]).Schedule?
      && !VerbOf(parts[0]).User?
    modifies dir
    ensures Outcomes(env, World(old(dir.files), users, BoardOf(sched)), parts, user, role, agent.Now(), Inline(texts))
    ensures parts[0] != "quickcompare" ==> dir.files == old(dir.files)
  {
    hide Denied, ErrorLine, DataText, UnknownTexts, ScheduleTexts, MetricsText, StatusText, UserText, JobsText;
    hide CompareTexts.IsQuickAnswer, WhoamiText, Allowed, Users.CommandRole, CompareTexts.ListText;
    assert VerbOf("quickcompare") == QuickCompare;
    ghost var world := World(dir.files, users, BoardOf(sched));
    match VerbOf(parts[0]) {
      case List =>
        var text := CompareTexts.ListReports(env.w, env.entries);
        texts := [text];
      case Data =>
        if |parts| < 2 {
          texts := [ErrorLine("usage: " + parts[0] + " <REPORT_ID>")];
        } else {
          var text := ListReportDataString(env.w, dir.files, parts[1]);
          DataReplied(env.w, dir.files, parts[1]);
          texts := [text];
        }
      case QuickCompare =>
        var text := CompareTexts.QuickCompareString(dir, env.entries, env.reportDir, env.reportName, env.time,
          env.settings, env.w);
        texts := [text];
      case Status =>
        texts := [StatusText(agent.Now())];
      case MetricsVerb =>
        texts := [MetricsText(env, World(dir.files, users, BoardOf(sched)), agent.Now())];
      case Whoami =>
        texts := [WhoamiText(user, role)];
      case Jobs =>
        texts := [JobsText(env, BoardOf(sched), agent.Now())];
      case Other =>
        texts := UnknownTexts(parts[0]);
    }
  }

  /** "scan" and "compare", allowed. */
  method StartCommand(
      agent: AgentState, cc: ClientConn, parts: seq<string>, user: string, role: string, env: Env, ghost world: World)
    returns (o: Outcome)
    requires parts != [] && Allowed(parts, role) && (VerbOf(parts[0]).Scan? || VerbOf(parts[0]).Compare?)
    modifies agent, cc
    ensures cc.out == old(cc.out) + Writes(o)
    ensures agent.Now() == FlagsAfter(old(agent.Now()), o)
    ensures Outcomes(env, world, parts, user, role, old(agent.Now()), o)
  {
    hide Writes, Says, Allowed, VerbOf, Denied, Users.CommandRole;
    if VerbOf(parts[0]).Scan? {
      o := StartOperation(agent, cc, true);
    } else if |parts| < 3 {
      o := Inline([COMPARE_USAGE]);
      Answer(cc, o.texts);
    } else {
      o := StartOperation(agent, cc, false);
    }
  }

  /** One pass of the read loop. */
  method HandleCommand(
      agent: AgentState, cc: ClientConn, dir: ReportDir, file: Users.UsersFile, sched: AgentScheduler?,
      parts: seq<string>, user: string, role: string, env: Env)
    returns (o: Outcome)
    requires parts != [] && Users.HashLike(env.generated)
    modifies agent, cc, dir, file, sched
    ensures cc.out == old(cc.out) + Writes(o)
    ensures agent.Now() == FlagsAfter(old(agent.Now()), o)
    ensures Users.Load(file.content) == UsersOf(env, old(WorldOf(dir, file, sched)), parts, user, role)
    ensures BoardOf(sched) == JobsOf(old(WorldOf(dir, file, sched)), parts, role)
    ensures sched == null || sched.jobs == old(sched.jobs) || sched.file == Some(ScheduleFile(sched.jobs))
    ensures parts[0] != "quickcompare" ==> dir.files == old(dir.files)
    ensures Outcomes(env, old(WorldOf(dir, file, sched)), parts, user, role, old(agent.Now()), o)
  {
    hide Outcomes, VerbOf, UsersOf, JobsOf, Denied, ScheduleTexts, Writes, Says, BoardAfter, ScheduleFile, Allowed;
    hide Users.CommandRole, Users.RoleAllows, Users.AfterAs, UserTexts.UserText;
    ghost var world := WorldOf(dir, file, sched);
    ghost var f := agent.Now();
    Others(env, world, parts, user, role);
    if !Users.RoleAllows(role, Users.CommandRole(parts)) {
      NotAllowed(env, world, parts, user, role, f);
      o := Inline([Denied(parts[0], Users.CommandRole(parts), role)]);
      Answer(cc, o.texts);
      return;
    }
    IsAllowed(parts, role);
    match VerbOf(parts[0]) {
      case Scan =>
        o := StartCommand(agent, cc, parts, user, role, env, world);
      case Compare =>
        o := StartCommand(agent, cc, parts, user, role, env, world);
      case Schedule =>
        OwnOutcomes(env, world, parts, user, role, f);
        o := Inline(ScheduleTexts(env, BoardOf(sched), parts));
        HandleScheduleCmd(cc, parts, sched, env);
      case User =>
        OwnOutcomes(env, world, parts, user, role, f);
        var text := UserTexts.UserCommandString(env.w, env.usersPath, file, parts[1..], user, role, env.generated);
        o := Inline([text]);
        Answer(cc, o.texts);
      case _ =>
        var texts := InlineText(agent, dir, sched, Users.Load(file.content), parts, user, role, env);
        o := Inline(texts);
        Answer(cc, texts);
    }
  }

  /** What "schedule" and "user" answer, allowed. */
  lemma {:induction false} OwnOutcomes(
      env: Env, world: World, parts: seq<string>, user: string, role: string, f: Flags)
    requires parts != [] && Allowed(parts, role)
    ensures VerbOf(parts[0]).Schedule? ==>
      Outcomes(env, world, parts, user, role, f, Inline(ScheduleTexts(env, world.board, parts)))
    ensures VerbOf(parts[0]).User? ==>
      Outcomes(env, world, parts, user, role, f, Inline([
        UserTexts.UserText(env.w, env.usersPath, world.users, parts[1..], user, role, env.generated)]))
  {
    hide Allowed, VerbOf, ScheduleTexts, Denied, Users.CommandRole, UserTexts.UserText;
  }

  lemma {:induction false} IsAllowed(parts: seq<string>, role: string)
    requires Users.RoleAllows(role, Users.CommandRole(parts))
    ensures Allowed(parts, role)
  {}

  lemma {:induction false} NotAllowed(
      env: Env, world: World, parts: seq<string>, user: string, role: string, f: Flags)
    requires parts != [] && !Users.RoleAllows(role, Users.CommandRole(parts))
    ensures !Allowed(parts, role)
    ensures Outcomes(env, world, parts, user, role, f, Inline([Denied(parts[0], Users.CommandRole(parts), role)]))
  {
    hide VerbOf, Denied, Users.CommandRole, Users.RoleAllows;
  }

  /** Only its own commands change users and jobs. */
  lemma {:induction false} Others(env: Env, world: World, parts: seq<string>, user: string, role: string)
    requires parts != []
    ensures UsersOf(env, world, parts, user, role)
         == if Allowed(parts, role) && VerbOf(parts[0]).User? then
              Users.AfterAs(world.users, parts[1..], user, role, env.generated)
            else world.users
    ensures JobsOf(world, parts, role)
         == if world.board.Some? && Allowed(parts, role) && VerbOf(parts[0]).Schedule? then
              Some(BoardAfter(world.board.value, parts))
            else world.board
  {}

  /** The goroutine of a background operation: its flag is cleared before its sentinel is sent, however it ends. */
  method RunInBackground(agent: AgentState, cc: ClientConn, e: Ending)
    modifies agent, cc
    ensures cc.out == old(cc.out) + Writes(Inline(LateTexts(e)))
    ensures e.ScanComplete? || e.ScanFailed? || e.ScanPanicked? ==> agent.Now() == old(agent.Now()).(scan := false)
    ensures e.CompareComplete? || e.ComparePanicked? ==> agent.Now() == old(agent.Now()).(compare := false)
  {
    WriteAll(cc, LateTexts(e));
    agent.Release(EndsScan(e));
    cc.Done();
  }

  /** The goroutine of "compare": what it prints is an answer for the two reports of the command. */
  method CompareInBackground(
      agent: AgentState, cc: ClientConn, dir: ReportDir, parts: seq<string>, time: string, env: Env)
    returns (text: string)
    requires |parts| >= 3
    modifies agent, cc, dir
    ensures EndOf(env, old(dir.files), parts, CompareComplete(text))
    ensures cc.out == old(cc.out) + Writes(Inline(LateTexts(CompareComplete(text))))
    ensures agent.Now() == old(agent.Now()).(compare := false)
  {
    hide CompareTexts.IsAnswer, CompareTexts.Compared, CompareTexts.IsCompareText, Stat;
    text := CompareTexts.CompareReportsString(dir, parts[1], parts[2], time, env.settings, env.w);
    RunInBackground(agent, cc, CompareComplete(text));
  }

    // ---------------------------------------------------------------- laws of the command loop

  /** Each command is one action of the agent's state machine: one sentinel if answered, none if started. */
  lemma {:induction false} CommandIsAction(
      s: Operations.Agent, c: nat, parts: seq<string>, user: string, role: string, env: Env, world: World, o: Outcome)
    requires parts != [] && c in s.conns && s.conns[c].loop.Processing?
    requires Outcomes(env, world, parts, user, role, Flags(s.scanRunning, s.compareRunning), o)
    ensures
      var a := if o.Inline? then Operations.Answer(c) else Operations.Launch(c, o.scan);
      && Operations.Enabled(s, a)
      && var s' := Operations.Do(s, a);
         && Flags(s'.scanRunning, s'.compareRunning) == FlagsAfter(Flags(s.scanRunning, s.compareRunning), o)
         && c in s'.conns && s'.conns[c].sentinels == s.conns[c].sentinels + Sentinels(Writes(o))
  {
    hide Outcomes;
    StartsExactly(env, world, parts, user, role, Flags(s.scanRunning, s.compareRunning), o);
    if o.Inline? {
      OneSentinel(o.texts);
    }
  }

  /** The end of a background operation is three actions of the state machine, with one sentinel, however it ends. */
  lemma {:induction false} EndingIsActions(s: Operations.Agent, id: nat, c: nat, e: Ending)
    requires Operations.IsBackground(s, id, Operations.Working)
    requires s.ops[id].conn == Some(c) && s.ops[id].scan == EndsScan(e) && c in s.conns
    ensures
      var f := Flags(s.scanRunning, s.compareRunning);
      var after := Operations.Run(s, [Operations.End(id), Operations.Clear(id), Operations.Notify(id)]);
      && after.Some?
      && Flags(after.value.scanRunning, after.value.compareRunning)
         == (if EndsScan(e) then f.(scan := false) else f.(compare := false))
      && c in after.value.conns
      && after.value.conns[c].sentinels == s.conns[c].sentinels + Sentinels(Writes(Inline(LateTexts(e))))
  {
    hide LateTexts, Writes, Says, Sentinels;
    WritesOneSentinel(LateTexts(e));
    var s1 := Operations.Do(s, Operations.End(id));
    var s2 := Operations.Do(s1, Operations.Clear(id));
    Operations.RunSteps(s, Operations.End(id), [Operations.Clear(id), Operations.Notify(id)]);
    Operations.RunSteps(s1, Operations.Clear(id), [Operations.Notify(id)]);
    Operations.RunSteps(s2, Operations.Notify(id), []);
  }

  lemma {:induction false} WritesOneSentinel(texts: seq<string>)
    ensures Sentinels(Writes(Inline(texts))) == 1
  {
    OneSentinel(texts);
  }

  lemma {:induction false} OneSentinel(texts: seq<string>)
    ensures Sentinels(Says(texts) + [Sentinel]) == 1
  {
    assert Sentinel !in Says(texts);
  }

  /** "status" tells the truth: idle, or the kind of the one operation in flight. */
  lemma {:induction false} StatusTells(
      s: Operations.Agent, user: string, role: string, env: Env, world: World, o: Outcome)
    requires Operations.Reachable(s) && Users.ValidRole(role)
    requires Outcomes(env, world, ["status"], user, role, Flags(s.scanRunning, s.compareRunning), o)
    ensures o == Inline(["idle\n"]) <==> forall id :: !Operations.HoldsFlag(s, id)
    ensures o == Inline(["scan running\n"])
      <==> exists id :: Operations.HoldsFlag(s, id) && Operations.IsScan(s.ops[id])
    ensures o == Inline(["compare running\n"])
      <==> exists id :: Operations.HoldsFlag(s, id) && !Operations.IsScan(s.ops[id])
  {
    hide *;
    StatusPerformed(user, role, env, world, Flags(s.scanRunning, s.compareRunning), o);
    Operations.OneOperation(s);
  }

  lemma {:induction false} StatusPerformed(
      user: string, role: string, env: Env, world: World, f: Flags, o: Outcome)
    requires Users.ValidRole(role) && Outcomes(env, world, ["status"], user, role, f, o)
    ensures o == Inline([if f.scan then "scan running\n" else if f.compare then "compare running\n" else "idle\n"])
  {
    hide Outcomes;
    assert VerbOf("status") == Status && Users.CommandRole(["status"]) == Users.RO;
    StatusAnswer(env, world, ["status"], user, role, f, o);
  }
}
