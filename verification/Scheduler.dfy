/** The scheduler: its job list, the schedule file, and the bounded run history. */
module Scheduler {
  import opened Text

  const MAX_HISTORY: nat := 100
  const RUNNING := "running"

  /** A run in the history; the end time is 0 (Go's zero time) until the run has finished. */
  datatype JobRun = JobRun(name: string, start: nat, end: nat, status: string)

  datatype SchedJob = SchedJob(name: string, schedule: string, command: string)

  // ---------------------------------------------------------------- history, as functions

  function LastN<T>(s: seq<T>, n: nat): seq<T> {
    if |s| <= n then s else s[|s| - n..]
  }

  function Record(history: seq<JobRun>, run: JobRun): seq<JobRun> {
    LastN(history + [run], MAX_HISTORY)
  }

  predicate IsRun(r: JobRun, name: string, start: nat) {
    r.name == name && r.start == start && r.status == RUNNING
  }

  /** The most recent entry that `updateLastRun` looks for among the first `n`. */
  function FindRun(history: seq<JobRun>, n: nat, name: string, start: nat): (r: Option<nat>)
    requires n <= |history|
    ensures r.Some? ==> r.value < n && IsRun(history[r.value], name, start)
    ensures forall i :: 0 <= i < n && IsRun(history[i], name, start) ==> r.Some? && i <= r.value
  {
    if n == 0 then None
    else if IsRun(history[n - 1], name, start) then Some(n - 1)
    else FindRun(history, n - 1, name, start)
  }

  function UpdateLast(history: seq<JobRun>, name: string, start: nat, end: nat, status: string): seq<JobRun> {
    match FindRun(history, |history|, name, start)
    case None => history
    case Some(i) => history[i := JobRun(name, start, end, status)]
  }

  /** Recording in the bounded history is recording in the unbounded log. */
  lemma {:induction false} RecordLast(log: seq<JobRun>, run: JobRun)
    ensures Record(LastN(log, MAX_HISTORY), run) == LastN(log + [run], MAX_HISTORY)
  {}

  /**
   * Updating the bounded history is updating one entry of the log, even where that entry has left
   * the history, if no other entry has the same start time.
   */
  lemma {:induction false} UpdateLastIsOwn(log: seq<JobRun>, at: nat, end: nat, status: string)
    requires at < |log| && log[at].status == RUNNING
    requires forall i :: 0 <= i < |log| && i != at ==> log[i].start != log[at].start
    ensures UpdateLast(LastN(log, MAX_HISTORY), log[at].name, log[at].start, end, status)
         == LastN(log[at := log[at].(end := end, status := status)], MAX_HISTORY)
  {
    var history := LastN(log, MAX_HISTORY);
    var gone := |log| - |history|;
    assert forall i :: 0 <= i < |history| ==> history[i] == log[gone + i];
    var found := FindRun(history, |history|, log[at].name, log[at].start);
    if at >= gone {
      assert IsRun(history[at - gone], log[at].name, log[at].start);
    }
  }

  // ---------------------------------------------------------------- the schedule file

  function JobLine(j: SchedJob): string {
    j.name + "|" + (j.schedule + "|" + j.command)
  }

  function FileHead(): seq<string> {
    ["# ship-grip-fim schedule configuration",
     "# format: name|cronExpression|command",
     "# Examples:",
     "#   daily_scan|@daily|scan",
     "#   nightly|0 2 * * *|scan",
     ""]
  }

  function JobLines(jobs: seq<SchedJob>): seq<string> {
    seq(|jobs|, i requires 0 <= i < |jobs| => JobLine(jobs[i]))
  }

  function ScheduleFile(jobs: seq<SchedJob>): string {
    Unlines(FileHead() + JobLines(jobs))
  }

  predicate IsComment(line: string) {
    line == "" || line[0] == '#'
  }

  /** strings.SplitN(s, "|", 3), which must have three parts, each of them trimmed. */
  function JobFields(s: string): Option<SchedJob> {
    match Cut(s, '|')
    case None => None
    case Some((name, rest)) =>
      match Cut(rest, '|')
      case None => None
      case Some((schedule, command)) => Some(SchedJob(TrimSpace(name), TrimSpace(schedule), TrimSpace(command)))
  }

  /** One line of the schedule file; cron decides which schedules are valid. */
  function ParseJob(line: string, valid: string -> bool): Option<SchedJob> {
    var trimmed := TrimSpace(line);
    if IsComment(trimmed) then None
    else
      match JobFields(trimmed)
      case None => None
      case Some(j) => if valid(j.schedule) then Some(j) else None
  }

  function LoadJobs(lines: seq<string>, valid: string -> bool): seq<SchedJob> {
    if lines == [] then []
    else LoadJobs(lines[..|lines| - 1], valid) + Found(ParseJob(lines[|lines| - 1], valid))
  }

  lemma {:induction false} LoadNext(lines: seq<string>, i: nat, valid: string -> bool)
    requires i < |lines|
    ensures LoadJobs(lines[..i + 1], valid) == LoadJobs(lines[..i], valid) + Found(ParseJob(lines[i], valid))
  {
    assert lines[..i + 1][..i] == lines[..i];
  }

  function Found(r: Option<SchedJob>): seq<SchedJob> {
    match r
    case Some(j) => [j]
    case None => []
  }

  /** The agent's scheduler; `file` is the schedule file, None before the first save. */
  class AgentScheduler {
    var jobs: seq<SchedJob>
    var history: seq<JobRun>
    var file: Option<string>
    const valid: string -> bool

    constructor (valid: string -> bool, file: Option<string>)
      ensures this.valid == valid && this.file == file && jobs == [] && history == []
    {
      this.valid, this.file, jobs, history := valid, file, [], [];
    }

    /** loadFromFile: comments and malformed lines are skipped, and so are jobs cron refuses. */
    method LoadFromFile()
      modifies this`jobs
      ensures jobs == old(jobs) + if file.Some? then LoadJobs(ScanLines(file.value), valid) else []
    {
      hide ParseJob, ScanLines;
      if file.None? {
        return;
      }
      var lines := ScanLines(file.value);
      for i := 0 to |lines|
        invariant jobs == old(jobs) + LoadJobs(lines[..i], valid)
      {
        LoadNext(lines, i, valid);
        var parsed := ParseJob(lines[i], valid);
        if parsed.Some? {
          jobs := jobs + [parsed.value];
        }
      }
      assert lines[..|lines|] == lines;
    }

    method Save()
      modifies this`file
      ensures file == Some(ScheduleFile(jobs))
    {
      var w := Unlines(FileHead());
      assert FileHead() + JobLines(jobs[..0]) == FileHead();
      for i := 0 to |jobs|
        invariant w == Unlines(FileHead() + JobLines(jobs[..i]))
      {
        assert FileHead() + JobLines(jobs[..i + 1]) == (FileHead() + JobLines(jobs[..i])) + [JobLine(jobs[i])];
        UnlinesSnoc(FileHead() + JobLines(jobs[..i]), JobLine(jobs[i]));
        w := w + JobLine(jobs[i]) + "\n";
      }
      assert jobs[..|jobs|] == jobs;
      file := Some(w);
    }

    /** AddJob: refused for another command, a name already in use, or a schedule cron cannot read. */
    method AddJob(j: SchedJob) returns (error: Option<AddError>)
      modifies this`jobs, this`file
      ensures error == RefuseAdd(old(jobs), j, valid)
      ensures error.None? <==> j.command == "scan" && valid(j.schedule) && !HasJob(old(jobs), j.name)
      ensures error.None? ==> jobs == old(jobs) + [j] && file == Some(ScheduleFile(jobs))
      ensures error.Some? ==> jobs == old(jobs) && file == old(file)
      ensures UniqueNames(old(jobs)) ==> UniqueNames(jobs)
    {
      if j.command != "scan" {
        return Some(Unsupported);
      }
      for i := 0 to |jobs|
        invariant forall k :: 0 <= k < i ==> jobs[k].name != j.name
      {
        if jobs[i].name == j.name {
          return Some(Duplicate);
        }
      }
      if !valid(j.schedule) {
        return Some(BadSchedule);
      }
      jobs := jobs + [j];
      Save();
      error := None;
    }

    /** RemoveJob takes out the first job of that name. */
    method RemoveJob(name: string) returns (ok: bool)
      modifies this`jobs, this`file
      ensures ok <==> HasJob(old(jobs), name)
      ensures jobs == WithoutJob(old(jobs), name)
      ensures file == if ok then Some(ScheduleFile(jobs)) else old(file)
      ensures UniqueNames(old(jobs)) ==> UniqueNames(jobs) && !HasJob(jobs, name)
    {
      hide UniqueNames, WithoutJob, ScheduleFile;
      WithoutUnique(jobs, name);
      for i := 0 to |jobs|
        invariant jobs == old(jobs) && file == old(file)
        invariant forall j :: 0 <= j < i ==> jobs[j].name != name
      {
        if jobs[i].name == name {
          FirstJobOut(jobs, i, name);
          jobs := jobs[..i] + jobs[i + 1..];
          Save();
          return true;
        }
      }
      NoJobOut(jobs, name);
      ok := false;
    }

    /** recordRun. */
    method RecordRun(name: string, start: nat, end: nat, status: string)
      modifies this`history
      ensures history == Record(old(history), JobRun(name, start, end, status))
    {
      history := history + [JobRun(name, start, end, status)];
      if |history| > MAX_HISTORY {
        history := history[|history| - MAX_HISTORY..];
      }
    }

    /** updateLastRun: the most recent running entry of that name and start time, if there is one. */
    method UpdateLastRun(name: string, start: nat, end: nat, status: string)
      modifies this`history
      ensures history == UpdateLast(old(history), name, start, end, status)
    {
      var i := |history|;
      while i > 0
        invariant 0 <= i <= |history| && history == old(history)
        invariant FindRun(history, |history|, name, start) == FindRun(history, i, name, start)
      {
        i := i - 1;
        var r := history[i];
        if r.name == name && r.start == start && r.status == RUNNING {
          history := history[i := r.(end := end, status := status)];
          return;
        }
      }
    }
  }

  predicate HasJob(jobs: seq<SchedJob>, name: string) {
    exists i :: 0 <= i < |jobs| && jobs[i].name == name
  }

  datatype AddError = Unsupported | Duplicate | BadSchedule

  /** Why a job is not added, None if it is. */
  function RefuseAdd(jobs: seq<SchedJob>, j: SchedJob, valid: string -> bool): Option<AddError> {
    if j.command != "scan" then Some(Unsupported)
    else if HasJob(jobs, j.name) then Some(Duplicate)
    else if !valid(j.schedule) then Some(BadSchedule)
    else None
  }

  /** The jobs without the first of a name. */
  function WithoutJob(jobs: seq<SchedJob>, name: string): seq<SchedJob> {
    if jobs == [] then []
    else if jobs[0].name == name then jobs[1..]
    else [jobs[0]] + WithoutJob(jobs[1..], name)
  }

  lemma {:induction false} FirstJobOut(jobs: seq<SchedJob>, i: nat, name: string)
    requires i < |jobs| && jobs[i].name == name && forall j :: 0 <= j < i ==> jobs[j].name != name
    ensures WithoutJob(jobs, name) == jobs[..i] + jobs[i + 1..]
  {
    if i > 0 {
      FirstJobOut(jobs[1..], i - 1, name);
      assert jobs[..i] == [jobs[0]] + jobs[1..][..i - 1];
    }
  }

  lemma {:induction false} NoJobOut(jobs: seq<SchedJob>, name: string)
    requires forall j :: 0 <= j < |jobs| ==> jobs[j].name != name
    ensures WithoutJob(jobs, name) == jobs
  {
    if jobs != [] {
      NoJobOut(jobs[1..], name);
      assert jobs == [jobs[0]] + jobs[1..];
    }
  }

  ghost predicate UniqueNames(jobs: seq<SchedJob>) {
    forall i, j :: 0 <= i < j < |jobs| ==> jobs[i].name != jobs[j].name
  }

  lemma {:induction false} WithoutUnique(jobs: seq<SchedJob>, name: string)
    ensures UniqueNames(jobs) ==> UniqueNames(WithoutJob(jobs, name)) && !HasJob(WithoutJob(jobs, name), name)
  {
    hide WithoutJob;
    if i :| 0 <= i < |jobs| && jobs[i].name == name && forall j :: 0 <= j < i ==> jobs[j].name != name {
      FirstJobOut(jobs, i, name);
    } else {
      FirstOf(jobs, |jobs|, name);
      NoJobOut(jobs, name);
    }
  }

  /** If a name occurs, it has a first place. */
  lemma {:induction false} FirstOf(jobs: seq<SchedJob>, n: nat, name: string)
    requires n <= |jobs|
    requires !exists i :: 0 <= i < |jobs| && jobs[i].name == name && forall j :: 0 <= j < i ==> jobs[j].name != name
    ensures forall j :: 0 <= j < n ==> jobs[j].name != name
  {
    if n > 0 {
      FirstOf(jobs, n - 1, name);
    }
  }

  // ---------------------------------------------------------------- round trip of the schedule

  /** Fields as the commands and the loader leave them: trimmed, on one line, and split at the bars. */
  ghost predicate FieldsTrimmed(j: SchedJob) {
    && Trimmed(j.name) && Trimmed(j.schedule) && Trimmed(j.command)
    && OneLine(j.name) && OneLine(j.schedule) && OneLine(j.command)
    && '|' !in j.name && '|' !in j.schedule
  }

  lemma {:induction false} TrimKeeps(s: string)
    ensures Trimmed(TrimSpace(s)) && forall c :: c in TrimSpace(s) ==> c in s
  {
    hide TrimSpace;
    var left, right := TrimSpaceSplits(s);
  }

  /** Three parts of a line make a job that fits a line. */
  lemma {:induction false} JobFieldsTrimmed(s: string)
    requires OneLine(s) && JobFields(s).Some?
    ensures FieldsTrimmed(JobFields(s).value)
  {
    hide TrimSpace, Trimmed;
    var (name, rest) := Cut(s, '|').value;
    var (schedule, command) := Cut(rest, '|').value;
    TrimKeeps(name);
    TrimKeeps(schedule);
    TrimKeeps(command);
  }

  /** Whatever a line holds, the job read from it fits a line and cron accepts its schedule. */
  lemma {:induction false} ParsedJobTrimmed(line: string, valid: string -> bool)
    requires OneLine(line) && ParseJob(line, valid).Some?
    ensures FieldsTrimmed(ParseJob(line, valid).value) && valid(ParseJob(line, valid).value.schedule)
  {
    hide TrimSpace, FieldsTrimmed;
    TrimKeeps(line);
    JobFieldsTrimmed(TrimSpace(line));
  }

  /** Jobs that fit the schedule file. */
  ghost predicate FileJobs(jobs: seq<SchedJob>, valid: string -> bool) {
    forall j :: j in jobs ==> FieldsTrimmed(j) && valid(j.schedule)
  }

  lemma {:induction false} LoadedJobsTrimmed(lines: seq<string>, valid: string -> bool)
    requires forall l :: l in lines ==> OneLine(l)
    ensures FileJobs(LoadJobs(lines, valid), valid)
  {
    hide FieldsTrimmed, ParseJob;
    if lines != [] {
      var line := lines[|lines| - 1];
      LoadedJobsTrimmed(lines[..|lines| - 1], valid);
      if ParseJob(line, valid).Some? {
        ParsedJobTrimmed(line, valid);
      }
    }
  }

  lemma {:induction false} JobLineTrims(j: SchedJob)
    requires FieldsTrimmed(j)
    ensures TrimSpace(DropCR(JobLine(j))) == JobLine(j) && DropCR(JobLine(j)) == JobLine(j)
  {
    var line := JobLine(j);
    var front := j.name + "|" + j.schedule + "|";
    assert line == front + j.command;
    assert line[0] == if j.name == "" then '|' else j.name[0];
    assert line[|line| - 1] == if j.command == "" then '|' else j.command[|j.command| - 1];
  }

  /** A job line is read back unless its name makes it a comment. */
  lemma {:induction false} JobRoundTrip(j: SchedJob, valid: string -> bool)
    requires FieldsTrimmed(j) && valid(j.schedule)
    ensures ParseJob(DropCR(JobLine(j)), valid) == if Commented(j) then None else Some(j)
  {
    JobLineTrims(j);
    CutAt(j.name, '|', j.schedule + "|" + j.command);
    CutAt(j.schedule, '|', j.command);
    assert JobLine(j)[0] == if j.name == "" then '|' else j.name[0];
  }

  lemma {:induction false} LoadAppend(a: seq<string>, b: seq<string>, valid: string -> bool)
    ensures LoadJobs(a + b, valid) == LoadJobs(a, valid) + LoadJobs(b, valid)
  {
    if b == [] {
      assert a + b == a;
    } else {
      assert (a + b)[..|a + b| - 1] == a + b[..|b| - 1];
      LoadAppend(a, b[..|b| - 1], valid);
    }
  }

  predicate Commented(j: SchedJob) {
    j.name != "" && j.name[0] == '#'
  }

  function NotComments(jobs: seq<SchedJob>): seq<SchedJob> {
    if jobs == [] then []
    else
      var last := jobs[|jobs| - 1];
      NotComments(jobs[..|jobs| - 1]) + if Commented(last) then [] else [last]
  }

  lemma {:induction false} LoadJobLines(jobs: seq<SchedJob>, valid: string -> bool)
    requires forall j :: j in jobs ==> FieldsTrimmed(j) && valid(j.schedule)
    ensures LoadJobs(DropCRs(JobLines(jobs)), valid) == NotComments(jobs)
  {
    if jobs != [] {
      var init, last := jobs[..|jobs| - 1], jobs[|jobs| - 1];
      LoadJobLines(init, valid);
      assert DropCRs(JobLines(jobs))[..|jobs| - 1] == DropCRs(JobLines(init));
      JobRoundTrip(last, valid);
    }
  }

  lemma {:induction false} LoadComments(lines: seq<string>, valid: string -> bool)
    requires forall i :: 0 <= i < |lines| ==> lines[i] == "" || lines[i][0] == '#'
    ensures LoadJobs(lines, valid) == []
  {
    if lines != [] {
      LoadComments(lines[..|lines| - 1], valid);
      var last := lines[|lines| - 1];
      if last != "" {
        StaysComment(last);
      }
    }
  }

  lemma {:induction false} StaysComment(line: string)
    requires line != "" && line[0] == '#'
    ensures TrimSpace(line) != "" && TrimSpace(line)[0] == '#'
  {
    var ws := TrimRightSplits(line);
    assert TrimRight(line) == "" ==> line == ws;
  }

  lemma {:induction false} NotCommentsAll(jobs: seq<SchedJob>)
    ensures |NotComments(jobs)| <= |jobs|
    ensures NotComments(jobs) == jobs <==> forall j :: j in jobs ==> !Commented(j)
  {
    hide Commented;
    if jobs != [] {
      var init, last := jobs[..|jobs| - 1], jobs[|jobs| - 1];
      NotCommentsAll(init);
      assert jobs == init + [last];
      assert Commented(last) ==> |NotComments(jobs)| < |jobs| && last in jobs;
    }
  }

  /** The saved schedule loads back exactly when no job name starts with the comment sign. */
  lemma {:induction false} ScheduleRoundTrip(jobs: seq<SchedJob>, valid: string -> bool)
    requires forall j :: j in jobs ==> FieldsTrimmed(j) && valid(j.schedule)
    ensures LoadJobs(ScanLines(ScheduleFile(jobs)), valid) == jobs
       <==> forall j :: j in jobs ==> !Commented(j)
  {
    HeadIsComments();
    RoundTripBelow(FileHead(), jobs, valid);
  }

  /** The same below any head of comment lines. */
  lemma {:induction false} RoundTripBelow(head: seq<string>, jobs: seq<SchedJob>, valid: string -> bool)
    requires forall i :: 0 <= i < |head| ==> ScanSafe(head[i]) && IsComment(head[i])
    requires forall j :: j in jobs ==> FieldsTrimmed(j) && valid(j.schedule)
    ensures LoadJobs(ScanLines(Unlines(head + JobLines(jobs))), valid) == jobs
       <==> forall j :: j in jobs ==> !Commented(j)
  {
    ScheduleLines(head, jobs);
    LoadAppend(head, DropCRs(JobLines(jobs)), valid);
    LoadComments(head, valid);
    LoadJobLines(jobs, valid);
    NotCommentsAll(jobs);
  }

  lemma {:induction false} ScheduleLines(head: seq<string>, jobs: seq<SchedJob>)
    requires forall i :: 0 <= i < |head| ==> ScanSafe(head[i])
    requires forall j :: j in jobs ==> FieldsTrimmed(j)
    ensures ScanLines(Unlines(head + JobLines(jobs))) == head + DropCRs(JobLines(jobs))
  {
    var lines := head + JobLines(jobs);
    forall l | l in lines ensures OneLine(l) {
      if l in JobLines(jobs) {
        var i :| 0 <= i < |jobs| && l == JobLines(jobs)[i];
        assert jobs[i] in jobs;
      }
    }
    RawLinesOfUnlines(lines);
    assert DropCRs(lines) == head + DropCRs(JobLines(jobs));
  }

  lemma {:induction false} HeadIsComments()
    ensures forall i :: 0 <= i < |FileHead()| ==> ScanSafe(FileHead()[i]) && IsComment(FileHead()[i])
  {
    hide ScanSafe, IsComment;
    FirstHeadLines();
    LastHeadLines();
  }

  lemma {:induction false} FirstHeadLines()
    ensures forall i :: 0 <= i < 3 ==> ScanSafe(FileHead()[i]) && IsComment(FileHead()[i])
  {}

  lemma {:induction false} LastHeadLines()
    ensures forall i :: 3 <= i < 6 ==> ScanSafe(FileHead()[i]) && IsComment(FileHead()[i])
  {}

  // ---------------------------------------------------------------- all command sequences

  /** The words after "schedule add", or the name after "schedule remove". */
  datatype JobCommand = AddCommand(words: seq<string>) | RemoveCommand(name: string)

  function JobsAfter(jobs: seq<SchedJob>, c: JobCommand, valid: string -> bool): seq<SchedJob> {
    match c
    case RemoveCommand(name) => WithoutJob(jobs, name)
    case AddCommand(words) =>
      match JobFields(Join(words, ' '))
      case Some(j) => if RefuseAdd(jobs, j, valid).None? then jobs + [j] else jobs
      case None => jobs
  }

  function RunCommands(jobs: seq<SchedJob>, commands: seq<JobCommand>, valid: string -> bool): seq<SchedJob> {
    if commands == [] then jobs
    else JobsAfter(RunCommands(jobs, commands[..|commands| - 1], valid), commands[|commands| - 1], valid)
  }

  /** Commands as they arrive: split into words. */
  ghost predicate Arrives(c: JobCommand) {
    c.AddCommand? ==> forall w :: w in c.words ==> Word(w)
  }

  lemma {:induction false} WithoutSome(jobs: seq<SchedJob>, name: string)
    ensures forall j :: j in WithoutJob(jobs, name) ==> j in jobs
  {
    if jobs != [] && jobs[0].name != name {
      WithoutSome(jobs[1..], name);
    }
  }

  lemma {:induction false} JobsAfterTrimmed(jobs: seq<SchedJob>, c: JobCommand, valid: string -> bool)
    requires FileJobs(jobs, valid) && Arrives(c)
    ensures FileJobs(JobsAfter(jobs, c, valid), valid)
  {
    hide FieldsTrimmed, JobFields, Join;
    match c {
      case RemoveCommand(name) => WithoutSome(jobs, name);
      case AddCommand(words) =>
        JoinPlain(words);
        if JobFields(Join(words, ' ')).Some? {
          JobFieldsTrimmed(Join(words, ' '));
        }
    }
  }

  lemma {:induction false} CommandsTrimmed(jobs: seq<SchedJob>, commands: seq<JobCommand>, valid: string -> bool)
    requires FileJobs(jobs, valid) && forall c :: c in commands ==> Arrives(c)
    ensures FileJobs(RunCommands(jobs, commands, valid), valid)
  {
    hide FileJobs, Arrives, JobsAfter;
    if commands != [] {
      CommandsTrimmed(jobs, commands[..|commands| - 1], valid);
      JobsAfterTrimmed(RunCommands(jobs, commands[..|commands| - 1], valid), commands[|commands| - 1], valid);
    }
  }

  /** The jobs commands make of a schedule file, or of none. */
  function ReachableJobs(start: Option<string>, commands: seq<JobCommand>, valid: string -> bool): seq<SchedJob> {
    RunCommands(if start.Some? then LoadJobs(ScanLines(start.value), valid) else [], commands, valid)
  }

  lemma {:induction false} ReachableTrimmed(start: Option<string>, commands: seq<JobCommand>, valid: string -> bool)
    requires forall c :: c in commands ==> Arrives(c)
    ensures FileJobs(ReachableJobs(start, commands, valid), valid)
  {
    hide Arrives, FieldsTrimmed, ScanLines;
    if start.Some? {
      ScanLinesOneLine(start.value);
      LoadedJobsTrimmed(ScanLines(start.value), valid);
    }
    CommandsTrimmed(if start.Some? then LoadJobs(ScanLines(start.value), valid) else [], commands, valid);
  }

  /**
   * Every job list that commands make of any file loads back from its own file, unless a name starts with the
   * comment sign.
   */
  lemma {:induction false} ReachableSchedule(start: Option<string>, commands: seq<JobCommand>, valid: string -> bool)
    requires forall c :: c in commands ==> Arrives(c)
    ensures var jobs := ReachableJobs(start, commands, valid);
      LoadJobs(ScanLines(ScheduleFile(jobs)), valid) == jobs <==> forall j :: j in jobs ==> !Commented(j)
  {
    hide Arrives, FieldsTrimmed, ScanLines, ScheduleFile, ReachableJobs;
    ReachableTrimmed(start, commands, valid);
    ScheduleRoundTrip(ReachableJobs(start, commands, valid), valid);
  }
}
