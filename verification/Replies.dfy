/** What the agent answers to each command, and how a command changes what the agent keeps. */
module Replies {
  import opened Text
  import Users
  import UserTexts
  import Reports
  import opened Scheduler
  import opened CompareTexts
  import Tables
  import Metrics

  datatype Flags = Flags(scan: bool, compare: bool)

  predicate Busy(f: Flags) {
    f.scan || f.compare
  }

  /** The scheduler's jobs and history; cron says which schedules are valid. */
  datatype Board = Board(jobs: seq<SchedJob>, history: seq<JobRun>, valid: string -> bool)

  /** What the agent keeps: report files, users, and the scheduler if it runs. */
  datatype World = World(files: map<string, string>, users: Users.UserMap, board: Option<Board>)

  /** The agent's settings, and what calls outside the model give while a command is served. */
  datatype Env = Env(
    entries: Option<seq<Entry>>,               // the report directory
    reportDir: string, reportName: string, settings: CompareSettings, time: string,
    usersPath: string, generated: Option<string>,   // what bcrypt makes of a new password
    codec: Metrics.Codec, view: Metrics.AgentView, nextRun: string -> Option<nat>,
    next: SchedJob -> string, format: nat -> string, w: Wording)

  // ---------------------------------------------------------------- commands

  datatype Verb =
    | Scan | List | Data | Compare | QuickCompare | Status | MetricsVerb | Schedule | User | Whoami | Jobs | Other

  /** "fetch" and "data" are the same command. */
  function VerbOf(cmd: string): Verb {
    if cmd == "scan" then Scan
    else if cmd == "list" then List
    else if cmd == "data" || cmd == "fetch" then Data
    else if cmd == "compare" then Compare
    else if cmd == "quickcompare" then QuickCompare
    else if cmd == "status" then Status
    else if cmd == "metrics" then MetricsVerb
    else if cmd == "schedule" then Schedule
    else if cmd == "user" then User
    else if cmd == "whoami" then Whoami
    else if cmd == "jobs" then Jobs
    else Other
  }

  datatype SubVerb = ListJobs | History | Add | Remove | OtherSub

  function SubVerbOf(sub: string): SubVerb {
    if sub == "list" then ListJobs
    else if sub == "history" then History
    else if sub == "add" then Add
    else if sub == "remove" then Remove
    else OtherSub
  }

  // ---------------------------------------------------------------- texts

  const BUSY := "ERROR - an operation is already running (use 'status' to check)\n"
  const COMPARE_USAGE := "ERROR - usage: compare <REPORT_ID_1> <REPORT_ID_2>\n"
  const SCAN_STARTED := "Scan started in background\n"
  const COMPARE_STARTED := "Compare started in background\n"
  const NO_SCHEDULER := "Scheduler not running\n"

  function Denied(cmd: string, need: string, role: string): string {
    ErrorLine("permission denied: '" + cmd + "' requires the " + need + " role (you are " + role + ")")
  }

  function StatusText(f: Flags): string {
    if f.scan then "scan running\n" else if f.compare then "compare running\n" else "idle\n"
  }

  /** listReportDataString: the file, with a newline at the end if it lacks one. */
  function DataText(w: Wording, files: map<string, string>, id: string): string {
    if !Reports.ValidReportID(id) then ErrorLine("invalid report ID")
    else if id !in files then ErrorLine(w.openError(id))
    else if Terminated(files[id]) then files[id]
    else files[id] + "\n"
  }

  function JobsTable(env: Env, b: Board): string {
    Tables.ScheduleTable(Tables.JobRows(b.jobs, env.next))
  }

  function RunsTable(env: Env, b: Board): string {
    Tables.HistoryTable(Tables.HistoryRows(b.history, env.format))
  }

  function Overview(env: Env, b: Board, f: Flags): string {
    "=== Running ===\n" + StatusText(f) + "\n=== Scheduled Jobs ===\n" + JobsTable(env, b)
    + "\n=== Recent History ===\n" + RunsTable(env, b)
  }

  /** The state the metrics are printed from. */
  function ViewOf(env: Env, world: World, f: Flags): Metrics.AgentView {
    env.view.(
      scanRunning := f.scan, compareRunning := f.compare,
      schedule := match world.board
        case Some(b) => Some(Metrics.Schedule(b.jobs, b.history, env.nextRun))
        case None => None)
  }

  function MetricsText(env: Env, world: World, f: Flags): string {
    Metrics.Payload(env.codec, ViewOf(env, world, f))
  }

  function AddErrorText(w: Wording, j: SchedJob, error: AddError): string {
    match error
    case Unsupported => "unsupported command " + w.quote(j.command) + " (only 'scan' is supported)"
    case Duplicate => "job " + w.quote(j.name) + " already exists"
    case BadSchedule => "invalid schedule " + w.quote(j.schedule) + ": " + w.cronError(j.schedule)
  }

  /** "schedule add name|cron|command"; the parts after "add" are joined again because cron expressions have spaces. */
  function AddText(w: Wording, b: Board, payload: string): string {
    match JobFields(payload)
    case None => ErrorLine("usage: schedule add name|cronExpr|command")
    case Some(j) =>
      match RefuseAdd(b.jobs, j, b.valid)
      case Some(error) => ErrorLine(AddErrorText(w, j, error))
      case None => "Job " + j.name + " scheduled (" + j.schedule + " \U{2192} " + j.command + ")\n"
  }

  function RemoveText(w: Wording, b: Board, name: string): string {
    if HasJob(b.jobs, name) then "Job " + name + " removed\n" else ErrorLine("job " + w.quote(name) + " not found")
  }

  ghost predicate AllTerminated(texts: seq<string>) {
    forall t :: t in texts ==> Terminated(t)
  }

  /** One write for each line. */
  function Lines(lines: seq<string>): (texts: seq<string>)
    ensures AllTerminated(texts)
  {
    seq(|lines|, i requires 0 <= i < |lines| => lines[i] + "\n")
  }

  function AddUsage(): (texts: seq<string>)
    ensures AllTerminated(texts)
  {
    Lines(["usage: schedule add name|cronExpr|command",
           "  example: schedule add daily_scan|@daily|scan",
           "  example: schedule add nightly|0 2 * * *|scan"])
  }

  function ScheduleUsage(): (texts: seq<string>)
    ensures AllTerminated(texts)
  {
    Lines(["usage: schedule list|history|add <name>|<cron>|<cmd>|remove <name>"])
  }

  function RemoveUsage(): (texts: seq<string>)
    ensures AllTerminated(texts)
  {
    Lines(["usage: schedule remove <name>"])
  }

  function UnknownSub(sub: string): (texts: seq<string>)
    ensures AllTerminated(texts)
  {
    Lines(["ERROR - unknown schedule sub-command: " + sub, "Available: list, history, add, remove"])
  }

  function ScheduleTexts(env: Env, board: Option<Board>, parts: seq<string>): seq<string>
    requires parts != []
  {
    if board.None? then [ErrorLine("scheduler not running")]
    else if |parts| < 2 then ScheduleUsage()
    else
      var b := board.value;
      match SubVerbOf(parts[1])
      case ListJobs => [JobsTable(env, b)]
      case History => [RunsTable(env, b)]
      case Add => if |parts| < 3 then AddUsage() else [AddText(env.w, b, Join(parts[2..], ' '))]
      case Remove => if |parts| < 3 then RemoveUsage() else [RemoveText(env.w, b, parts[2])]
      case OtherSub => UnknownSub(parts[1])
  }

  function UnknownTexts(cmd: string): (texts: seq<string>)
    ensures AllTerminated(texts)
  {
    Lines(["ERROR - unknown command: " + cmd,
           "Available commands: scan, list, data <ID>, fetch <ID>, compare <ID> <ID>,",
           "                   status, jobs, metrics, quickcompare,",
           "                   schedule list|history|add <name>|<cron>|<cmd>|remove <name>,",
           "                   whoami, user list|add <name> <pw> [role]|passwd <name> <pw>"
           + "|role <name> <role>|remove <name>"])
  }

  function WhoamiText(user: string, role: string): string {
    user + " " + role + "\n"
  }

  function JobsText(env: Env, board: Option<Board>, f: Flags): string {
    match board
    case None => NO_SCHEDULER
    case Some(b) => Overview(env, b, f)
  }

  ghost function UserText(env: Env, world: World, args: seq<string>, user: string, role: string): string {
    UserTexts.UserText(env.w, env.usersPath, world.users, args, user, role, env.generated)
  }

  // ---------------------------------------------------------------- the outcome of a command

  /** What the read loop does with a command: answer it, or start a background operation. */
  datatype Outcome = Inline(texts: seq<string>) | Started(scan: bool)

  predicate Allowed(parts: seq<string>, role: string) {
    Users.RoleAllows(role, Users.CommandRole(parts))
  }

  /** The outcome of a command; only "quickcompare" leaves a choice, the order in which it prints its maps. */
  ghost predicate Outcomes(
      env: Env, world: World, parts: seq<string>, user: string, role: string, f: Flags, o: Outcome)
    requires parts != []
  {
    if !Allowed(parts, role) then o == Inline([Denied(parts[0], Users.CommandRole(parts), role)])
    else
      match VerbOf(parts[0])
      case Scan => o == if Busy(f) then Inline([BUSY]) else Started(true)
      case Compare => o ==
        if |parts| < 3 then Inline([COMPARE_USAGE]) else if Busy(f) then Inline([BUSY]) else Started(false)
      case List => o == Inline([ListText(env.w, env.entries)])
      case Data => o == Inline([
        if |parts| < 2 then ErrorLine("usage: " + parts[0] + " <REPORT_ID>")
        else DataText(env.w, world.files, parts[1])])
      case QuickCompare =>
        exists text :: (
          && o == Inline([text])
          && IsQuickAnswer(env.entries, env.reportDir, env.reportName, world.files, env.settings, env.w, text))
      case Status => o == Inline([StatusText(f)])
      case MetricsVerb => o == Inline([MetricsText(env, world, f)])
      case Schedule => o == Inline(ScheduleTexts(env, world.board, parts))
      case User => o == Inline([UserText(env, world, parts[1..], user, role)])
      case Whoami => o == Inline([WhoamiText(user, role)])
      case Jobs => o == Inline([JobsText(env, world.board, f)])
      case Other => o == Inline(UnknownTexts(parts[0]))
  }

  // ---------------------------------------------------------------- the effect of a command

  /** The change of the schedule that a "schedule ..." command asks for. */
  function JobCommandOf(parts: seq<string>): Option<JobCommand> {
    if |parts| < 3 then None
    else
      match SubVerbOf(parts[1])
      case Add => Some(AddCommand(parts[2..]))
      case Remove => Some(RemoveCommand(parts[2]))
      case _ => None
  }

  function BoardAfter(b: Board, parts: seq<string>): Board {
    match JobCommandOf(parts)
    case Some(c) => b.(jobs := JobsAfter(b.jobs, c, b.valid))
    case None => b
  }

  /** The users and jobs after a command. */
  function JobsOf(world: World, parts: seq<string>, role: string): Option<Board>
    requires parts != []
  {
    if world.board.Some? && Allowed(parts, role) && VerbOf(parts[0]).Schedule? then
      Some(BoardAfter(world.board.value, parts))
    else world.board
  }

  function UsersOf(env: Env, world: World, parts: seq<string>, user: string, role: string): Users.UserMap
    requires parts != []
  {
    if Allowed(parts, role) && VerbOf(parts[0]).User? then
      Users.AfterAs(world.users, parts[1..], user, role, env.generated)
    else world.users
  }

  // ---------------------------------------------------------------- laws

  /** Who may do what: "ro" looks and sets passwords, "rw" also scans and changes jobs, "admin" also manages users. */
  lemma {:induction false} WhoMay(parts: seq<string>, role: string)
    requires parts != []
    ensures Allowed(parts, role) <==>
      && role in {"ro", "rw", "admin"}
      && (parts[0] == "scan" ==> role != "ro")
      && (parts[0] == "schedule" && |parts| > 1 && parts[1] in {"add", "remove"} ==> role != "ro")
      && (parts[0] == "user" && !(|parts| > 1 && parts[1] == "passwd") ==> role == "admin")
  {
    assert Users.RoleRank("ro") == 1 && Users.RoleRank("rw") == 2 && Users.RoleRank("admin") == 3;
  }

  /**
   * A background operation starts exactly for "scan" by "rw" or "admin", or "compare" with two reports, with
   * both flags clear.
   */
  lemma {:induction false} StartsExactly(
      env: Env, world: World, parts: seq<string>, user: string, role: string, f: Flags, o: Outcome)
    requires parts != [] && Outcomes(env, world, parts, user, role, f, o)
    ensures o == Started(true) <==> parts[0] == "scan" && role in {"rw", "admin"} && !f.scan && !f.compare
    ensures o == Started(false) <==>
      parts[0] == "compare" && |parts| >= 3 && role in {"ro", "rw", "admin"} && !f.scan && !f.compare
  {
    hide Denied, ErrorLine, DataText, UnknownTexts, ScheduleTexts, JobsText, MetricsText, StatusText, UserText;
    hide ListText, IsQuickAnswer, WhoamiText, Allowed, Users.CommandRole;
    WhoMay(parts, role);
    assert "compare" != "scan" && "compare"[1] != "schedule"[1] && "compare" != "user";
    assert VerbOf("scan") == Scan && VerbOf("compare") == Compare;
  }

  // What each command answers, if it is allowed.

  lemma {:induction false} DataAnswer(
      env: Env, world: World, parts: seq<string>, user: string, role: string, f: Flags, o: Outcome)
    requires parts != [] && Outcomes(env, world, parts, user, role, f, o) && Allowed(parts, role)
    requires VerbOf(parts[0]).Data? && |parts| >= 2
    ensures o == Inline([DataText(env.w, world.files, parts[1])])
  {
    hide Denied, ErrorLine, DataText, UnknownTexts, ScheduleTexts, JobsText, MetricsText, StatusText, UserText;
    hide ListText, IsQuickAnswer, WhoamiText, VerbOf, Allowed;
  }

  lemma {:induction false} StatusAnswer(
      env: Env, world: World, parts: seq<string>, user: string, role: string, f: Flags, o: Outcome)
    requires parts != [] && Outcomes(env, world, parts, user, role, f, o) && Allowed(parts, role)
    requires VerbOf(parts[0]).Status?
    ensures o == Inline([StatusText(f)])
  {
    hide Denied, ErrorLine, DataText, UnknownTexts, ScheduleTexts, JobsText, MetricsText, StatusText, UserText;
    hide ListText, IsQuickAnswer, WhoamiText, VerbOf, Allowed;
  }

  lemma {:induction false} MetricsAnswer(
      env: Env, world: World, parts: seq<string>, user: string, role: string, f: Flags, o: Outcome)
    requires parts != [] && Outcomes(env, world, parts, user, role, f, o) && Allowed(parts, role)
    requires VerbOf(parts[0]).MetricsVerb?
    ensures o == Inline([MetricsText(env, world, f)])
  {
    hide Denied, ErrorLine, DataText, UnknownTexts, ScheduleTexts, JobsText, MetricsText, StatusText, UserText;
    hide ListText, IsQuickAnswer, WhoamiText, VerbOf, Allowed;
  }

  lemma {:induction false} UserAnswer(
      env: Env, world: World, parts: seq<string>, user: string, role: string, f: Flags, o: Outcome)
    requires parts != [] && Outcomes(env, world, parts, user, role, f, o) && Allowed(parts, role)
    requires VerbOf(parts[0]).User?
    ensures o == Inline([UserText(env, world, parts[1..], user, role)])
  {
    hide Denied, ErrorLine, DataText, UnknownTexts, ScheduleTexts, JobsText, MetricsText, StatusText, UserText;
    hide ListText, IsQuickAnswer, WhoamiText, VerbOf, Allowed;
  }

  lemma {:induction false} ScheduleAnswer(
      env: Env, world: World, parts: seq<string>, user: string, role: string, f: Flags, o: Outcome)
    requires parts != [] && Outcomes(env, world, parts, user, role, f, o) && Allowed(parts, role)
    requires VerbOf(parts[0]).Schedule?
    ensures o == Inline(ScheduleTexts(env, world.board, parts))
  {
    hide Denied, ErrorLine, DataText, UnknownTexts, ScheduleTexts, JobsText, MetricsText, StatusText, UserText;
    hide ListText, IsQuickAnswer, WhoamiText, VerbOf, Allowed;
  }

  lemma {:induction false} JobsAnswer(
      env: Env, world: World, parts: seq<string>, user: string, role: string, f: Flags, o: Outcome)
    requires parts != [] && Outcomes(env, world, parts, user, role, f, o) && Allowed(parts, role)
    requires VerbOf(parts[0]).Jobs?
    ensures o == Inline([JobsText(env, world.board, f)])
  {
    hide Denied, ErrorLine, DataText, UnknownTexts, ScheduleTexts, JobsText, MetricsText, StatusText, UserText;
    hide ListText, IsQuickAnswer, WhoamiText, VerbOf, Allowed;
  }

  lemma {:induction false} ListAnswer(
      env: Env, world: World, parts: seq<string>, user: string, role: string, f: Flags, o: Outcome)
    requires parts != [] && Outcomes(env, world, parts, user, role, f, o) && Allowed(parts, role)
    requires VerbOf(parts[0]).List?
    ensures o == Inline([ListText(env.w, env.entries)])
  {
    hide Denied, ErrorLine, DataText, UnknownTexts, ScheduleTexts, JobsText, MetricsText, StatusText, UserText;
    hide ListText, IsQuickAnswer, WhoamiText, VerbOf, Allowed;
  }

  lemma {:induction false} WhoamiAnswer(
      env: Env, world: World, parts: seq<string>, user: string, role: string, f: Flags, o: Outcome)
    requires parts != [] && Outcomes(env, world, parts, user, role, f, o) && Allowed(parts, role)
    requires VerbOf(parts[0]).Whoami?
    ensures o == Inline([WhoamiText(user, role)])
  {
    hide Denied, ErrorLine, DataText, UnknownTexts, ScheduleTexts, JobsText, MetricsText, StatusText, UserText;
    hide ListText, IsQuickAnswer, WhoamiText, VerbOf, Allowed;
  }

  lemma {:induction false} OtherAnswer(
      env: Env, world: World, parts: seq<string>, user: string, role: string, f: Flags, o: Outcome)
    requires parts != [] && Outcomes(env, world, parts, user, role, f, o) && Allowed(parts, role)
    requires VerbOf(parts[0]).Other?
    ensures o == Inline(UnknownTexts(parts[0]))
  {
    hide Denied, ErrorLine, DataText, UnknownTexts, ScheduleTexts, JobsText, MetricsText, StatusText, UserText;
    hide ListText, IsQuickAnswer, WhoamiText, VerbOf, Allowed;
  }

  lemma {:induction false} QuickAnswer(
      env: Env, world: World, parts: seq<string>, user: string, role: string, f: Flags, o: Outcome)
    requires parts != [] && Outcomes(env, world, parts, user, role, f, o) && Allowed(parts, role)
    requires VerbOf(parts[0]).QuickCompare?
    ensures o.Inline? && |o.texts| == 1
    ensures IsQuickAnswer(env.entries, env.reportDir, env.reportName, world.files, env.settings, env.w, o.texts[0])
  {
    hide Denied, ErrorLine, DataText, UnknownTexts, ScheduleTexts, JobsText, MetricsText, StatusText, UserText;
    hide ListText, IsQuickAnswer, WhoamiText, VerbOf, Allowed;
  }

  /**
   * Users change only by a user command of an administrator, or of a user with a role for the user's own
   * password; jobs only by "schedule add" and "schedule remove" of "rw" and "admin".
   */
  lemma {:induction false} OnlyItsOwn(env: Env, world: World, parts: seq<string>, user: string, role: string)
    requires parts != []
    ensures UsersOf(env, world, parts, user, role) != world.users ==>
      && parts[0] == "user" && role in {"ro", "rw", "admin"} && |parts| >= 2
      && (role == "admin" || (|parts| >= 3 && parts[1] == "passwd" && parts[2] == user))
    ensures JobsOf(world, parts, role) != world.board ==>
      |parts| >= 3 && parts[0] == "schedule" && parts[1] in {"add", "remove"} && role in {"rw", "admin"}
  {
    hide JobsAfter, Users.After, Allowed, Users.RoleRank;
    WhoMay(parts, role);
    RolesForUsers(role);
    assert VerbOf("user") == User && VerbOf("schedule") == Schedule;
    NoWords(world.users, env.generated);
  }

  lemma {:induction false} RolesForUsers(role: string)
    ensures Users.RoleAllows(role, Users.ADMIN) <==> role == "admin"
  {}

  lemma {:induction false} NoWords(users: Users.UserMap, generated: Option<string>)
    ensures Users.After(users, [], generated) == users
  {}

  // ---------------------------------------------------------------- every text ends in a newline

  lemma {:induction false} PlainTextsTerminated()
    ensures forall msg :: Terminated(ErrorLine(msg))
    ensures forall f :: Terminated(StatusText(f))
    ensures forall user, role :: Terminated(WhoamiText(user, role))
    ensures Terminated(BUSY) && Terminated(COMPARE_USAGE) && Terminated(NO_SCHEDULER)
  {}

  lemma {:induction false} DataTerminated(w: Wording, files: map<string, string>, id: string)
    ensures Terminated(DataText(w, files, id))
  {
    hide Reports.ValidReportID;
  }

  lemma {:induction false} TablesTerminated(env: Env, b: Board)
    ensures Terminated(JobsTable(env, b)) && Terminated(RunsTable(env, b))
  {
    hide Tables.ScheduleHead, Tables.HistoryHead, Tables.RowTexts, Tables.HistoryTexts, Tables.JobRows;
    hide Tables.HistoryRows;
    UnlinesTerminated(Tables.ScheduleHead() + Tables.RowTexts(Tables.JobRows(b.jobs, env.next)));
    UnlinesTerminated(Tables.HistoryHead() + Tables.HistoryTexts(Tables.HistoryRows(b.history, env.format)));
  }

  lemma {:induction false} JobsTextTerminated(env: Env, board: Option<Board>, f: Flags)
    ensures Terminated(JobsText(env, board, f))
  {
    hide JobsTable, RunsTable, StatusText;
    if board.Some? {
      TablesTerminated(env, board.value);
    }
  }

  lemma {:induction false} AddedTerminated(w: Wording, b: Board, payload: string, name: string)
    ensures Terminated(AddText(w, b, payload)) && Terminated(RemoveText(w, b, name))
  {
    hide JobFields, RefuseAdd, HasJob, AddErrorText;
  }

  lemma {:induction false} ScheduleTerminated(env: Env, board: Option<Board>, parts: seq<string>)
    requires parts != []
    ensures AllTerminated(ScheduleTexts(env, board, parts))
  {
    hide JobsTable, RunsTable, AddText, RemoveText, AddUsage, ScheduleUsage, RemoveUsage, UnknownSub, SubVerbOf;
    hide ErrorLine;
    PlainTextsTerminated();
    if board.Some? && |parts| >= 2 {
      TablesTerminated(env, board.value);
      if |parts| >= 3 {
        AddedTerminated(env.w, board.value, Join(parts[2..], ' '), parts[2]);
      }
    }
  }

  lemma {:induction false} MetricsTerminated(env: Env, world: World, f: Flags)
    ensures Terminated(MetricsText(env, world, f))
  {
    hide Metrics.PayloadLines, ViewOf;
    UnlinesTerminated(Metrics.PayloadLines(env.codec, ViewOf(env, world, f)));
  }

  lemma {:induction false} DeniedTerminated(cmd: string, need: string, role: string)
    ensures Terminated(Denied(cmd, need, role))
  {
    hide ErrorLine;
    PlainTextsTerminated();
  }

  /** Every reply is empty or ends in a newline. */
  lemma {:induction false} RepliesTerminated(
      env: Env, world: World, parts: seq<string>, user: string, role: string, f: Flags, o: Outcome)
    requires parts != [] && Outcomes(env, world, parts, user, role, f, o) && o.Inline?
    ensures AllTerminated(o.texts)
  {
    hide Denied, ErrorLine, DataText, UnknownTexts, ScheduleTexts, JobsText, MetricsText, StatusText, UserText;
    hide ListText;
    hide IsQuickAnswer, WhoamiText, Allowed, VerbOf, Terminated;
    PlainTextsTerminated();
    if !Allowed(parts, role) {
      DeniedTerminated(parts[0], Users.CommandRole(parts), role);
    } else {
      match VerbOf(parts[0]) {
        case List => ListTerminated(env.w, env.entries);
        case Data =>
          if |parts| >= 2 {
            DataTerminated(env.w, world.files, parts[1]);
          }
        case QuickCompare =>
          QuickTerminated(env.entries, env.reportDir, env.reportName, world.files, env.settings, env.w, o.texts[0]);
        case MetricsVerb => MetricsTerminated(env, world, f);
        case Schedule => ScheduleTerminated(env, world.board, parts);
        case User => UserTerminated(env, world, parts[1..], user, role);
        case Jobs => JobsTextTerminated(env, world.board, f);
        case _ =>
      }
    }
  }

  lemma {:induction false} UserTerminated(env: Env, world: World, args: seq<string>, user: string, role: string)
    ensures Terminated(UserText(env, world, args, user, role))
  {
    UserTexts.UserTextTerminated(env.w, env.usersPath, world.users, args, user, role, env.generated);
  }

  // ---------------------------------------------------------------- background operations

  function Opening(scan: bool): string {
    if scan then SCAN_STARTED else COMPARE_STARTED
  }

  /** How a background operation ends; a panic is recovered by the deferred function. */
  datatype Ending =
    | ScanComplete
    | ScanFailed(msg: string)
    | ScanPanicked(msg: string)
    | CompareComplete(text: string)
    | ComparePanicked(msg: string)

  predicate EndsScan(e: Ending) {
    e.ScanComplete? || e.ScanFailed? || e.ScanPanicked?
  }

  function LateTexts(e: Ending): seq<string> {
    match e
    case ScanComplete => ["Scan Complete\n"]
    case ScanFailed(msg) => [ErrorLine("scan failed: " + msg)]
    case ScanPanicked(msg) => [ErrorLine("scan failed: " + msg)]
    case CompareComplete(text) => [text, "Compare Complete\n"]
    case ComparePanicked(msg) => [ErrorLine("compare failed: " + msg)]
  }

  /** An ending of the operation a command started: a completed comparison answers for the reports it was given. */
  ghost predicate EndOf(env: Env, files: map<string, string>, parts: seq<string>, e: Ending) {
    e.CompareComplete? ==> |parts| >= 3 && IsAnswer(files, parts[1], parts[2], env.settings, env.w, e.text)
  }

  lemma {:induction false} LateTerminated(env: Env, files: map<string, string>, parts: seq<string>, e: Ending)
    requires EndOf(env, files, parts, e)
    ensures AllTerminated(LateTexts(e))
  {
    hide IsAnswer;
    if e.CompareComplete? {
      AnswerTerminated(files, parts[1], parts[2], env.settings, env.w, e.text);
    }
  }

  /** All the texts a one-command connection carries: `e` is how the background operation ends, if one starts. */
  function Texts(o: Outcome, e: Ending): seq<string> {
    match o
    case Inline(texts) => texts
    case Started(scan) => [Opening(scan)] + LateTexts(e)
  }

  lemma {:induction false} TextsTerminated(
      env: Env, world: World, parts: seq<string>, user: string, role: string, f: Flags, o: Outcome,
      files: map<string, string>, e: Ending)
    requires parts != [] && Outcomes(env, world, parts, user, role, f, o)
      && (o.Started? ==> EndOf(env, files, parts, e))
    ensures AllTerminated(Texts(o, e))
  {
    hide Outcomes, LateTexts, EndOf;
    match o {
      case Inline(_) => RepliesTerminated(env, world, parts, user, role, f, o);
      case Started(_) => LateTerminated(env, files, parts, e);
    }
  }
}
