/** Commands end to end: what a remote client gets for a report, a comparison, a list of users, and the metrics. */
module Remote {
  import opened Text
  import Order
  import Scans = Compare
  import Users
  import UserTexts
  import Reports
  import opened Scheduler
  import opened ScheduleCommand
  import opened CompareTexts
  import Metrics
  import Operations
  import opened Replies
  import opened Protocol
  import opened Client

  /** An answered command whose lines are no sentinels is delivered as it was answered. */
  lemma {:induction false} Delivered(
      env: Env, world: World, parts: seq<string>, user: string, role: string, f: Flags, o: Outcome, e: Ending,
      text: string, rest: string)
    requires parts != [] && Outcomes(env, world, parts, user, role, f, o) && o == Inline([text])
    requires OneLine(user) && OneLine(role) && forall l :: l in RawLines(text) ==> !IsSentinel(l)
    ensures Heard(o, e, user, role, rest) == Some(text)
  {
    hide *;
    OneText(o, e, text);
    TextsTerminated(env, world, parts, user, role, f, o, world.files, e);
    ClientOf(o, e, user, role, rest);
  }

  lemma {:induction false} OneText(o: Outcome, e: Ending, text: string)
    requires o == Inline([text])
    ensures Concat(Texts(o, e)) == text
  {
    assert [text][..0] == [];
  }

  // ---------------------------------------------------------------- fetching a report

  lemma {:induction false} ReportLines(h: Reports.Header, files: Scans.Files, order: seq<string>)
    requires OneLine(Reports.HeaderLine(h)) && Reports.PlainHashes(files) && forall k :: k in files ==> OneLine(k)
    requires Reports.OrderOf(order, files.Keys)
    ensures forall l :: l in [Reports.HeaderLine(h)] + Reports.Rows(files, order) ==> OneLine(l) && ',' in l
  {
    var rows := Reports.Rows(files, order);
    forall l | l in rows ensures OneLine(l) && ',' in l {
      var i :| 0 <= i < |rows| && rows[i] == l;
      assert order[i] in Order.Elements(order);
    }
    assert (h.name + ",")[|h.name|] == ',';
  }

  /** A saved scan whose paths are single lines reaches the client that fetches it exactly as it is stored. */
  lemma {:induction false} FetchReturnsReport(
      id: string, h: Reports.Header, files: Scans.Files, user: string, role: string, env: Env, world: World, f: Flags,
      o: Outcome, e: Ending, rest: string)
    requires Reports.ValidReportID(id) && Word(id) && id in world.files
    requires Reports.IsScanReport(world.files[id], h, files)
    requires OneLine(Reports.HeaderLine(h)) && Reports.PlainHashes(files) && forall k :: k in files ==> OneLine(k)
    requires OneLine(user) && OneLine(role) && Users.ValidRole(role)
    requires Outcomes(env, world, ["fetch", id], user, role, f, o)
    ensures ServerParts(ReceivedLine(ClientLine(["fetch", id]))) == ["fetch", id]
    ensures Heard(o, e, user, role, rest) == Some(world.files[id])
  {
    hide *;
    var content := world.files[id];
    ContentLines(content, h, files);
    FetchPerformed(id, user, role, env, world, f, o);
    FetchWords(id);
    WordsReceived(["fetch", id]);
    Delivered(env, world, ["fetch", id], user, role, f, o, e, content, rest);
  }

  lemma {:induction false} WordsReceived(args: seq<string>)
    requires forall a :: a in args ==> Word(a)
    ensures ServerParts(ReceivedLine(ClientLine(args))) == args
  {
    hide *;
    CommandReceived(args, "");
    assert ClientLine(args) + "" == ClientLine(args);
  }

  lemma {:induction false} ContentLines(content: string, h: Reports.Header, files: Scans.Files)
    requires Reports.IsScanReport(content, h, files)
    requires OneLine(Reports.HeaderLine(h)) && Reports.PlainHashes(files) && forall k :: k in files ==> OneLine(k)
    ensures Terminated(content) && forall l :: l in RawLines(content) ==> !IsSentinel(l)
  {
    hide RawLines, IsSentinel, Reports.HeaderLine, Reports.Rows;
    var order :| Reports.OrderOf(order, files.Keys)
      && content == Unlines([Reports.HeaderLine(h)] + Reports.Rows(files, order));
    var lines := [Reports.HeaderLine(h)] + Reports.Rows(files, order);
    ReportLines(h, files, order);
    UnlinesTerminated(lines);
    RawLinesOfUnlines(lines);
    forall l | l in lines ensures !IsSentinel(l) {
      MarkIsNoSentinel(l, ',');
    }
  }

  lemma {:induction false} FetchPerformed(
      id: string, user: string, role: string, env: Env, world: World, f: Flags, o: Outcome)
    requires Reports.ValidReportID(id) && id in world.files && Terminated(world.files[id]) && Users.ValidRole(role)
    requires Outcomes(env, world, ["fetch", id], user, role, f, o)
    ensures o == Inline([world.files[id]])
  {
    hide Outcomes, Reports.ValidReportID, Terminated;
    assert VerbOf("fetch") == Data && Users.CommandRole(["fetch", id]) == Users.RO;
    DataAnswer(env, world, ["fetch", id], user, role, f, o);
  }

  lemma {:induction false} FetchWords(id: string)
    requires Word(id)
    ensures forall a :: a in ["fetch", id] ==> Word(a)
  {}

  // ---------------------------------------------------------------- comparing two reports

  /**
   * A remote comparison of two reports that can be read: the client returns the opening line, the two headers, a
   * blank line, one line for each entry, and the closing line.
   */
  lemma {:induction false} RemoteCompare(
      id1: string, id2: string, user: string, role: string, env: Env, world: World, f: Flags, o: Outcome,
      files: map<string, string>, text: string, rest: string)
    returns (cr: Scans.CompareReport)
    requires Word(id1) && Word(id2) && OneLine(user) && OneLine(role) && role in {"ro", "rw", "admin"} && !Busy(f)
    requires Outcomes(env, world, ["compare", id1, id2], user, role, f, o)
    requires EndOf(env, files, ["compare", id1, id2], CompareComplete(text))
    requires Reports.Stat(files, id1).Ok? && Reports.Stat(files, id2).Ok?
    ensures ServerParts(ReceivedLine(ClientLine(["compare", id1, id2]))) == ["compare", id1, id2]
    ensures Compared(files, id1, id2, env.settings, cr)
    ensures IsCompareText(text, Reports.Stat(files, id1).value, Reports.Stat(files, id2).value, cr)
    ensures Heard(o, CompareComplete(text), user, role, rest) == Some(COMPARE_STARTED + text + "Compare Complete\n")
    ensures |RawLines(text)| == 3 + |cr.newFiles| + |cr.missingFiles| + |cr.changedFiles| + |cr.movedFiles|
    ensures RawLines(text)[..3] == TextHead(Reports.Stat(files, id1).value, Reports.Stat(files, id2).value)
  {
    hide *;
    CompareWords(id1, id2);
    WordsReceived(["compare", id1, id2]);
    CompareStarted(id1, id2, user, role, env, world, f, o);
    cr := AnswerOf(env, files, id1, id2, text);
    AnswerLines(files, id1, id2, env.settings, cr, text);
    CompareLines(text);
    CompareParts(o, text);
    TextsTerminated(env, world, ["compare", id1, id2], user, role, f, o, files, CompareComplete(text));
    ClientOf(o, CompareComplete(text), user, role, rest);
  }

  lemma {:induction false} CompareWords(id1: string, id2: string)
    requires Word(id1) && Word(id2)
    ensures forall a :: a in ["compare", id1, id2] ==> Word(a)
  {}

  lemma {:induction false} CompareStarted(
      id1: string, id2: string, user: string, role: string, env: Env, world: World, f: Flags, o: Outcome)
    requires Outcomes(env, world, ["compare", id1, id2], user, role, f, o) && role in {"ro", "rw", "admin"} && !Busy(f)
    ensures o == Started(false)
  {
    hide Outcomes;
    StartsExactly(env, world, ["compare", id1, id2], user, role, f, o);
  }

  lemma {:induction false} AnswerOf(env: Env, files: map<string, string>, id1: string, id2: string, text: string)
    returns (cr: Scans.CompareReport)
    requires EndOf(env, files, ["compare", id1, id2], CompareComplete(text))
    requires Reports.Stat(files, id1).Ok? && Reports.Stat(files, id2).Ok?
    ensures Compared(files, id1, id2, env.settings, cr)
    ensures IsCompareText(text, Reports.Stat(files, id1).value, Reports.Stat(files, id2).value, cr)
  {
    hide Compared, IsCompareText, Reports.Stat;
    cr :| Compared(files, id1, id2, env.settings, cr)
      && IsCompareText(text, Reports.Stat(files, id1).value, Reports.Stat(files, id2).value, cr);
  }

  lemma {:induction false} CompareParts(o: Outcome, text: string)
    requires o == Started(false)
    ensures Concat(Texts(o, CompareComplete(text))) == COMPARE_STARTED + text + "Compare Complete\n"
  {
    hide COMPARE_STARTED;
    ConcatThree(Opening(false), text, "Compare Complete\n");
    assert [Opening(false)] + [text, "Compare Complete\n"] == [Opening(false), text, "Compare Complete\n"];
  }

  lemma {:induction false} ConcatThree(a: string, b: string, c: string)
    ensures Concat([a, b, c]) == a + b + c
  {
    assert [a, b, c][..2] == [a, b] && [a, b][..1] == [a] && [a][..0] == [];
    assert Concat([a]) == "" + a == a;
    assert Concat([a, b]) == a + b;
  }

  /** No line of a completed comparison is a sentinel. */
  lemma {:induction false} CompareLines(text: string)
    requires text == Unlines(RawLines(text)) && forall l :: l in RawLines(text) ==> OneLine(l) && (Marked(l) || l == "")
    ensures forall l :: l in RawLines(COMPARE_STARTED + text + "Compare Complete\n") ==> !IsSentinel(l)
  {
    hide Marked, RawLines, IsSentinel, OneLine;
    var first, last := "Compare started in background", "Compare Complete";
    var lines := RawLines(text);
    OuterLines(first, last);
    assert COMPARE_STARTED == first + "\n" && "Compare Complete\n" == last + "\n";
    Enclosed(first, lines, last);
    RawLinesOfUnlines([first] + lines + [last]);
    forall l | l in lines ensures !IsSentinel(l) {
      NoSentinelMarked(l);
    }
    assert forall l :: l in [first] + lines + [last] ==> l == first || l in lines || l == last;
  }

  lemma {:induction false} OuterLines(first: string, last: string)
    requires first == "Compare started in background" && last == "Compare Complete"
    ensures OneLine(first) && OneLine(last) && !IsSentinel(first) && !IsSentinel(last)
  {
    hide IsSentinel;
    assert first[0] == 'C' && last[0] == 'C';
    MarkIsNoSentinel(first, 'C');
    MarkIsNoSentinel(last, 'C');
  }

  lemma {:induction false} Enclosed(first: string, lines: seq<string>, last: string)
    ensures Unlines([first] + lines + [last]) == first + "\n" + Unlines(lines) + (last + "\n")
  {
    UnlinesSnoc([first] + lines, last);
    assert ([first] + lines)[1..] == lines;
    AppendAssoc(first + "\n" + Unlines(lines), last, "\n");
  }

  lemma {:induction false} NoSentinelMarked(line: string)
    requires Marked(line) || line == ""
    ensures !IsSentinel(line)
  {
    hide IsSentinel;
    if line == "" {
      BlankNoSentinel();
    } else {
      var mark := if line[0] in {'C', 'M'} then line[0] else line[2];
      MarkIsNoSentinel(line, mark);
    }
  }

  lemma {:induction false} BlankNoSentinel()
    ensures !IsSentinel("")
  {}

  // ---------------------------------------------------------------- listing the users

  /** An administrator who lists the users reads one row for each user, in ascending order, with name and role. */
  lemma {:induction false} RemoteUserList(
      user: string, env: Env, world: World, f: Flags, o: Outcome, e: Ending, text: string, rest: string, k: nat)
    requires Users.Storable(world.users) && k < |world.users| && OneLine(user)
    requires Outcomes(env, world, ["user", "list"], user, Users.ADMIN, f, o)
    requires Heard(o, e, user, Users.ADMIN, rest) == Some(text)
    ensures var names := Order.Listing(world.users.Keys);
      && |names| == |world.users| == |RawLines(text)| && names[k] in world.users
      && RawLines(text)[k] == PadRight(names[k], 20) + " " + world.users[names[k]].role
  {
    hide *;
    var names := Order.Listing(world.users.Keys);
    ListingAll(world.users);
    var listed := UserTexts.ListText(env.usersPath, world.users, names);
    UserListed(user, env, world, f, o);
    RowCount(world.users, names);
    UserTexts.ListTextRows(env.usersPath, world.users, k);
    forall l | l in RawLines(listed) ensures !IsSentinel(l) {
      UserRowMarked(env.usersPath, world.users, l);
    }
    AdminLine();
    Delivered(env, world, ["user", "list"], user, Users.ADMIN, f, o, e, listed, rest);
  }

  lemma {:induction false} AdminLine()
    ensures OneLine(Users.ADMIN)
  {}

  lemma {:induction false} ListingAll(users: Users.UserMap)
    ensures |Order.Listing(users.Keys)| == |users|
  {
    Order.ListingSize(Order.Listing(users.Keys), users.Keys);
  }

  lemma {:induction false} UserListed(user: string, env: Env, world: World, f: Flags, o: Outcome)
    requires Outcomes(env, world, ["user", "list"], user, Users.ADMIN, f, o)
    ensures o == Inline([UserTexts.ListText(env.usersPath, world.users, Order.Listing(world.users.Keys))])
  {
    hide Outcomes, UserTexts.ListText;
    assert VerbOf("user") == User;
    assert ["user", "list"][1..] == ["list"];
    UserAnswer(env, world, ["user", "list"], user, Users.ADMIN, f, o);
  }

  lemma {:induction false} RowCount(users: Users.UserMap, names: seq<string>)
    ensures |UserTexts.UserRows(users, names)| == |names|
  {}

  lemma {:induction false} UserRowMarked(path: string, users: Users.UserMap, line: string)
    requires Users.Storable(users) && users.Keys != {}
    requires line in RawLines(UserTexts.ListText(path, users, Order.Listing(users.Keys)))
    ensures !IsSentinel(line)
  {
    hide *;
    var names := Order.Listing(users.Keys);
    ListingAll(users);
    RowCount(users, names);
    UserTexts.ListTextRows(path, users, 0);
    var i :| 0 <= i < |names| && UserTexts.UserRows(users, names)[i] == line;
    UserTexts.ListTextRows(path, users, i);
    StoredRole(users, names[i]);
    RoleMark(PadRight(names[i], 20), users[names[i]].role);
  }

  lemma {:induction false} StoredRole(users: Users.UserMap, name: string)
    requires Users.Storable(users) && name in users
    ensures Users.ValidRole(users[name].role)
  {}

  lemma {:induction false} RoleMark(front: string, role: string)
    requires Users.ValidRole(role)
    ensures !IsSentinel(front + " " + role)
  {
    hide IsSentinel;
    assert role[0] in {'r', 'a'};
    MarkIsNoSentinel(front + " " + role, role[0]);
  }

  // ---------------------------------------------------------------- adding a job

  /**
   * "schedule add" with a payload that a client builds from a name, a cron expression and a command, and sends as
   * one argument: the agent takes the words apart and joins them again, and reads the same three parts exactly
   * when none of them has white space other than single blanks inside, and the first two have no bar.
   */
  lemma {:induction false} AddReceived(name: string, cron: string, command: string)
    ensures
      var parts := ServerParts(ReceivedLine(ClientLine(["schedule", "add", Payload(name, cron, command)])));
      && parts != [] && parts[0] == "schedule"
      && (JobCommandOf(parts).Some? && JobFields(Join(parts[2..], ' ')) == Some(SchedJob(name, cron, command))
          <==> '|' !in name && '|' !in cron && Squeezed(name) && Squeezed(cron) && Squeezed(command))
  {
    hide Fields, TrimSpace, ReceivedLine, ServerParts, ClientLine, Squeeze, Payload;
    var payload := Payload(name, cron, command);
    assert Word("schedule") && Word("add");
    var sent := PartsOfThree("schedule", "add", payload);
    var parts := ServerParts(ReceivedLine(ClientLine(["schedule", "add", payload])));
    AddCommandOf(parts, sent);
    if sent == payload {
      PayloadReceived(name, cron, command);
    } else {
      SqueezePlain(sent);
      if JobFields(Squeeze(sent)) == Some(SchedJob(name, cron, command)) {
        JobFieldsTrimmed(Squeeze(sent));
        PayloadOneLine(name, cron, command);
      }
      if Squeezed(name) && Squeezed(cron) && Squeezed(command) {
        SqueezePlain(name);
        SqueezePlain(cron);
        SqueezePlain(command);
        PayloadOneLine(name, cron, command);
      }
    }
  }

  lemma {:induction false} PayloadOneLine(name: string, cron: string, command: string)
    requires OneLine(name) && OneLine(cron) && OneLine(command)
    ensures OneLine(Payload(name, cron, command))
  {}

  /** The words of a command on the agent's side: its last argument counts up to its first newline. */
  lemma {:induction false} PartsOfThree(a: string, b: string, payload: string) returns (sent: string)
    requires Word(a) && Word(b)
    ensures OneLine(sent) && (OneLine(payload) ==> sent == payload)
    ensures ServerParts(ReceivedLine(ClientLine([a, b, payload]))) == [a, b] + Fields(sent)
  {
    hide Fields, TrimSpace, Word;
    WordOneLine(a);
    WordOneLine(b);
    var later := "";
    match Cut(payload, '\n') {
      case None => sent := payload;
      case Some(pair) => sent, later := pair.0, pair.1 + "\n";
    }
    var line := a + (" " + (b + (" " + sent)));
    LineOfThree(a, b, payload);
    var front := a + " " + b + " ";
    assert payload + "\n" == sent + ['\n'] + later;
    assert line == front + sent;
    assert ClientLine([a, b, payload]) == front + (payload + "\n");
    assert front + (sent + ['\n'] + later) == line + ['\n'] + later;
    CutAt(line, '\n', later);
    FieldsTrim(DropCR(line));
    FieldsDropCR(line);
    TwoWords(a, b, sent);
  }

  lemma {:induction false} LineOfThree(a: string, b: string, c: string)
    ensures ClientLine([a, b, c]) == a + (" " + (b + (" " + c))) + "\n"
  {
    assert [a, b, c][1..] == [b, c] && [b, c][1..] == [c];
    assert Join([b, c], ' ') == b + [' '] + c;
    assert Join([a, b, c], ' ') == a + [' '] + (b + [' '] + c);
  }

  lemma {:induction false} WordOneLine(w: string)
    requires Word(w)
    ensures OneLine(w)
  {}

  lemma {:induction false} TwoWords(a: string, b: string, sent: string)
    requires Word(a) && Word(b)
    ensures Fields(a + (" " + (b + (" " + sent)))) == [a, b] + Fields(sent)
  {
    hide Fields, Word;
    FieldsOfWord(a, " " + (b + (" " + sent)));
    FieldsSkip(" ", b + (" " + sent));
    FieldsOfWord(b, " " + sent);
    FieldsSkip(" ", sent);
  }

  lemma {:induction false} AddCommandOf(parts: seq<string>, sent: string)
    requires parts == ["schedule", "add"] + Fields(sent)
    ensures JobCommandOf(parts).Some? <==> Fields(sent) != []
    ensures parts[0] == "schedule" && Join(parts[2..], ' ') == Squeeze(sent)
    ensures Fields(sent) == [] ==> JobFields(Squeeze(sent)).None?
  {
    hide Fields;
    assert SubVerbOf("add") == Add;
    assert parts[2..] == Fields(sent);
  }

  // ---------------------------------------------------------------- the exporter

  lemma {:induction false} FieldLinesHaveEquals(c: Metrics.Codec, v: Metrics.AgentView, fields: seq<Metrics.Field>)
    ensures forall l :: l in Metrics.FieldLines(c, v, fields) ==> '=' in l
  {
    hide Metrics.KeyText, Metrics.FieldText;
    if fields != [] {
      FieldLinesHaveEquals(c, v, fields[..|fields| - 1]);
    }
  }

  lemma {:induction false} JobLinesHaveEquals(c: Metrics.Codec, s: Metrics.Schedule, n: nat)
    requires n <= |s.jobs|
    ensures forall l :: l in Metrics.AllJobLines(c, s, n) ==> '=' in l
  {
    hide Metrics.NextText, Metrics.LastText, Metrics.StatusText, Metrics.LatestRun;
    if n > 0 {
      JobLinesHaveEquals(c, s, n - 1);
    }
  }

  lemma {:induction false} PayloadOneLines(c: Metrics.Codec, v: Metrics.AgentView)
    requires Metrics.Wellformed(c, v) && Metrics.ReadableJobs(v)
    ensures forall l :: l in Metrics.PayloadLines(c, v) ==> OneLine(l) && '=' in l
  {
    hide Metrics.FieldLines, Metrics.AllJobLines, Metrics.FieldOrder;
    var fields := Metrics.FieldOrder();
    Metrics.FieldsPrintable(c, v);
    Metrics.LinesOneLine(c, v, fields);
    FieldLinesHaveEquals(c, v, fields);
    if v.schedule.Some? {
      var s := v.schedule.value;
      assert s.jobs[..|s.jobs|] == s.jobs;
      Metrics.JobLinesOneLine(c, s, |s.jobs|);
      JobLinesHaveEquals(c, s, |s.jobs|);
    }
  }

  /** collectFromHost: an answer that is blank or starts with ERROR means that the host is down. */
  predicate IsUp(raw: string) {
    !("ERROR" <= raw) && TrimSpace(raw) != ""
  }

  /** An error, or an answer without a word, means that the host is down. */
  lemma {:induction false} DownOnErrors(msg: string, blank: string)
    ensures !IsUp(ErrorLine(msg))
    ensures AllSpace(blank) ==> !IsUp(blank)
  {
    FieldsEmpty(blank);
    assert ErrorLine(msg) == "ERROR" + (" - " + msg + "\n");
  }

  /** A job's record tells of its last finished run in the history, or that there is none. */
  ghost predicate TellsLastRun(history: seq<JobRun>, name: string, jm: Metrics.JobMetric) {
    if exists r :: r in history && r.name == name && r.status != "running" then
      exists i ::
        && 0 <= i < |history| && history[i].name == name && history[i].status != "running"
        && (forall k :: i < k < |history| ==> history[k].name != name || history[k].status == "running")
        && jm.lastRun == history[i].start as real && jm.lastStatus == history[i].status
    else jm.lastRun == 0.0 && jm.lastStatus == "never"
  }

  /** The job records of the exporter: one for each name on the board, with its next run and its last finished one. */
  ghost predicate TellsJobs(b: Board, nextRun: string -> Option<nat>, jobs: map<string, Metrics.JobMetric>) {
    && (forall j :: j in b.jobs ==> j.name in jobs)
    && (forall name :: name in jobs ==>
          && (exists j :: j in b.jobs && j.name == name)
          && jobs[name].name == name
          && jobs[name].nextRun == (if nextRun(name).Some? then nextRun(name).value as real else 0.0)
          && TellsLastRun(b.history, name, jobs[name]))
  }

  /**
   * The exporter finds the host up, and what it reads over the connection are the agent's own numbers and job
   * records: 1 for the flag that is set and 0 for the other, the number of jobs on the board, and their runs.
   */
  lemma {:induction false} ExporterSees(
      env: Env, world: World, user: string, role: string, f: Flags, o: Outcome, e: Ending, rest: string)
    requires Metrics.Inverse(env.codec) && (env.view.lastScan.Some? ==> OneLine(env.view.lastScan.value.reportName))
    requires world.board.Some? ==> forall j :: j in world.board.value.jobs ==>
      Metrics.ReadableJob(Metrics.Schedule(world.board.value.jobs, world.board.value.history, env.nextRun), j.name)
    requires OneLine(user) && OneLine(role) && role in {"ro", "rw", "admin"}
    requires Outcomes(env, world, ["metrics"], user, role, f, o)
    ensures ServerParts(ReceivedLine(ClientLine(["metrics"]))) == ["metrics"]
    ensures Heard(o, e, user, role, rest).Some? && IsUp(Heard(o, e, user, role, rest).value)
    ensures
      var m := Metrics.Parsed(env.codec, Heard(o, e, user, role, rest).value);
      && Metrics.FieldAt(m, Metrics.ScanRunning) == Some(if f.scan then 1.0 else 0.0)
      && Metrics.FieldAt(m, Metrics.CompareRunning) == Some(if f.compare then 1.0 else 0.0)
      && Metrics.FieldAt(m, Metrics.JobsTotal)
         == (if world.board.Some? then Some(|world.board.value.jobs| as real) else None)
      && (forall k :: k !in {Metrics.ScanRunning, Metrics.CompareRunning, Metrics.JobsTotal} ==>
            Metrics.FieldAt(m, k) == Metrics.FieldValue(env.view, k))
      && (world.board.Some? ==> TellsJobs(world.board.value, env.nextRun, m.jobs))
      && (world.board.None? ==> m.jobs == map[])
  {
    hide *;
    var v := ViewOf(env, world, f);
    ViewParts(env, world, f);
    MetricsPerformed(env, world, user, role, f, o);
    MetricsWord();
    WordsReceived(["metrics"]);
    MetricsLines(env.codec, v);
    Delivered(env, world, ["metrics"], user, role, f, o, e, Metrics.Payload(env.codec, v), rest);
    PayloadIsUp(env.codec, v);
    Metrics.PayloadRead(env.codec, v);
    if world.board.Some? {
      WantedTells(world.board.value, env.nextRun);
    }
  }

  lemma {:induction false} ViewParts(env: Env, world: World, f: Flags)
    requires Metrics.Inverse(env.codec) && (env.view.lastScan.Some? ==> OneLine(env.view.lastScan.value.reportName))
    requires world.board.Some? ==> forall j :: j in world.board.value.jobs ==>
      Metrics.ReadableJob(Metrics.Schedule(world.board.value.jobs, world.board.value.history, env.nextRun), j.name)
    ensures var v := ViewOf(env, world, f);
      && Metrics.Wellformed(env.codec, v) && Metrics.ReadableJobs(v)
      && Metrics.FieldValue(v, Metrics.ScanRunning) == Some(if f.scan then 1.0 else 0.0)
      && Metrics.FieldValue(v, Metrics.CompareRunning) == Some(if f.compare then 1.0 else 0.0)
      && Metrics.FieldValue(v, Metrics.JobsTotal)
         == (if world.board.Some? then Some(|world.board.value.jobs| as real) else None)
      && (forall k :: k !in {Metrics.ScanRunning, Metrics.CompareRunning, Metrics.JobsTotal} ==>
            Metrics.FieldValue(v, k) == Metrics.FieldValue(env.view, k))
      && v.schedule == (if world.board.None? then None else
           Some(Metrics.Schedule(world.board.value.jobs, world.board.value.history, env.nextRun)))
  {
    hide Metrics.Inverse, Metrics.ReadableJob;
  }

  lemma {:induction false} WantedTells(b: Board, nextRun: string -> Option<nat>)
    ensures var s := Metrics.Schedule(b.jobs, b.history, nextRun);
      TellsJobs(b, nextRun, Metrics.WantedJobs(s, |s.jobs|))
  {
    hide Metrics.LatestRun, TellsLastRun;
    var s := Metrics.Schedule(b.jobs, b.history, nextRun);
    assert s.jobs[..|s.jobs|] == s.jobs;
    forall name ensures TellsLastRun(b.history, name, Metrics.WantedJob(s, name)) {
      LastRunTold(s, name);
    }
  }

  lemma {:induction false} LastRunTold(s: Metrics.Schedule, name: string)
    ensures TellsLastRun(s.history, name, Metrics.WantedJob(s, name))
  {
    hide Metrics.LatestRun;
    Metrics.LatestRunIsLast(s.history, name);
  }

  /** In every reachable state the exporter reads 1 for the kind of the one operation in flight, and 0 for the other. */
  lemma {:induction false} ExporterTells(
      s: Operations.Agent, env: Env, world: World, user: string, role: string, o: Outcome, e: Ending, rest: string)
    requires Operations.Reachable(s)
    requires Metrics.Inverse(env.codec) && (env.view.lastScan.Some? ==> OneLine(env.view.lastScan.value.reportName))
    requires world.board.Some? ==> forall j :: j in world.board.value.jobs ==>
      Metrics.ReadableJob(Metrics.Schedule(world.board.value.jobs, world.board.value.history, env.nextRun), j.name)
    requires OneLine(user) && OneLine(role) && role in {"ro", "rw", "admin"}
    requires Outcomes(env, world, ["metrics"], user, role, Flags(s.scanRunning, s.compareRunning), o)
    ensures Heard(o, e, user, role, rest).Some?
    ensures
      var m := Metrics.Parsed(env.codec, Heard(o, e, user, role, rest).value);
      && Metrics.FieldAt(m, Metrics.ScanRunning) in {Some(0.0), Some(1.0)}
      && Metrics.FieldAt(m, Metrics.CompareRunning) in {Some(0.0), Some(1.0)}
      && (Metrics.FieldAt(m, Metrics.ScanRunning) == Some(1.0)
          <==> exists id :: Operations.HoldsFlag(s, id) && Operations.IsScan(s.ops[id]))
      && (Metrics.FieldAt(m, Metrics.CompareRunning) == Some(1.0)
          <==> exists id :: Operations.HoldsFlag(s, id) && !Operations.IsScan(s.ops[id]))
  {
    hide *;
    ExporterSees(env, world, user, role, Flags(s.scanRunning, s.compareRunning), o, e, rest);
    Operations.OneOperation(s);
  }

  lemma {:induction false} FirstLineStays(c: Metrics.Codec, v: Metrics.AgentView, fields: seq<Metrics.Field>)
    requires fields != [] && Metrics.FieldText(c, v, fields[0]).Some?
    ensures Metrics.FieldLines(c, v, fields) != []
    ensures Metrics.FieldLines(c, v, fields)[0] == Metrics.FieldLine(c, v, fields[0])
  {
    hide Metrics.FieldText, Metrics.KeyText;
    if |fields| > 1 {
      FirstLineStays(c, v, fields[..|fields| - 1]);
    } else {
      assert Metrics.FieldLines(c, v, fields[..0]) == [];
    }
  }

  lemma {:induction false} PayloadIsUp(c: Metrics.Codec, v: Metrics.AgentView)
    ensures IsUp(Metrics.Payload(c, v))
  {
    hide Metrics.PayloadLines;
    var line := FirstPayloadLine(c, v);
    assert line[0] == 's' && "ERROR"[0] == 'E';
    var raw := Metrics.Payload(c, v);
    assert raw[0] == line[0];
    var left, right := TrimSpaceSplits(raw);
    assert raw == left + TrimSpace(raw) + right && !IsSpace('s');
  }

  lemma {:induction false} FirstPayloadLine(c: Metrics.Codec, v: Metrics.AgentView) returns (line: string)
    ensures Metrics.PayloadLines(c, v) != [] && Metrics.PayloadLines(c, v)[0] == line
    ensures line != "" && line[0] == 's'
  {
    var fields := Metrics.FieldOrder();
    line := Metrics.FieldLine(c, v, fields[0]);
    FirstLineStays(c, v, fields);
  }

  lemma {:induction false} MetricsWord()
    ensures forall a :: a in ["metrics"] ==> Word(a)
  {}

  lemma {:induction false} MetricsPerformed(
      env: Env, world: World, user: string, role: string, f: Flags, o: Outcome)
    requires role in {"ro", "rw", "admin"} && Outcomes(env, world, ["metrics"], user, role, f, o)
    ensures o == Inline([Metrics.Payload(env.codec, ViewOf(env, world, f))])
  {
    hide Outcomes, Metrics.Payload, ViewOf;
    assert VerbOf("metrics") == MetricsVerb;
    assert Users.CommandRole(["metrics"]) == Users.RO;
    MetricsAnswer(env, world, ["metrics"], user, role, f, o);
  }

  lemma {:induction false} MetricsLines(c: Metrics.Codec, v: Metrics.AgentView)
    requires Metrics.Wellformed(c, v) && Metrics.ReadableJobs(v)
    ensures forall l :: l in RawLines(Metrics.Payload(c, v)) ==> !IsSentinel(l)
  {
    hide Metrics.PayloadLines, IsSentinel, RawLines;
    var lines := Metrics.PayloadLines(c, v);
    PayloadOneLines(c, v);
    RawLinesOfUnlines(lines);
    forall l | l in lines ensures !IsSentinel(l) {
      MarkIsNoSentinel(l, '=');
    }
  }
}
