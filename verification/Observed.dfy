/** What a reader finds in the agent's answers, told from the scans, jobs and users they are about. */
module Observed {
  import opened Text
  import opened Order
  import opened Compare
  import opened Reports
  import opened ReportCompare
  import opened Scheduler
  import ScheduleCommand
  import Users
  import UserTexts
  import CompareTexts
  import Matcher
  import Names
  import ReportListing
  import Tables
  import opened Replies
  import opened Client
  import Remote

  // ---------------------------------------------------------------- comparisons

  lemma {:induction false} LineOfMap(files: Files, order: seq<string>, line: (string, string) -> string, k: string)
    requires OrderOf(order, files.Keys) && k in files
    ensures line(k, files[k]) in MapLines(files, order, line)
  {
    assert k in Elements(order);
    var i :| 0 <= i < |order| && order[i] == k;
    assert MapLines(files, order, line)[i] == line(k, files[k]);
  }

  /** One line of a comparison in words. */
  predicate SaysNew(lines: seq<string>, k: string, hash: string) {
    ("NEW - " + k + " - " + hash) in lines
  }

  predicate SaysMissing(lines: seq<string>, k: string, hash: string) {
    ("MISSING - " + k + " - " + hash) in lines
  }

  predicate SaysChanged(lines: seq<string>, k: string, was: string, now: string) {
    ("CHANGED - " + k + " - " + was + " ==> " + now) in lines
  }

  predicate SaysMoved(lines: seq<string>, from: string, to: string, hash: string) {
    ("MOVED - " + from + " ==> " + to + " - " + hash) in lines
  }

  /**
   * What an answer says of two scans: every unignored path with another hash is called changed, with the old hash
   * first; every one only in the new scan is called new, or moved from a path only in the old scan with the same
   * hash; and every one only in the old scan missing, or moved to such a path.
   */
  lemma {:induction false} ComparisonSays(
      was: Files, now: Files, ignored: string -> bool, cr: CompareReport, oh: Header, nh: Header, text: string)
    requires IsReport(was, now, ignored, cr) && CompareTexts.IsCompareText(text, oh, nh, cr)
    requires OneLines(cr) && OneLine(HeaderLine(oh)) && OneLine(HeaderLine(nh))
    ensures forall k :: k in was && k in now && was[k] != now[k] && !ignored(k) ==>
      SaysChanged(RawLines(text), k, was[k], now[k])
    ensures forall k :: k in now && k !in was && !ignored(k) ==>
      || SaysNew(RawLines(text), k, now[k])
      || exists from ::
           from in was && from !in now && was[from] == now[k] && SaysMoved(RawLines(text), from, k, now[k])
    ensures forall k :: k in was && k !in now && !ignored(k) ==>
      || SaysMissing(RawLines(text), k, was[k])
      || exists to ::
           to in now && to !in was && now[to] == was[k] && SaysMoved(RawLines(text), k, to, was[k])
    ensures |RawLines(text)| == 3 + |cr.newFiles| + |cr.missingFiles| + |cr.changedFiles| + |cr.movedFiles|
    ensures RawLines(text)[0] == "Old: " + oh.name + "," + oh.time + "," + oh.host + "," + oh.path
    ensures RawLines(text)[1] == "New: " + nh.name + "," + nh.time + "," + nh.host + "," + nh.path
  {
    hide RawLines, IsReport, OneLines, HeaderLine, CompareTexts.IsCompareText;
    hide SaysNew, SaysMissing, SaysChanged, SaysMoved;
    TextSays(cr, oh, nh, text);
    var lines := RawLines(text);
    forall k | k in was && k in now && was[k] != now[k] && !ignored(k) ensures SaysChanged(lines, k, was[k], now[k]) {
      ChangeReported(was, now, ignored, cr, k);
    }
    forall k | k in now && k !in was && !ignored(k)
      ensures SaysNew(lines, k, now[k]) || exists from ::
        from in was && from !in now && was[from] == now[k] && SaysMoved(lines, from, k, now[k])
    {
      NewReported(was, now, ignored, cr, k);
    }
    forall k | k in was && k !in now && !ignored(k)
      ensures SaysMissing(lines, k, was[k]) || exists to ::
        to in now && to !in was && now[to] == was[k] && SaysMoved(lines, k, to, was[k])
    {
      MissingReported(was, now, ignored, cr, k);
    }
  }

  /** Every entry of the comparison has its line in the answer, below the two headers. */
  lemma {:induction false} TextSays(cr: CompareReport, oh: Header, nh: Header, text: string)
    requires CompareTexts.IsCompareText(text, oh, nh, cr)
    requires OneLines(cr) && OneLine(HeaderLine(oh)) && OneLine(HeaderLine(nh))
    ensures |RawLines(text)| == 3 + |cr.newFiles| + |cr.missingFiles| + |cr.changedFiles| + |cr.movedFiles|
    ensures RawLines(text)[0] == "Old: " + oh.name + "," + oh.time + "," + oh.host + "," + oh.path
    ensures RawLines(text)[1] == "New: " + nh.name + "," + nh.time + "," + nh.host + "," + nh.path
    ensures forall k :: k in cr.newFiles ==> SaysNew(RawLines(text), k, cr.newFiles[k])
    ensures forall k :: k in cr.missingFiles ==> SaysMissing(RawLines(text), k, cr.missingFiles[k])
    ensures forall c: Change :: c in cr.changedFiles ==> SaysChanged(RawLines(text), c.path, c.oldHash, c.newHash)
    ensures forall m: Move :: m in cr.movedFiles ==> SaysMoved(RawLines(text), m.oldPath, m.newPath, m.hash)
  {
    hide RawLines, Distinct, OneLines, HeaderLine, Unlines, CompareTexts.TextHead, CompareTexts.EntryLines;
    hide SaysNew, SaysMissing, SaysChanged, SaysMoved, CompareTexts.Marked;
    var newOrder, missingOrder :| OrderOf(newOrder, cr.newFiles.Keys) && OrderOf(missingOrder, cr.missingFiles.Keys)
      && text == Unlines(CompareTexts.TextHead(oh, nh) + CompareTexts.EntryLines(cr, newOrder, missingOrder));
    var head, entries := CompareTexts.TextHead(oh, nh), CompareTexts.EntryLines(cr, newOrder, missingOrder);
    CompareTexts.EntryLinesMarked(cr, newOrder, missingOrder);
    CompareTexts.HeadMarked(oh, nh);
    CompareTexts.LinesOfAnswer(head, entries, text);
    HeadSays(oh, nh);
    EntriesSay(cr, newOrder, missingOrder, entries);
    forall x, y
      ensures SaysNew(entries, x, y) ==> SaysNew(head + entries, x, y)
      ensures SaysMissing(entries, x, y) ==> SaysMissing(head + entries, x, y)
    {
      LaterSays(head, entries, x, y, "");
    }
    forall x, y, z
      ensures SaysChanged(entries, x, y, z) ==> SaysChanged(head + entries, x, y, z)
      ensures SaysMoved(entries, x, y, z) ==> SaysMoved(head + entries, x, y, z)
    {
      LaterSays(head, entries, x, y, z);
    }
  }

  /** The file of a comparison: both headers, and the line of every entry. */
  lemma {:induction false} FileSays(cr: CompareReport, oh: Header, nh: Header, content: string)
    requires IsCompareFile(content, oh, nh, cr)
    requires OneLines(cr) && OneLine(HeaderLine(oh)) && OneLine(HeaderLine(nh))
    ensures |RawLines(content)| == 2 + |cr.newFiles| + |cr.missingFiles| + |cr.changedFiles| + |cr.movedFiles|
    ensures RawLines(content)[0] == "Old Header: " + oh.name + "," + oh.time + "," + oh.host + "," + oh.path
    ensures RawLines(content)[1] == "New Header: " + nh.name + "," + nh.time + "," + nh.host + "," + nh.path
    ensures forall k :: k in cr.newFiles ==> SaysNew(RawLines(content), k, cr.newFiles[k])
    ensures forall k :: k in cr.missingFiles ==> SaysMissing(RawLines(content), k, cr.missingFiles[k])
    ensures forall c: Change :: c in cr.changedFiles ==> SaysChanged(RawLines(content), c.path, c.oldHash, c.newHash)
    ensures forall m: Move :: m in cr.movedFiles ==> SaysMoved(RawLines(content), m.oldPath, m.newPath, m.hash)
  {
    hide RawLines, Distinct, OneLines, HeaderLine, Unlines, HeaderLines, CompareTexts.EntryLines, CompareLines, OneLine;
    hide SaysNew, SaysMissing, SaysChanged, SaysMoved, CompareTexts.Marked;
    var newOrder, missingOrder :|
      && OrderOf(newOrder, cr.newFiles.Keys) && OrderOf(missingOrder, cr.missingFiles.Keys)
      && content == Unlines(CompareLines(oh, nh, cr, newOrder, missingOrder));
    var head, entries := HeaderLines(oh, nh), CompareTexts.EntryLines(cr, newOrder, missingOrder);
    CompareLinesOneLine(oh, nh, cr, newOrder, missingOrder);
    RawLinesOfUnlines(CompareLines(oh, nh, cr, newOrder, missingOrder));
    FileLines(oh, nh, cr, newOrder, missingOrder);
    CompareTexts.EntryLinesMarked(cr, newOrder, missingOrder);
    EntriesSay(cr, newOrder, missingOrder, entries);
    forall x, y
      ensures SaysNew(entries, x, y) ==> SaysNew(head + entries, x, y)
      ensures SaysMissing(entries, x, y) ==> SaysMissing(head + entries, x, y)
    {
      LaterSays(head, entries, x, y, "");
    }
    forall x, y, z
      ensures SaysChanged(entries, x, y, z) ==> SaysChanged(head + entries, x, y, z)
      ensures SaysMoved(entries, x, y, z) ==> SaysMoved(head + entries, x, y, z)
    {
      LaterSays(head, entries, x, y, z);
    }
  }

  lemma {:induction false} FileLines(
      oh: Header, nh: Header, cr: CompareReport, newOrder: seq<string>, missingOrder: seq<string>)
    requires OrderOf(newOrder, cr.newFiles.Keys) && OrderOf(missingOrder, cr.missingFiles.Keys)
    ensures var head := HeaderLines(oh, nh);
      && |head| == 2
      && head[0] == "Old Header: " + oh.name + "," + oh.time + "," + oh.host + "," + oh.path
      && head[1] == "New Header: " + nh.name + "," + nh.time + "," + nh.host + "," + nh.path
      && CompareLines(oh, nh, cr, newOrder, missingOrder)
         == head + CompareTexts.EntryLines(cr, newOrder, missingOrder)
  {
    hide HeaderLine, MapLines, ChangedLines, MovedLines, Distinct;
    HeaderParts("Old Header: ", oh);
    HeaderParts("New Header: ", nh);
    CompareTexts.FourAfter(HeaderLines(oh, nh), MapLines(cr.newFiles, newOrder, NewLine),
                           MapLines(cr.missingFiles, missingOrder, MissingLine),
                           ChangedLines(cr.changedFiles), MovedLines(cr.movedFiles));
  }

  lemma {:induction false} HeadSays(oh: Header, nh: Header)
    ensures var head := CompareTexts.TextHead(oh, nh);
      && |head| == 3
      && head[0] == "Old: " + oh.name + "," + oh.time + "," + oh.host + "," + oh.path
      && head[1] == "New: " + nh.name + "," + nh.time + "," + nh.host + "," + nh.path
  {
    HeaderParts("Old: ", oh);
    HeaderParts("New: ", nh);
  }

  lemma {:induction false} HeaderParts(front: string, h: Header)
    ensures front + HeaderLine(h) == front + h.name + "," + h.time + "," + h.host + "," + h.path
  {}

  lemma {:induction false} LaterSays(head: seq<string>, entries: seq<string>, x: string, y: string, z: string)
    ensures SaysNew(entries, x, y) ==> SaysNew(head + entries, x, y)
    ensures SaysMissing(entries, x, y) ==> SaysMissing(head + entries, x, y)
    ensures SaysChanged(entries, x, y, z) ==> SaysChanged(head + entries, x, y, z)
    ensures SaysMoved(entries, x, y, z) ==> SaysMoved(head + entries, x, y, z)
  {}

  lemma {:induction false} EntriesSay(
      cr: CompareReport, newOrder: seq<string>, missingOrder: seq<string>, entries: seq<string>)
    requires OrderOf(newOrder, cr.newFiles.Keys) && OrderOf(missingOrder, cr.missingFiles.Keys)
    requires entries == CompareTexts.EntryLines(cr, newOrder, missingOrder)
    ensures forall k :: k in cr.newFiles ==> SaysNew(entries, k, cr.newFiles[k])
    ensures forall k :: k in cr.missingFiles ==> SaysMissing(entries, k, cr.missingFiles[k])
    ensures forall c: Change :: c in cr.changedFiles ==> SaysChanged(entries, c.path, c.oldHash, c.newHash)
    ensures forall m: Move :: m in cr.movedFiles ==> SaysMoved(entries, m.oldPath, m.newPath, m.hash)
  {
    hide OrderOf, MapLines, ChangedLines, MovedLines, NewLine, MissingLine, ChangedLine, MovedLine;
    forall k | k in cr.newFiles ensures SaysNew(entries, k, cr.newFiles[k]) {
      LineOfMap(cr.newFiles, newOrder, NewLine, k);
      LineTexts(k, cr.newFiles[k], "");
    }
    forall k | k in cr.missingFiles ensures SaysMissing(entries, k, cr.missingFiles[k]) {
      LineOfMap(cr.missingFiles, missingOrder, MissingLine, k);
      LineTexts(k, cr.missingFiles[k], "");
    }
    forall c: Change | c in cr.changedFiles ensures SaysChanged(entries, c.path, c.oldHash, c.newHash) {
      LineOfChange(cr.changedFiles, c);
      LineTexts(c.path, c.oldHash, c.newHash);
    }
    forall m: Move | m in cr.movedFiles ensures SaysMoved(entries, m.oldPath, m.newPath, m.hash) {
      LineOfMove(cr.movedFiles, m);
      LineTexts(m.oldPath, m.newPath, m.hash);
    }
  }

  lemma {:induction false} LineTexts(x: string, y: string, z: string)
    ensures NewLine(x, y) == "NEW - " + x + " - " + y
    ensures MissingLine(x, y) == "MISSING - " + x + " - " + y
    ensures ChangedLine(Change(x, y, z)) == "CHANGED - " + x + " - " + y + " ==> " + z
    ensures MovedLine(Move(x, y, z)) == "MOVED - " + x + " ==> " + y + " - " + z
  {}

  lemma {:induction false} LineOfChange(changes: seq<Change>, c: Change)
    requires c in changes
    ensures ChangedLine(c) in ChangedLines(changes)
  {
    var i :| 0 <= i < |changes| && changes[i] == c;
    assert ChangedLines(changes)[i] == ChangedLine(c);
  }

  lemma {:induction false} LineOfMove(moves: seq<Move>, m: Move)
    requires m in moves
    ensures MovedLine(m) in MovedLines(moves)
  {
    var i :| 0 <= i < |moves| && moves[i] == m;
    assert MovedLines(moves)[i] == MovedLine(m);
  }

  lemma {:induction false} ChangeReported(
      was: Files, now: Files, ignored: string -> bool, cr: CompareReport, k: string)
    requires IsReport(was, now, ignored, cr) && k in was && k in now && was[k] != now[k] && !ignored(k)
    ensures Change(k, was[k], now[k]) in cr.changedFiles
  {
    assert Change(k, was[k], now[k]) in multiset(cr.changedFiles);
  }

  lemma {:induction false} NewReported(was: Files, now: Files, ignored: string -> bool, cr: CompareReport, k: string)
    requires IsReport(was, now, ignored, cr) && k in now && k !in was && !ignored(k)
    ensures
      || (k in cr.newFiles && cr.newFiles[k] == now[k])
      || exists m :: m in cr.movedFiles && m.newPath == k && m.oldPath in was && m.oldPath !in now
           && was[m.oldPath] == now[k] == m.hash
  {
    var missing, added := OnlyIn(was, now, ignored), OnlyIn(now, was, ignored);
    if k !in cr.newFiles {
      MovePaths(missing, added, cr.movedFiles);
      var m :| m in cr.movedFiles && m.newPath == k;
    }
  }

  lemma {:induction false} MissingReported(
      was: Files, now: Files, ignored: string -> bool, cr: CompareReport, k: string)
    requires IsReport(was, now, ignored, cr) && k in was && k !in now && !ignored(k)
    ensures
      || (k in cr.missingFiles && cr.missingFiles[k] == was[k])
      || exists m :: m in cr.movedFiles && m.oldPath == k && m.newPath in now && m.newPath !in was
           && now[m.newPath] == was[k] == m.hash
  {
    var missing, added := OnlyIn(was, now, ignored), OnlyIn(now, was, ignored);
    if k !in cr.missingFiles {
      MovePaths(missing, added, cr.movedFiles);
      var m :| m in cr.movedFiles && m.oldPath == k;
    }
  }

  // ---------------------------------------------------------------- tables

  /** Times as the scheduler writes them are what the GUI looks for. */
  lemma {:induction false} LocalTimeFound(t: Names.Stamp)
    requires Names.Real(t)
    ensures Matcher.IsStamp(Names.FormatDate(t) + " " + Names.FormatClock(t, ':'))
  {
    Names.Pad2Shape(t.year / 100);
    Names.Pad2Shape(t.year % 100);
    Names.Pad2Shape(t.month);
    Names.Pad2Shape(t.day);
    Names.Pad2Shape(t.hour);
    Names.Pad2Shape(t.minute);
    Names.Pad2Shape(t.second);
    hide Names.Pad2;
  }

  /** The row of a job as the GUI should show it. */
  predicate ShowsJob(r: Tables.Row, j: SchedJob, next: string) {
    r.name == j.name && r.schedule == j.schedule && r.command == j.command && r.next == next
  }

  /** The row of a run as the GUI should show it: a dash for the end of a run that has none. */
  predicate ShowsRun(r: Tables.HistoryRow, run: JobRun, format: nat -> string) {
    && r.name == run.name && r.start == format(run.start) && r.status == run.status
    && r.end == if run.end == 0 || run.status == "running" then "-" else format(run.end)
  }

  /** "schedule list" answers with a table from which the GUI reads every job of the board, in order. */
  lemma {:induction false} ScheduleListed(
      env: Env, world: World, user: string, role: string, f: Flags, o: Outcome)
    requires Outcomes(env, world, ["schedule", "list"], user, role, f, o) && role in {"ro", "rw", "admin"}
    requires world.board.Some? && forall j :: j in world.board.value.jobs ==>
      && FieldsTrimmed(j) && j.schedule != "" && Matcher.StampOrDashText(env.next(j))
      && Tables.NameFits(j.name) && j.name != "NAME" && Tables.NonBlankWord(j.command)
    ensures o.Inline? && |o.texts| == 1
    ensures var jobs, rows := world.board.value.jobs, Tables.Collect(Split(o.texts[0], '\n'), Tables.ParseRow);
      |rows| == |jobs| && forall i :: 0 <= i < |jobs| ==> ShowsJob(rows[i], jobs[i], env.next(jobs[i]))
  {
    hide Tables.Collect, Tables.ParseRow, Split, Tables.ScheduleTable, Outcomes, FieldsTrimmed;
    hide Matcher.StampOrDashText, Tables.NameFits, Tables.NonBlankWord;
    TableAnswers(env, world, user, role, f, o);
    var b := world.board.value;
    Tables.JobsReadBack(b.jobs, env.next);
  }

  /** "schedule history" answers with a table from which the GUI reads every run of the history, newest first. */
  lemma {:induction false} HistoryListed(
      env: Env, world: World, user: string, role: string, f: Flags, o: Outcome)
    requires Outcomes(env, world, ["schedule", "history"], user, role, f, o) && role in {"ro", "rw", "admin"}
    requires world.board.Some? && Tables.Formats(env.format)
    requires forall r :: r in world.board.value.history ==> Tables.ReadableRun(r)
    ensures o.Inline? && |o.texts| == 1
    ensures var h, rows := world.board.value.history, Tables.Collect(Split(o.texts[0], '\n'), Tables.ParseHistoryRow);
      |rows| == |h| && forall i :: 0 <= i < |h| ==> ShowsRun(rows[i], h[|h| - 1 - i], env.format)
  {
    hide Tables.Collect, Tables.ParseHistoryRow, Split, Tables.HistoryTable, Outcomes, Tables.Formats;
    hide Tables.ReadableRun;
    TableAnswers(env, world, user, role, f, o);
    var b := world.board.value;
    Tables.HistoryReadBack(b.history, env.format);
    var h := b.history;
    forall i | 0 <= i < |h|
      ensures ShowsRun(Tables.HistoryRows(h, env.format)[i], h[|h| - 1 - i], env.format)
    {
      assert Tables.HistoryRows(h, env.format)[i] == Tables.HistoryRowOf(h[|h| - 1 - i], env.format);
    }
  }

  lemma {:induction false} TableAnswers(
      env: Env, world: World, user: string, role: string, f: Flags, o: Outcome)
    requires world.board.Some? && role in {"ro", "rw", "admin"}
    ensures Outcomes(env, world, ["schedule", "list"], user, role, f, o) ==>
      o == Inline([Tables.ScheduleTable(Tables.JobRows(world.board.value.jobs, env.next))])
    ensures Outcomes(env, world, ["schedule", "history"], user, role, f, o) ==>
      o == Inline([Tables.HistoryTable(Tables.HistoryRows(world.board.value.history, env.format))])
  {
    hide Tables.ScheduleTable, Tables.HistoryTable, Tables.JobRows, Tables.HistoryRows, Allowed, Outcomes;
    WhoMay(["schedule", "list"], role);
    WhoMay(["schedule", "history"], role);
    assert VerbOf("schedule") == Schedule;
    assert SubVerbOf("list") == ListJobs && SubVerbOf("history") == History;
    if Outcomes(env, world, ["schedule", "list"], user, role, f, o) {
      ScheduleAnswer(env, world, ["schedule", "list"], user, role, f, o);
    }
    if Outcomes(env, world, ["schedule", "history"], user, role, f, o) {
      ScheduleAnswer(env, world, ["schedule", "history"], user, role, f, o);
    }
  }

  /** "jobs" repeats the answers to "status", "schedule list" and "schedule history" under their headings. */
  lemma {:induction false} JobsRepeats(
      env: Env, world: World, user: string, role: string, f: Flags,
      jobs: Outcome, status: Outcome, list: Outcome, history: Outcome)
    requires world.board.Some? && role in {"ro", "rw", "admin"}
    requires Outcomes(env, world, ["jobs"], user, role, f, jobs)
    requires Outcomes(env, world, ["status"], user, role, f, status)
    requires Outcomes(env, world, ["schedule", "list"], user, role, f, list)
    requires Outcomes(env, world, ["schedule", "history"], user, role, f, history)
    ensures status.Inline? && |status.texts| == 1 && list.Inline? && |list.texts| == 1
    ensures history.Inline? && |history.texts| == 1
    ensures jobs == Inline([
      "=== Running ===\n" + status.texts[0] + "\n=== Scheduled Jobs ===\n" + list.texts[0]
      + "\n=== Recent History ===\n" + history.texts[0]])
  {
    hide Tables.ScheduleTable, Tables.HistoryTable, Tables.JobRows, Tables.HistoryRows, Allowed, Outcomes, StatusText;
    WhoMay(["jobs"], role);
    WhoMay(["status"], role);
    TableAnswers(env, world, user, role, f, list);
    TableAnswers(env, world, user, role, f, history);
    assert VerbOf("jobs") == Jobs && VerbOf("status") == Status;
    JobsAnswer(env, world, ["jobs"], user, role, f, jobs);
    StatusAnswer(env, world, ["status"], user, role, f, status);
  }

  // ---------------------------------------------------------------- other answers

  lemma {:induction false} NamesListed(es: seq<CompareTexts.Entry>)
    ensures forall name :: name in CompareTexts.FileNames(es) <==> exists e :: e in es && !e.isDir && e.name == name
  {
    if es != [] {
      var init, last := es[..|es| - 1], es[|es| - 1];
      NamesListed(init);
      assert es == init + [last];
    }
  }

  /** "list" names every file of the report directory on a line of its own, and nothing else. */
  lemma {:induction false} ListSays(
      env: Env, world: World, user: string, role: string, f: Flags, o: Outcome, es: seq<CompareTexts.Entry>)
    requires Outcomes(env, world, ["list"], user, role, f, o) && role in {"ro", "rw", "admin"}
    requires env.entries == Some(es) && forall e :: e in es ==> OneLine(e.name)
    ensures o.Inline? && |o.texts| == 1
    ensures forall name :: name in RawLines(o.texts[0]) <==> exists e :: e in es && !e.isDir && e.name == name
  {
    hide RawLines, Outcomes, OneLine, Allowed;
    WhoMay(["list"], role);
    assert VerbOf("list") == List;
    ListAnswer(env, world, ["list"], user, role, f, o);
    NamesListed(es);
    RawLinesOfUnlines(CompareTexts.FileNames(es));
  }

  /** "data" and "fetch" answer the same. */
  lemma {:induction false} SameAnswers(
      id: string, env: Env, world: World, user: string, role: string, f: Flags, data: Outcome, fetch: Outcome)
    requires role in {"ro", "rw", "admin"}
    requires Outcomes(env, world, ["data", id], user, role, f, data)
    requires Outcomes(env, world, ["fetch", id], user, role, f, fetch)
    ensures data == fetch
  {
    hide Allowed, DataText, Outcomes;
    WhoMay(["data", id], role);
    WhoMay(["fetch", id], role);
    assert VerbOf("data") == Data && VerbOf("fetch") == Data;
    DataAnswer(env, world, ["data", id], user, role, f, data);
    DataAnswer(env, world, ["fetch", id], user, role, f, fetch);
  }

  /** "whoami" answers with the user and the role. */
  lemma {:induction false} WhoamiSays(env: Env, world: World, user: string, role: string, f: Flags, o: Outcome)
    requires role in {"ro", "rw", "admin"} && Outcomes(env, world, ["whoami"], user, role, f, o)
    ensures o == Inline([user + " " + role + "\n"])
  {
    hide Allowed, Outcomes;
    WhoMay(["whoami"], role);
    assert VerbOf("whoami") == Whoami;
    WhoamiAnswer(env, world, ["whoami"], user, role, f, o);
  }

  /** A command that the role does not allow is answered with an error that names both, and changes nothing. */
  lemma {:induction false} DeniedSays(
      parts: seq<string>, env: Env, world: World, user: string, role: string, f: Flags, o: Outcome)
    requires parts != [] && Outcomes(env, world, parts, user, role, f, o)
    requires role !in ["ro", "rw", "admin"] || (role == "ro" && parts[0] == "scan")
      || (role == "ro" && parts[0] == "schedule" && |parts| > 1 && parts[1] in ["add", "remove"])
      || (role != "admin" && parts[0] == "user" && !(|parts| > 1 && parts[1] == "passwd"))
    ensures o.Inline? && |o.texts| == 1 && "ERROR - permission denied: '" + parts[0] + "' requires the " <= o.texts[0]
    ensures UsersOf(env, world, parts, user, role) == world.users && JobsOf(world, parts, role) == world.board
  {
    hide VerbOf, Users.CommandRole, BoardAfter, Users.AfterAs;
    WhoMay(parts, role);
    DeniedStarts(parts[0], Users.CommandRole(parts), role);
  }

  lemma {:induction false} DeniedStarts(cmd: string, need: string, role: string)
    ensures "ERROR - permission denied: '" + cmd + "' requires the " <= Denied(cmd, need, role)
  {
    var text := Denied(cmd, need, role);
    var front := "ERROR - permission denied: '" + cmd + "' requires the ";
    assert text == front + (need + " role (you are " + role + ")" + "\n");
  }

  /** What an administrator's user commands are told, word by word. */
  lemma {:induction false} UserSays(
      args: seq<string>, env: Env, world: World, user: string, f: Flags, o: Outcome)
    requires Outcomes(env, world, ["user"] + args, user, "admin", f, o) && args != [] && args[0] != "list"
    ensures o.Inline? && |o.texts| == 1
    ensures Users.Succeeds(world.users, args, env.generated) ==>
      && (args[0] == "add" ==>
            o.texts[0] == "User " + args[1] + " added with role " + (if |args| >= 4 then args[3] else "ro") + "\n")
      && (args[0] == "passwd" ==> o.texts[0] == "Password updated for " + args[1] + "\n")
      && (args[0] == "role" && |args| >= 3 ==> o.texts[0] == "Role of " + args[1] + " set to " + args[2] + "\n")
      && (args[0] == "remove" ==> o.texts[0] == "User " + args[1] + " removed\n")
      && Users.Changes(world.users, args, env.generated, UsersOf(env, world, ["user"] + args, user, "admin"))
    ensures !Users.Succeeds(world.users, args, env.generated) ==>
      "ERROR - " <= o.texts[0] && UsersOf(env, world, ["user"] + args, user, "admin") == world.users
  {
    hide Outcomes, Allowed, Users.Succeeds, Users.Changes, Users.ReplyOf, Users.After, ErrorLine, UserTexts.ErrorText;
    hide UserTexts.UsageText, UserTexts.ChangedText, UserTexts.ListText;
    var parts := ["user"] + args;
    assert parts[1..] == args;
    WhoMay(parts, "admin");
    assert VerbOf("user") == User;
    UserAnswer(env, world, parts, user, "admin", f, o);
    Users.CommandEffect(world.users, args, env.generated);
    RolesForUsers("admin");
    if Users.Succeeds(world.users, args, env.generated) {
      SucceedsWords(world.users, args, env.generated);
    }
    ReplyStarts(env.w, env.usersPath, world.users, args, env.generated);
  }

  /** The named user is the one administrator there is. */
  ghost predicate OnlyAdmin(users: Users.UserMap, name: string) {
    name in users && users[name].role == "admin" && forall other :: other in users && other != name ==>
      users[other].role != "admin"
  }

  /** Why a user command of an administrator is refused, word by word. */
  lemma {:induction false} UserRefused(
      args: seq<string>, env: Env, world: World, user: string, f: Flags, o: Outcome)
    requires Outcomes(env, world, ["user"] + args, user, "admin", f, o)
    requires |args| >= 3 && args[0] in ["add", "passwd", "role", "remove"]
    ensures o.Inline? && |o.texts| == 1
    ensures args[0] == "add" && !Users.ValidName(args[1]) ==>
      "ERROR - invalid user name " + env.w.quote(args[1]) <= o.texts[0]
    ensures args[0] == "add" && Users.ValidName(args[1]) && args[1] in world.users ==>
      o.texts[0] == "ERROR - user " + env.w.quote(args[1]) + " already exists\n"
    ensures args[0] != "add" && args[1] !in world.users ==>
      o.texts[0] == "ERROR - user " + env.w.quote(args[1]) + " not found\n"
    ensures args[0] == "role" && args[1] in world.users && args[2] !in {"ro", "rw", "admin"} ==>
      "ERROR - invalid role " + env.w.quote(args[2]) <= o.texts[0]
    ensures args[0] == "passwd" && args[1] in world.users && |args[2]| < 8 ==>
      o.texts[0] == "ERROR - password must be at least 8 characters\n"
    ensures OnlyAdmin(world.users, args[1]) && args[0] == "remove" ==>
      o.texts[0] == "ERROR - " + "refusing to remove the last admin" + "\n"
    ensures OnlyAdmin(world.users, args[1]) && args[0] == "role" && args[2] in {"ro", "rw"} ==>
      o.texts[0] == "ERROR - " + "refusing to demote the last admin" + "\n"
  {
    hide Outcomes, Allowed, Users.ValidName, ErrorLine, UserTexts.UsageText, UserTexts.ChangedText, UserTexts.ListText;
    hide UserTexts.ErrorText, Users.RequestOf, Users.ReplyOf;
    var parts := ["user"] + args;
    assert parts[1..] == args;
    WhoMay(parts, "admin");
    assert VerbOf("user") == User;
    UserAnswer(env, world, parts, user, "admin", f, o);
    RolesForUsers("admin");
    RefusedReplies(world.users, args, env.generated);
    RefusedTexts(env.w, args);
    InvalidTexts(env.w, args);
    ShortText(env.w, args);
    LastAdminText(env.w, args);
    OpenLine(UserTexts.ErrorText(env.w, args, Users.LastAdmin));
  }

  /** A user command short of its words is answered with how that command is written. */
  lemma {:induction false} UserUsage(
      args: seq<string>, env: Env, world: World, user: string, f: Flags, o: Outcome)
    requires Outcomes(env, world, ["user"] + args, user, "admin", f, o) && 1 <= |args| <= 2
    ensures o.Inline? && |o.texts| == 1
    ensures args[0] == "add" ==> o.texts[0] == "ERROR - " + "usage: user add <name> <password> [ro|rw|admin]" + "\n"
    ensures args[0] == "passwd" ==> o.texts[0] == "ERROR - " + "usage: user passwd <name> <password>" + "\n"
    ensures args[0] == "role" ==> o.texts[0] == "ERROR - " + "usage: user role <name> <ro|rw|admin>" + "\n"
    ensures args == ["remove"] ==> o.texts[0] == "ERROR - " + "usage: user remove <name>" + "\n"
    ensures args[0] !in ["list", "add", "passwd", "role", "remove"] ==>
      "ERROR - " + ("unknown user sub-command: " + args[0]) + "\n" <= o.texts[0]
  {
    hide Outcomes, Allowed, UserTexts.UsageText, UserTexts.ChangedText, UserTexts.ListText, UserTexts.ErrorText;
    hide ErrorLine;
    var parts := ["user"] + args;
    assert parts[1..] == args;
    WhoMay(parts, "admin");
    assert VerbOf("user") == User;
    UserAnswer(env, world, parts, user, "admin", f, o);
    RolesForUsers("admin");
    UsageWords(args);
    OpenLine("usage: user add <name> <password> [ro|rw|admin]");
    OpenLine("usage: user passwd <name> <password>");
    OpenLine("usage: user role <name> <ro|rw|admin>");
    OpenLine("usage: user remove <name>");
    OpenLine("unknown user sub-command: " + args[0]);
  }

  lemma {:induction false} UsageWords(args: seq<string>)
    requires args != []
    ensures var text := UserTexts.UsageText(args);
      && (args[0] == "add" ==> text == ErrorLine("usage: user add <name> <password> [ro|rw|admin]"))
      && (args[0] == "passwd" ==> text == ErrorLine("usage: user passwd <name> <password>"))
      && (args[0] == "role" ==> text == ErrorLine("usage: user role <name> <ro|rw|admin>"))
      && (args[0] == "remove" ==> text == ErrorLine("usage: user remove <name>"))
      && (args[0] !in ["add", "passwd", "role", "remove"] ==>
            ErrorLine("unknown user sub-command: " + args[0]) <= text)
  {
    hide UserTexts.USER_USAGE, ErrorLine;
    assert |"role"| != |"remove"| && |"remove"| == |"passwd"| && "remove"[0] != "passwd"[0];
  }

  lemma {:induction false} RefusedReplies(users: Users.UserMap, args: seq<string>, generated: Option<string>)
    requires |args| >= 3 && args[0] in ["add", "passwd", "role", "remove"]
    ensures var reply := Users.ReplyOf(users, args, generated);
      && !reply.Listing?
      && (args[0] == "add" && !Users.ValidName(args[1]) ==> reply == Users.Error(Users.InvalidName))
      && (args[0] == "add" && Users.ValidName(args[1]) && args[1] in users ==>
          reply == Users.Error(Users.AlreadyExists))
      && (args[0] != "add" && args[1] !in users ==> reply == Users.Error(Users.NotFound))
      && (args[0] == "role" && args[1] in users && args[2] !in {"ro", "rw", "admin"} ==>
            reply == Users.Error(Users.InvalidRole))
      && (args[0] == "passwd" && args[1] in users && |args[2]| < 8 ==> reply == Users.Error(Users.ShortPassword))
      && (OnlyAdmin(users, args[1]) && (args[0] == "remove" || (args[0] == "role" && args[2] in {"ro", "rw"})) ==>
            reply == Users.Error(Users.LastAdmin))
  {
    hide Users.ValidName;
    if args[1] in users && users[args[1]].role == "admin" {
      Users.OneAdmin(users, args[1]);
    }
  }

  lemma {:induction false} LastAdminText(w: Wording, args: seq<string>)
    ensures |args| >= 1 && args[0] == "remove" ==>
      UserTexts.ErrorText(w, args, Users.LastAdmin) == "refusing to remove the last admin"
    ensures |args| >= 1 && args[0] == "role" ==>
      UserTexts.ErrorText(w, args, Users.LastAdmin) == "refusing to demote the last admin"
  {
    assert "remove" != "role";
  }

  lemma {:induction false} RefusedTexts(w: Wording, args: seq<string>)
    requires |args| >= 3
    ensures ErrorLine(UserTexts.ErrorText(w, args, Users.AlreadyExists))
         == "ERROR - user " + w.quote(args[1]) + " already exists\n"
    ensures ErrorLine(UserTexts.ErrorText(w, args, Users.NotFound))
         == "ERROR - user " + w.quote(args[1]) + " not found\n"
  {
    hide ErrorLine;
    ErrorInFull("user ", w.quote(args[1]), " already exists");
    ErrorInFull("user ", w.quote(args[1]), " not found");
  }

  lemma {:induction false} InvalidTexts(w: Wording, args: seq<string>)
    requires |args| >= 3
    ensures "ERROR - invalid user name " + w.quote(args[1])
      <= ErrorLine(UserTexts.ErrorText(w, args, Users.InvalidName))
    ensures args[0] == "role" ==>
      "ERROR - invalid role " + w.quote(args[2]) <= ErrorLine(UserTexts.ErrorText(w, args, Users.InvalidRole))
  {
    hide ErrorLine, UserTexts.ErrorText;
    var back := InvalidNameText(w, args);
    NamedError("invalid user name ", "ERROR - invalid user name ", w.quote(args[1]), back);
    if args[0] == "role" {
      var end := InvalidRoleText(w, args);
      NamedError("invalid role ", "ERROR - invalid role ", w.quote(args[2]), end);
    }
  }

  lemma {:induction false} InvalidNameText(w: Wording, args: seq<string>) returns (back: string)
    requires |args| >= 3
    ensures UserTexts.ErrorText(w, args, Users.InvalidName) == "invalid user name " + w.quote(args[1]) + back
  {
    back := " (letters, digits, '_', '.', '-'; max 32)";
  }

  lemma {:induction false} InvalidRoleText(w: Wording, args: seq<string>) returns (back: string)
    requires |args| >= 3 && args[0] == "role"
    ensures UserTexts.ErrorText(w, args, Users.InvalidRole) == "invalid role " + w.quote(args[2]) + back
  {
    back := " (use ro, rw or admin)";
    assert "role"[0] != "add"[0];
  }

  lemma {:induction false} ShortText(w: Wording, args: seq<string>)
    ensures ErrorLine(UserTexts.ErrorText(w, args, Users.ShortPassword))
         == "ERROR - password must be at least 8 characters\n"
  {}

  lemma {:induction false} NamedError(front: string, full: string, name: string, back: string)
    requires full == "ERROR - " + front
    ensures full + name <= ErrorLine(front + name + back)
  {}

  lemma {:induction false} SucceedsWords(users: Users.UserMap, args: seq<string>, generated: Option<string>)
    requires Users.Succeeds(users, args, generated)
    ensures |args| >= 2
  {}

  lemma {:induction false} UsageStarts(args: seq<string>)
    requires args != []
    ensures "ERROR - " <= UserTexts.UsageText(args)
  {
    hide UserTexts.USER_USAGE;
  }

  lemma {:induction false} ErrorStarts(msg: string)
    ensures "ERROR - " <= ErrorLine(msg)
  {}

  lemma {:induction false} ReplyStarts(
      w: Wording, path: string, users: Users.UserMap, args: seq<string>, generated: Option<string>)
    requires args != [] && args[0] != "list"
    ensures var reply := Users.ReplyOf(users, args, generated);
      var text := UserTexts.ReplyText(w, path, args, reply);
      && !reply.Listing?
      && (reply.Changed? ==> text == UserTexts.ChangedText(args))
      && (!reply.Changed? ==> "ERROR - " <= text)
    ensures var told := UserTexts.ChangedText(args);
      Users.Succeeds(users, args, generated) && |args| >= 2 ==>
        && (args[0] == "add" ==>
              told == "User " + args[1] + " added with role " + (if |args| >= 4 then args[3] else "ro") + "\n")
        && (args[0] == "passwd" ==> told == "Password updated for " + args[1] + "\n")
        && (args[0] == "role" && |args| >= 3 ==> told == "Role of " + args[1] + " set to " + args[2] + "\n")
        && (args[0] == "remove" ==> told == "User " + args[1] + " removed\n")
  {
    hide UserTexts.ErrorText, UserTexts.UsageText, ErrorLine, UserTexts.ListText;
    UsageStarts(args);
    forall msg ensures "ERROR - " <= ErrorLine(msg) {
      ErrorStarts(msg);
    }
  }

  /** Any word that is no command is answered with an error and the commands there are. */
  lemma {:induction false} UnknownSays(
      parts: seq<string>, env: Env, world: World, user: string, role: string, f: Flags, o: Outcome)
    requires parts != [] && Outcomes(env, world, parts, user, role, f, o) && role in {"ro", "rw", "admin"}
    requires parts[0] !in ["scan", "list", "data", "fetch", "compare", "quickcompare", "status", "metrics", "schedule",
                           "user", "whoami", "jobs"]
    ensures o.Inline? && |o.texts| > 0 && o.texts[0] == "ERROR - unknown command: " + parts[0] + "\n"
  {
    hide Allowed, Outcomes, VerbOf, UnknownTexts;
    WhoMay(parts, role);
    UnknownFirst(parts[0]);
    NoVerb(parts[0]);
    OtherAnswer(env, world, parts, user, role, f, o);
  }

  lemma {:induction false} UnknownFirst(cmd: string)
    ensures |UnknownTexts(cmd)| > 0 && UnknownTexts(cmd)[0] == "ERROR - unknown command: " + cmd + "\n"
  {}

  lemma {:induction false} NoVerb(word: string)
    requires word !in ["scan", "list", "data", "fetch", "compare", "quickcompare", "status", "metrics", "schedule",
                       "user", "whoami", "jobs"]
    ensures VerbOf(word) == Other
  {}

  /** A comparison that cannot be made is answered with what is wrong with the first report, or else with the second. */
  lemma {:induction false} CompareRefused(
      env: Env, files: map<string, string>, id1: string, id2: string, text: string)
    requires CompareTexts.IsAnswer(files, id1, id2, env.settings, env.w, text)
    ensures !ValidReportID(id1) ==> text == "ERROR - invalid report ID " + env.w.quote(id1) + "\n"
    ensures ValidReportID(id1) && id1 !in files ==> text == "ERROR - " + env.w.openError(id1) + "\n"
    ensures Stat(files, id1).Ok? && !ValidReportID(id2) ==>
      text == "ERROR - invalid report ID " + env.w.quote(id2) + "\n"
    ensures Stat(files, id1).Ok? && ValidReportID(id2) && id2 !in files ==>
      text == "ERROR - " + env.w.openError(id2) + "\n"
    ensures ValidReportID(id1) && id1 in files && Stat(files, id1).Err? ==>
      text == "ERROR - " + id1 + ": header not parsed" + "\n"
  {
    hide ValidReportID, Stat, CompareTexts.Compared, CompareTexts.IsCompareText, ErrorLine;
    InvalidLine(env.w.quote(id1));
    InvalidLine(env.w.quote(id2));
    OpenLine(env.w.openError(id1));
    OpenLine(env.w.openError(id2));
    OpenLine(id1 + ": header not parsed");
    AppendAssoc("ERROR - ", id1, ": header not parsed");
    StatFails(files, id1);
    NoHeader(files, id1);
    StatFails(files, id2);
  }

  lemma {:induction false} InvalidLine(quoted: string)
    ensures ErrorLine("invalid report ID " + quoted) == "ERROR - invalid report ID " + quoted + "\n"
  {
    assert "ERROR - " + "invalid report ID " == "ERROR - invalid report ID ";
    AppendAssoc("ERROR - ", "invalid report ID ", quoted);
  }

  lemma {:induction false} OpenLine(msg: string)
    ensures ErrorLine(msg) == "ERROR - " + msg + "\n"
  {}

  lemma {:induction false} StatFails(files: map<string, string>, id: string)
    ensures !ValidReportID(id) ==> Stat(files, id) == Err(InvalidID)
    ensures ValidReportID(id) && id !in files ==> Stat(files, id) == Err(CannotOpen)
  {
    hide ValidReportID, ParseHeader, FirstLine;
  }

  lemma {:induction false} NoHeader(files: map<string, string>, id: string)
    ensures ValidReportID(id) && id in files && Stat(files, id).Err? ==> Stat(files, id) == Err(HeaderNotParsed)
  {
    hide ValidReportID, FirstLine, Cut;
  }

  /** Two report files of one name, such that no other file of the name has a later date and time than the first. */
  ghost predicate LastTwoFiles(names: seq<string>, reportName: string, older: string, newer: string) {
    && older in names && newer in names && older != newer
    && ReportListing.Matching(older, reportName) && ReportListing.Matching(newer, reportName)
    && !Names.Earlier(ReportListing.TimeOf(newer), ReportListing.TimeOf(older))
    && forall file :: file in names && ReportListing.Matching(file, reportName) && file !in {older, newer} ==>
         !Names.Earlier(ReportListing.TimeOf(older), ReportListing.TimeOf(file))
  }

  /**
   * "quickcompare" answers with the comparison of the last two reports of the agent's own name, the older one first.
   */
  lemma {:induction false} QuickSays(
      env: Env, world: World, user: string, role: string, f: Flags, o: Outcome, es: seq<CompareTexts.Entry>)
    requires Outcomes(env, world, ["quickcompare"], user, role, f, o) && role in {"ro", "rw", "admin"}
    requires env.entries == Some(es) && Distinct(CompareTexts.EntryNames(es))
    ensures o.Inline? && |o.texts| == 1
    ensures |ReportListing.Matches(CompareTexts.EntryNames(es), env.reportName)| < 2 ==> "ERROR - " <= o.texts[0]
    ensures |ReportListing.Matches(CompareTexts.EntryNames(es), env.reportName)| >= 2 ==>
      exists older, newer, answer ::
        && LastTwoFiles(CompareTexts.EntryNames(es), env.reportName, older, newer)
        && CompareTexts.IsAnswer(world.files, older, newer, env.settings, env.w, answer)
        && o.texts[0] == "Quick compare \U{2014} report name: " + env.w.quote(env.reportName)
             + "\n  older: " + older + "\n  newer: " + newer + "\n\n" + answer
  {
    hide Outcomes, Allowed, CompareTexts.IsAnswer, ReportListing.Matches, ReportListing.LastTwo, LastTwoFiles, Distinct;
    WhoMay(["quickcompare"], role);
    assert VerbOf("quickcompare") == QuickCompare;
    QuickAnswer(env, world, ["quickcompare"], user, role, f, o);
    var names := CompareTexts.EntryNames(es);
    var matches := ReportListing.Matches(names, env.reportName);
    if |matches| >= 2 {
      var older, newer, answer :|
        && ReportListing.LastTwo(matches, older, newer)
        && CompareTexts.IsAnswer(world.files, older.name, newer.name, env.settings, env.w, answer)
        && o.texts[0] == CompareTexts.QuickHead(env.w, env.reportName, older.name, newer.name) + answer;
      ChosenFiles(names, env.reportName, older, newer);
      assert LastTwoFiles(names, env.reportName, older.name, newer.name);
    }
  }

  lemma {:induction false} ChosenFiles(
      names: seq<string>, reportName: string, older: ReportListing.Match, newer: ReportListing.Match)
    requires Distinct(names) && ReportListing.LastTwo(ReportListing.Matches(names, reportName), older, newer)
    ensures LastTwoFiles(names, reportName, older.name, newer.name)
  {
    hide Names.Earlier, ReportListing.TimeOf, ReportListing.Matching, ReportListing.Matches, ReportListing.LastTwo;
    hide Distinct;
    ReportListing.LastTwoMatch(names, reportName, older, newer);
    ReportListing.ChosenAreLatest(names, reportName, older, newer, older.name);
    forall file | file in names && ReportListing.Matching(file, reportName)
      ensures file in {older.name, newer.name}
        || !Names.Earlier(ReportListing.TimeOf(older.name), ReportListing.TimeOf(file))
    {
      ReportListing.ChosenAreLatest(names, reportName, older, newer, file);
    }
  }

  // ---------------------------------------------------------------- changing the jobs

  /**
   * A client that adds a job by one payload: the board gets the job at its end if the command is "scan", cron
   * accepts the expression and no job has the name, and otherwise stays as it is with an error for an answer.
   */
  lemma {:induction false} RemoteAdd(
      name: string, cron: string, command: string, user: string, role: string, env: Env, world: World, f: Flags,
      o: Outcome)
    requires '|' !in name && '|' !in cron && ScheduleCommand.Squeezed(name) && ScheduleCommand.Squeezed(cron)
    requires ScheduleCommand.Squeezed(command) && world.board.Some? && role in {"rw", "admin"}
    requires ServerParts(ReceivedLine(ClientLine(["schedule", "add", name + "|" + cron + "|" + command]))) != []
    requires Outcomes(env, world,
      ServerParts(ReceivedLine(ClientLine(["schedule", "add", name + "|" + cron + "|" + command]))), user, role, f, o)
    ensures
      var parts := ServerParts(ReceivedLine(ClientLine(["schedule", "add", name + "|" + cron + "|" + command])));
      var b := world.board.value;
      var fits := command == "scan" && b.valid(cron) && forall j :: j in b.jobs ==> j.name != name;
      && JobsOf(world, parts, role)
         == Some(Board(b.jobs + if fits then [SchedJob(name, cron, command)] else [], b.history, b.valid))
      && o.Inline? && |o.texts| == 1
      && (fits ==> o.texts[0] == "Job " + name + " scheduled (" + cron + " \U{2192} " + command + ")\n")
      && (!fits ==> "ERROR - " <= o.texts[0])
      && (command != "scan" ==> "ERROR - unsupported command " <= o.texts[0])
      && (command == "scan" && (exists j :: j in b.jobs && j.name == name) ==>
            o.texts[0] == "ERROR - job " + env.w.quote(name) + " already exists\n")
      && (command == "scan" && (forall j :: j in b.jobs ==> j.name != name) && !b.valid(cron) ==>
            "ERROR - invalid schedule " + env.w.quote(cron) <= o.texts[0])
  {
    hide ScheduleCommand.Squeezed, ServerParts, ReceivedLine, ClientLine, JobFields, Outcomes, Allowed, HasJob;
    hide ErrorLine;
    hide AddErrorText, Join;
    assert name + "|" + cron + "|" + command == ScheduleCommand.Payload(name, cron, command);
    Remote.AddReceived(name, cron, command);
    var parts := ServerParts(ReceivedLine(ClientLine(["schedule", "add", name + "|" + cron + "|" + command])));
    AddParts(name + "|" + cron + "|" + command);
    WhoMay(parts, role);
    assert VerbOf("schedule") == Schedule && SubVerbOf("add") == Add;
    ScheduleAnswer(env, world, parts, user, role, f, o);
    var b := world.board.value;
    assert b.jobs + [] == b.jobs;
    NameFree(b.jobs, name);
    AddAnswered(env.w, b, Join(parts[2..], ' '), SchedJob(name, cron, command));
    if command == "scan" && !HasJob(b.jobs, name) && !b.valid(cron) {
      BadScheduleAnswered(env.w, b, Join(parts[2..], ' '), SchedJob(name, cron, command));
    }
  }

  lemma {:induction false} AddParts(payload: string)
    ensures var parts := ServerParts(ReceivedLine(ClientLine(["schedule", "add", payload])));
      |parts| >= 2 && parts[0] == "schedule" && parts[1] == "add"
  {
    hide ServerParts, ReceivedLine, ClientLine;
    assert Word("schedule") && Word("add");
    var sent := Remote.PartsOfThree("schedule", "add", payload);
  }

  lemma {:induction false} NameFree(jobs: seq<SchedJob>, name: string)
    ensures HasJob(jobs, name) <==> exists j :: j in jobs && j.name == name
  {
    if j :| j in jobs && j.name == name {
      var i :| 0 <= i < |jobs| && jobs[i] == j;
    }
  }

  lemma {:induction false} AddAnswered(w: Wording, b: Board, payload: string, j: SchedJob)
    requires JobFields(payload) == Some(j)
    ensures RefuseAdd(b.jobs, j, b.valid).Some? ==> "ERROR - " <= AddText(w, b, payload)
    ensures RefuseAdd(b.jobs, j, b.valid).None? ==>
      AddText(w, b, payload) == "Job " + j.name + " scheduled (" + j.schedule + " \U{2192} " + j.command + ")\n"
    ensures j.command != "scan" ==> "ERROR - unsupported command " <= AddText(w, b, payload)
    ensures j.command == "scan" && HasJob(b.jobs, j.name) ==>
      AddText(w, b, payload) == "ERROR - job " + w.quote(j.name) + " already exists\n"
    ensures RefuseAdd(b.jobs, j, b.valid).None?
       <==> j.command == "scan" && b.valid(j.schedule) && !HasJob(b.jobs, j.name)
  {
    hide JobFields, HasJob, ErrorLine;
    forall msg ensures "ERROR - " <= ErrorLine(msg) {
      ErrorStarts(msg);
    }
    ErrorInFull("job ", w.quote(j.name), " already exists");
    ErrorInFull("unsupported command ", w.quote(j.command), " (only 'scan' is supported)");
  }

  lemma {:induction false} BadScheduleAnswered(w: Wording, b: Board, payload: string, j: SchedJob)
    requires JobFields(payload) == Some(j) && j.command == "scan" && !HasJob(b.jobs, j.name) && !b.valid(j.schedule)
    ensures "ERROR - invalid schedule " + w.quote(j.schedule) <= AddText(w, b, payload)
  {
    hide JobFields, HasJob, ErrorLine, AddErrorText;
    BadScheduleText(w, j);
    NamedError("invalid schedule ", "ERROR - invalid schedule ", w.quote(j.schedule), ": " + w.cronError(j.schedule));
  }

  lemma {:induction false} BadScheduleText(w: Wording, j: SchedJob)
    ensures AddErrorText(w, j, BadSchedule)
      == "invalid schedule " + w.quote(j.schedule) + (": " + w.cronError(j.schedule))
  {}

  lemma {:induction false} ErrorInFull(front: string, middle: string, back: string)
    ensures ErrorLine(front + middle + back) == "ERROR - " + front + middle + back + "\n"
    ensures "ERROR - " + front <= ErrorLine(front + middle + back)
  {}

  /**
   * A client that removes a job: the first job of the name goes and the others stay, or nothing changes and it is
   * told.
   */
  lemma {:induction false} RemoteRemove(
      name: string, user: string, role: string, env: Env, world: World, f: Flags, o: Outcome)
    requires Word(name) && world.board.Some? && role in {"rw", "admin"}
    requires Outcomes(env, world, ["schedule", "remove", name], user, role, f, o)
    ensures ServerParts(ReceivedLine(ClientLine(["schedule", "remove", name]))) == ["schedule", "remove", name]
    ensures JobsOf(world, ["schedule", "remove", name], role).Some?
    ensures
      var jobs, left := world.board.value.jobs, JobsOf(world, ["schedule", "remove", name], role).value.jobs;
      && (forall i :: 0 <= i < |jobs| && jobs[i].name == name && (forall k :: 0 <= k < i ==> jobs[k].name != name) ==>
            left == jobs[..i] + jobs[i + 1..])
      && ((forall j :: j in jobs ==> j.name != name) ==> left == jobs)
      && o.Inline? && |o.texts| == 1
      && ((exists j :: j in jobs && j.name == name) ==> o.texts[0] == "Job " + name + " removed\n")
      && ((forall j :: j in jobs ==> j.name != name) ==> "ERROR - " <= o.texts[0])
  {
    hide ServerParts, ReceivedLine, ClientLine, Outcomes, Allowed, HasJob, WithoutJob, ErrorLine;
    RemoveWords(name);
    Remote.WordsReceived(["schedule", "remove", name]);
    WhoMay(["schedule", "remove", name], role);
    assert VerbOf("schedule") == Schedule && SubVerbOf("remove") == Remove;
    ScheduleAnswer(env, world, ["schedule", "remove", name], user, role, f, o);
    var b := world.board.value;
    NameFree(b.jobs, name);
    RemoveAnswered(env.w, b, name);
    forall i | 0 <= i < |b.jobs| && b.jobs[i].name == name && (forall k :: 0 <= k < i ==> b.jobs[k].name != name)
      ensures WithoutJob(b.jobs, name) == b.jobs[..i] + b.jobs[i + 1..]
    {
      FirstJobOut(b.jobs, i, name);
    }
    if forall j :: j in b.jobs ==> j.name != name {
      NoJobOut(b.jobs, name);
    }
  }

  lemma {:induction false} RemoveWords(name: string)
    requires Word(name)
    ensures forall a :: a in ["schedule", "remove", name] ==> Word(a)
  {}

  lemma {:induction false} RemoveAnswered(w: Wording, b: Board, name: string)
    ensures HasJob(b.jobs, name) ==> RemoveText(w, b, name) == "Job " + name + " removed\n"
    ensures !HasJob(b.jobs, name) ==> "ERROR - " <= RemoveText(w, b, name)
  {
    hide HasJob;
  }
}
