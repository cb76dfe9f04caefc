/** The schedule and history tables the agent prints, and the rows the GUI reads back from them. */
module Tables {
  import opened Text
  import opened Scheduler
  import opened Matcher

  datatype Row = Row(name: string, schedule: string, command: string, next: string)

  datatype HistoryRow = HistoryRow(name: string, start: string, end: string, status: string)

  const DASH := "-"
  const NO_JOBS := "No jobs scheduled"
  const NO_HISTORY := "No job history"

  // ---------------------------------------------------------------- printing

  function ScheduleText(name: string, schedule: string, command: string, next: string): string {
    PadRight(name, 20) + " " + PadRight(schedule, 22) + " " + PadRight(command, 8) + " " + next
  }

  function HistoryText(name: string, start: string, end: string, status: string): string {
    PadRight(name, 20) + " " + PadRight(start, 20) + " " + PadRight(end, 20) + " " + status
  }

  function RowText(r: Row): string {
    ScheduleText(r.name, r.schedule, r.command, r.next)
  }

  function HistoryRowText(r: HistoryRow): string {
    HistoryText(r.name, r.start, r.end, r.status)
  }

  function RowTexts(rows: seq<Row>): seq<string> {
    seq(|rows|, i requires 0 <= i < |rows| => RowText(rows[i]))
  }

  function HistoryTexts(rows: seq<HistoryRow>): seq<string> {
    seq(|rows|, i requires 0 <= i < |rows| => HistoryRowText(rows[i]))
  }

  function ScheduleHead(): seq<string> {
    [ScheduleText("NAME", "SCHEDULE", "COMMAND", "NEXT_RUN"), Repeat('-', 80)]
  }

  function HistoryHead(): seq<string> {
    [HistoryText("NAME", "START", "END", "STATUS"), Repeat('-', 85)]
  }

  function ScheduleTable(rows: seq<Row>): string {
    if rows == [] then NO_JOBS + "\n" else Unlines(ScheduleHead() + RowTexts(rows))
  }

  function HistoryTable(rows: seq<HistoryRow>): string {
    if rows == [] then NO_HISTORY + "\n" else Unlines(HistoryHead() + HistoryTexts(rows))
  }

  /** The rows of the jobs; `next` is the next run of a job as cron knows it, formatted, or "-". */
  function JobRows(jobs: seq<SchedJob>, next: SchedJob -> string): seq<Row> {
    seq(|jobs|, i requires 0 <= i < |jobs| => Row(jobs[i].name, jobs[i].schedule, jobs[i].command, next(jobs[i])))
  }

  /** The end of a run, a dash while it is running. */
  function EndText(r: JobRun, format: nat -> string): string {
    if r.end != 0 && r.status != RUNNING then format(r.end) else DASH
  }

  function HistoryRowOf(r: JobRun, format: nat -> string): HistoryRow {
    HistoryRow(r.name, format(r.start), EndText(r, format), r.status)
  }

  /** The rows of the history, newest first. */
  function HistoryRows(history: seq<JobRun>, format: nat -> string): seq<HistoryRow> {
    seq(|history|, i requires 0 <= i < |history| => HistoryRowOf(history[|history| - 1 - i], format))
  }

  /** What ListJobs has written after some jobs. */
  function JobsPrinted(jobs: seq<SchedJob>, next: SchedJob -> string, done: nat): string
    requires done <= |jobs|
  {
    Unlines(ScheduleHead() + RowTexts(JobRows(jobs[..done], next)))
  }

  method ListJobs(jobs: seq<SchedJob>, next: SchedJob -> string) returns (out: string)
    ensures out == ScheduleTable(JobRows(jobs, next))
  {
    hide JobsPrinted, ScheduleText, ScheduleHead, ScheduleTable, JobRows, Unlines;
    if |jobs| == 0 {
      NoTable(next);
      return NO_JOBS + "\n";
    }
    var sb := Unlines(ScheduleHead());
    JobsPrintedEnds(jobs, next);
    for i := 0 to |jobs|
      invariant sb == JobsPrinted(jobs, next, i)
    {
      var j := jobs[i];
      JobsPrintedNext(jobs, next, i);
      sb := sb + ScheduleText(j.name, j.schedule, j.command, next(j)) + "\n";
    }
    out := sb;
  }

  lemma {:induction false} NoTable(next: SchedJob -> string)
    ensures ScheduleTable(JobRows([], next)) == NO_JOBS + "\n"
  {}

  lemma {:induction false} JobsPrintedEnds(jobs: seq<SchedJob>, next: SchedJob -> string)
    requires jobs != []
    ensures JobsPrinted(jobs, next, 0) == Unlines(ScheduleHead())
    ensures JobsPrinted(jobs, next, |jobs|) == ScheduleTable(JobRows(jobs, next))
  {
    hide ScheduleHead;
    assert ScheduleHead() + RowTexts(JobRows(jobs[..0], next)) == ScheduleHead();
    assert jobs[..|jobs|] == jobs;
  }

  lemma {:induction false} JobsPrintedNext(jobs: seq<SchedJob>, next: SchedJob -> string, i: nat)
    requires i < |jobs|
    ensures var j := jobs[i];
      JobsPrinted(jobs, next, i + 1)
      == JobsPrinted(jobs, next, i) + ScheduleText(j.name, j.schedule, j.command, next(j)) + "\n"
  {
    hide ScheduleText, ScheduleHead, Unlines;
    var j := jobs[i];
    var line := ScheduleText(j.name, j.schedule, j.command, next(j));
    var lines := ScheduleHead() + RowTexts(JobRows(jobs[..i], next));
    assert RowText(JobRows(jobs[..i + 1], next)[i]) == line;
    assert ScheduleHead() + RowTexts(JobRows(jobs[..i + 1], next)) == lines + [line];
    UnlinesSnoc(lines, line);
  }

  method ListHistory(history: seq<JobRun>, format: nat -> string) returns (out: string)
    ensures out == HistoryTable(HistoryRows(history, format))
  {
    if |history| == 0 {
      return NO_HISTORY + "\n";
    }
    var head := HistoryHead();
    ghost var rows := HistoryRows(history, format);
    var sb := PrintHistory(head, history, format);
    assert rows != [];
    out := sb;
  }

  /** What the loop of ListHistory has written after some rows. */
  function Printed(head: seq<string>, rows: seq<HistoryRow>, done: nat): string
    requires done <= |rows|
  {
    Unlines(head + HistoryTexts(rows[..done]))
  }

  method EndColumn(r: JobRun, format: nat -> string) returns (end: string)
    ensures end == EndText(r, format)
  {
    end := DASH;
    if r.end != 0 && r.status != RUNNING {
      end := format(r.end);
    }
  }

  /** The loop of ListHistory, newest entry first. */
  method PrintHistory(head: seq<string>, history: seq<JobRun>, format: nat -> string) returns (sb: string)
    ensures sb == Unlines(head + HistoryTexts(HistoryRows(history, format)))
  {
    hide HistoryText, HistoryTexts, HistoryRowText, HistoryRows, Unlines, Printed, EndText;
    sb := Unlines(head);
    ghost var rows := HistoryRows(history, format);
    PrintedEnds(head, history, format);
    var i := |history| - 1;
    while i >= 0
      invariant -1 <= i < |history|
      invariant sb == Printed(head, rows, |history| - 1 - i)
    {
      var r := history[i];
      var end := EndColumn(r, format);
      PrintNext(head, history, format, |history| - 1 - i);
      sb := sb + HistoryText(r.name, format(r.start), end, r.status) + "\n";
      i := i - 1;
    }
  }

  lemma {:induction false} PrintedEnds(head: seq<string>, history: seq<JobRun>, format: nat -> string)
    ensures var rows := HistoryRows(history, format);
      && |rows| == |history|
      && Printed(head, rows, 0) == Unlines(head)
      && Printed(head, rows, |rows|) == Unlines(head + HistoryTexts(rows))
  {
    var rows := HistoryRows(history, format);
    assert head + HistoryTexts(rows[..0]) == head;
    assert rows[..|rows|] == rows;
  }

  lemma {:induction false} PrintNext(head: seq<string>, history: seq<JobRun>, format: nat -> string, done: nat)
    requires done < |history|
    ensures
      var rows := HistoryRows(history, format);
      var r := history[|history| - 1 - done];
      var end := EndText(r, format);
      Printed(head, rows, done + 1) == Printed(head, rows, done) + HistoryText(r.name, format(r.start), end, r.status)
          + "\n"
  {
    hide HistoryText, Unlines;
    var rows := HistoryRows(history, format);
    var lines := head + HistoryTexts(rows[..done]);
    assert rows[done] == HistoryRowOf(history[|history| - 1 - done], format);
    assert head + HistoryTexts(rows[..done + 1]) == lines + [HistoryRowText(rows[done])];
    UnlinesSnoc(lines, HistoryRowText(rows[done]));
  }

  // ---------------------------------------------------------------- parsing

  /** `\s*$` */
  function LastItems(): seq<Item> {
    [Run(Blank, 0, true)]
  }

  function ScheduleItems(): seq<Item> {
    [Run(NonBlank, 1, true)] + ([Run(Blank, 1, true)] + ([Run(AnyChar, 1, false)] + TailItems()))
  }

  /** `\s+(\S+)\s+(stamp|-)\s*$` */
  function TailItems(): seq<Item> {
    [Run(Blank, 1, true)] + ([Run(NonBlank, 1, true)] + ([Run(Blank, 1, true)] + ([StampOrDash] + LastItems())))
  }

  function HistoryItems(): seq<Item> {
    [Run(NonBlank, 1, true)] + ([Run(Blank, 1, true)] + ([Stamp] + ([Run(Blank, 1, true)]
    + ([StampOrDash] + ([Run(Blank, 1, true)] + StatusItems())))))
  }

  function ParseRow(line: string): Option<Row> {
    match Match(ScheduleItems(), TrimSpace(line))
    case None => None
    case Some(m) =>
      if |m| != 8 || m[0] == "NAME" then None else Some(Row(m[0], m[2], m[4], m[6]))
  }

  function ParseHistoryRow(line: string): Option<HistoryRow> {
    match Match(HistoryItems(), TrimSpace(line))
    case None => None
    case Some(m) => if |m| != 8 then None else Some(HistoryRow(m[0], m[2], m[4], m[6]))
  }

  function Collect<T>(lines: seq<string>, parse: string -> Option<T>): seq<T> {
    if lines == [] then []
    else
      var before := Collect(lines[..|lines| - 1], parse);
      match parse(lines[|lines| - 1])
      case Some(row) => before + [row]
      case None => before
  }

  method ParseScheduleList(raw: string) returns (out: seq<Row>)
    ensures out == Collect(Split(raw, '\n'), ParseRow)
  {
    hide ParseRow, Split;
    var lines := Split(raw, '\n');
    out := [];
    for i := 0 to |lines|
      invariant out == Collect(lines[..i], ParseRow)
    {
      assert lines[..i + 1][..i] == lines[..i];
      var r := ParseRow(lines[i]);
      if r.Some? {
        out := out + [r.value];
      }
    }
    assert lines[..|lines|] == lines;
  }

  method ParseHistoryList(raw: string) returns (out: seq<HistoryRow>)
    ensures out == Collect(Split(raw, '\n'), ParseHistoryRow)
  {
    hide ParseHistoryRow, Split;
    var lines := Split(raw, '\n');
    out := [];
    for i := 0 to |lines|
      invariant out == Collect(lines[..i], ParseHistoryRow)
    {
      assert lines[..i + 1][..i] == lines[..i];
      var r := ParseHistoryRow(lines[i]);
      if r.Some? {
        out := out + [r.value];
      }
    }
    assert lines[..|lines|] == lines;
  }

  // ---------------------------------------------------------------- which rows can be read back

  predicate NonBlankWord(s: string) {
    s != "" && AllIn(s, NonBlank)
  }

  /** A name the patterns read as one: not empty, no blank in it, nothing trimmed at its beginning. */
  predicate NameFits(name: string) {
    NonBlankWord(name) && !IsSpace(name[0])
  }

  predicate ReadableRow(r: Row) {
    NameFits(r.name) && r.name != "NAME" && NonBlankWord(r.command)
  }

  /** What the scheduler guarantees of a job: a trimmed schedule cron accepts, everything on one line. */
  predicate ScheduledRow(r: Row) {
    && OneLine(r.name) && OneLine(r.schedule) && OneLine(r.command)
    && r.schedule != "" && Trimmed(r.schedule)
    && StampOrDashText(r.next)
  }

  lemma {:induction false} ReSpaceIsSpace(c: char)
    ensures ReSpace(c) ==> IsSpace(c)
  {}

  /** Printed columns: the text, then at least one blank. */
  lemma {:induction false} Padded(s: string, n: nat) returns (gap: string)
    ensures PadRight(s, n) + " " == s + gap && gap != "" && AllIn(gap, Blank)
  {
    gap := (if |s| < n then Repeat(' ', n - |s|) else "") + " ";
    assert s + "" == s;
  }

  lemma {:induction false} RowParts(r: Row) returns (w1: string, w2: string, w3: string)
    ensures RowText(r) == r.name + (w1 + (r.schedule + (w2 + (r.command + (w3 + r.next)))))
    ensures AllIn(w1, Blank) && AllIn(w2, Blank) && AllIn(w3, Blank) && w1 != "" && w2 != "" && w3 != ""
  {
    w1 := Padded(r.name, 20);
    w2 := Padded(r.schedule, 22);
    w3 := Padded(r.command, 8);
    assert RowText(r) == (PadRight(r.name, 20) + " ")
      + ((PadRight(r.schedule, 22) + " ") + ((PadRight(r.command, 8) + " ") + r.next));
  }

  lemma {:induction false} EndsOfStamp(x: string)
    requires StampOrDashText(x)
    ensures x != "" && !ReSpace(x[0]) && !IsSpace(x[0]) && !ReSpace(x[|x| - 1]) && !IsSpace(x[|x| - 1])
  {}

  // ---------------------------------------------------------------- reading the end of a row

  /** The end of a schedule row matches the end of the pattern. */
  lemma {:induction false} TailMatches(w2: string, command: string, w3: string, next: string)
    requires AllIn(w2, Blank) && w2 != "" && AllIn(w3, Blank) && w3 != ""
    requires NonBlankWord(command) && StampOrDashText(next)
    ensures Match(TailItems(), w2 + (command + (w3 + next))) == Some([w2] + ([command] + ([w3] + ([next] + [""]))))
  {
    EndsOfStamp(next);
    NothingLeft();
    assert next + "" == next;
    GreedyTakes(Blank, 1, [StampOrDash] + LastItems(), w3, next);
    GreedyTakes(NonBlank, 1, [Run(Blank, 1, true)] + ([StampOrDash] + LastItems()), command, w3 + next);
    GreedyTakes(Blank, 1, [Run(NonBlank, 1, true)] + ([Run(Blank, 1, true)] + ([StampOrDash] + LastItems())), w2,
        command + (w3 + next));
  }

  lemma {:induction false} TailPieces(s: string) returns (v1: string, token: string, v2: string, g: string, v3: string)
    requires Match(TailItems(), s).Some?
    ensures s == v1 + (token + (v2 + (g + v3)))
    ensures AllIn(v1, Blank) && v1 != "" && NonBlankWord(token) && AllIn(v2, Blank) && v2 != "" && StampOrDashText(g)
      && AllIn(v3, Blank)
  {
    var items := TailItems();
    MatchSound(items, s);
    var m := Match(items, s).value;
    v1, token, v2, g, v3 := m[0], m[1], m[2], m[3], m[4];
    assert Fits(items[0], m[0]) && Fits(items[1], m[1]) && Fits(items[2], m[2]) && Fits(items[3], m[3])
      && Fits(items[4], m[4]);
    GlueFive(m);
  }

  lemma {:induction false} GlueFive(m: seq<string>)
    requires |m| == 5
    ensures Glue(m) == m[0] + (m[1] + (m[2] + (m[3] + m[4])))
  {
    assert m[1..][1..] == m[2..] && m[2..][1..] == m[3..] && m[3..][1..] == m[4..] && m[4..][1..] == [];
    assert Glue(m[4..]) == m[4];
    assert Glue(m[3..]) == m[3] + Glue(m[4..]);
    assert Glue(m[2..]) == m[2] + Glue(m[3..]);
    assert Glue(m[1..]) == m[1] + Glue(m[2..]);
  }

  /** No earlier end: the end of the pattern does not match while a part of the schedule is left. */
  lemma {:induction false} TailOnlyAtEnd(left: string, w2: string, command: string, w3: string, next: string)
    requires left != "" && !ReSpace(left[|left| - 1])
    requires AllIn(w2, Blank) && w2 != "" && AllIn(w3, Blank) && w3 != ""
    requires NonBlankWord(command) && StampOrDashText(next)
    ensures Match(TailItems(), left + (w2 + (command + (w3 + next)))) == None
  {
    var s := left + (w2 + (command + (w3 + next)));
    assert (left + w2)[|left| - 1] == left[|left| - 1];
    if Match(TailItems(), s).Some? {
      var v1, token, v2, g, v3 := TailPieces(s);
      OneTail(left, w2, command, w3, next, v1, token, v2, g, v3);
    }
  }

  /** Two cuts of one text into something and a row's end agree in what comes before the command. */
  lemma {:induction false} OneTail(
    left: string, w2: string, command: string, w3: string, next: string,
    v1: string, token: string, v2: string, g: string, v3: string)
    requires AllIn(w2, Blank) && w2 != "" && AllIn(w3, Blank) && w3 != "" && NonBlankWord(command)
      && StampOrDashText(next)
    requires AllIn(v1, Blank) && v1 != "" && NonBlankWord(token) && AllIn(v2, Blank) && v2 != "" && StampOrDashText(g)
      && AllIn(v3, Blank)
    requires left + (w2 + (command + (w3 + next))) == v1 + (token + (v2 + (g + v3)))
    ensures left + w2 == v1
  {
    EndsOfStamp(next);
    EndsOfStamp(g);
    var a, b := left + w2 + command + w3 + next, v1 + token + v2 + g;
    assert a + "" == b + v3 by {
      assert a == left + (w2 + (command + (w3 + next)));
      assert b + v3 == v1 + (token + (v2 + (g + v3)));
    }
    SameCut(a, "", b, v3, Blank);
    SameEnd(left + w2 + command + w3, next, v1 + token + v2, g);
    SameCut(left + w2 + command, w3, v1 + token, v2, Blank);
    SameCut(left + w2, command, v1, token, NonBlank);
  }

  // ---------------------------------------------------------------- reading a schedule row

  lemma {:induction false} AnyCharOf(s: string)
    requires OneLine(s)
    ensures AllIn(s, AnyChar)
  {
    forall i | 0 <= i < |s| ensures s[i] != '\n' {
      assert s[i] in s;
    }
  }

  lemma {:induction false} RowMatches(r: Row, w1: string, w2: string, w3: string)
    requires ScheduledRow(r) && ReadableRow(r)
    requires AllIn(w1, Blank) && w1 != "" && AllIn(w2, Blank) && w2 != "" && AllIn(w3, Blank) && w3 != ""
    ensures Match(ScheduleItems(), r.name + (w1 + (r.schedule + (w2 + (r.command + (w3 + r.next))))))
         == Some([r.name] + ([w1] + ([r.schedule] + ([w2] + ([r.command] + ([w3] + ([r.next] + [""])))))))
  {
    var tail := w2 + (r.command + (w3 + r.next));
    TailMatches(w2, r.command, w3, r.next);
    AnyCharOf(r.schedule);
    ReSpaceIsSpace(r.schedule[0]);
    ReSpaceIsSpace(r.schedule[|r.schedule| - 1]);
    forall n | 1 <= n < |r.schedule| ensures Match(TailItems(), r.schedule[n..] + tail) == None {
      TailOnlyAtEnd(r.schedule[n..], w2, r.command, w3, r.next);
    }
    LazyTakes(AnyChar, 1, TailItems(), r.schedule, tail);
    GreedyTakes(Blank, 1, [Run(AnyChar, 1, false)] + TailItems(), w1, r.schedule + tail);
    GreedyTakes(NonBlank, 1, [Run(Blank, 1, true)] + ([Run(AnyChar, 1, false)] + TailItems()), r.name,
        w1 + (r.schedule + tail));
  }

  /** A row is read back exactly when its name and command are words and the name is not the header's. */
  lemma {:induction false} RowRoundTrip(r: Row)
    requires ScheduledRow(r)
    ensures ParseRow(RowText(r)) == Some(r) <==> ReadableRow(r)
  {
    hide ParseRow, RowText, ReadableRow, ScheduledRow;
    if ReadableRow(r) {
      ReadableRowRead(r);
    }
    if ParseRow(RowText(r)) == Some(r) {
      ReadRowReadable(r);
    }
  }

  lemma {:induction false} ReadableRowRead(r: Row)
    requires ScheduledRow(r) && ReadableRow(r)
    ensures ParseRow(RowText(r)) == Some(r)
  {
    hide RowText, ScheduleItems, Match, StampOrDashText, Trimmed;
    var w1, w2, w3 := RowParts(r);
    RowMatches(r, w1, w2, w3);
    RowTrimmed(r, w1, w2, w3);
    TrimSelf(RowText(r));
  }

  lemma {:induction false} RowTrimmed(r: Row, w1: string, w2: string, w3: string)
    requires NameFits(r.name) && StampOrDashText(r.next)
    ensures Trimmed(r.name + (w1 + (r.schedule + (w2 + (r.command + (w3 + r.next))))))
  {
    hide StampOrDashText;
    EndsOfStamp(r.next);
    var line := r.name + (w1 + (r.schedule + (w2 + (r.command + (w3 + r.next)))));
    assert line[0] == r.name[0] && line[|line| - 1] == r.next[|r.next| - 1];
  }

  lemma {:induction false} ReadRowReadable(r: Row)
    requires ParseRow(RowText(r)) == Some(r)
    ensures ReadableRow(r)
  {
    hide RowText, Match, TrimSpace;
    var t := TrimSpace(RowText(r));
    var left, right := TrimSpaceSplits(RowText(r));
    var items := ScheduleItems();
    MatchSound(items, t);
    var m := Match(items, t).value;
    assert Fits(items[0], m[0]) && Fits(items[4], m[4]);
    assert t == m[0] + Glue(m[1..]);
    assert t[0] == m[0][0];
  }

  // ---------------------------------------------------------------- reading the whole table

  lemma {:induction false} CollectAppend<T>(a: seq<string>, b: seq<string>, parse: string -> Option<T>)
    ensures Collect(a + b, parse) == Collect(a, parse) + Collect(b, parse)
  {
    if b == [] {
      assert a + b == a;
    } else {
      assert (a + b)[..|a + b| - 1] == a + b[..|b| - 1];
      CollectAppend(a, b[..|b| - 1], parse);
    }
  }

  /** Lines give the wanted rows exactly when each line gives its row. */
  lemma {:induction false} CollectExactly<T>(lines: seq<string>, rows: seq<T>, parse: string -> Option<T>)
    requires |lines| == |rows|
    ensures |Collect(lines, parse)| <= |lines|
    ensures Collect(lines, parse) == rows <==> forall i :: 0 <= i < |rows| ==> parse(lines[i]) == Some(rows[i])
  {
    if lines != [] {
      var n := |lines| - 1;
      CollectExactly(lines[..n], rows[..n], parse);
      var before := Collect(lines[..n], parse);
      if Collect(lines, parse) == rows {
        assert parse(lines[n]).Some?;
        assert rows == before + [parse(lines[n]).value];
        assert rows[..n] == before;
      }
      if forall i :: 0 <= i < |rows| ==> parse(lines[i]) == Some(rows[i]) {
        assert rows == rows[..n] + [rows[n]];
      }
    }
  }

  lemma {:induction false} CollectNothing<T>(lines: seq<string>, parse: string -> Option<T>)
    requires forall i :: 0 <= i < |lines| ==> parse(lines[i]).None?
    ensures Collect(lines, parse) == []
  {
    if lines != [] {
      CollectNothing(lines[..|lines| - 1], parse);
    }
  }

  /** The lines of a table: head, rows, and the empty piece after the last newline. */
  lemma {:induction false} CollectTable<T>(
      head: seq<string>, texts: seq<string>, rows: seq<T>, parse: string -> Option<T>)
    requires |texts| == |rows|
    requires forall i :: 0 <= i < |head| ==> OneLine(head[i]) && parse(head[i]).None?
    requires parse("").None? && forall i :: 0 <= i < |texts| ==> OneLine(texts[i])
    ensures Collect(Split(Unlines(head + texts), '\n'), parse) == rows
       <==> forall i :: 0 <= i < |rows| ==> parse(texts[i]) == Some(rows[i])
  {
    var lines := head + texts;
    forall l | l in lines ensures OneLine(l) {
      var i :| 0 <= i < |lines| && lines[i] == l;
    }
    SplitOfUnlines(lines, "");
    assert Unlines(lines) + "" == Unlines(lines);
    CollectAppend(head + texts, [""], parse);
    CollectAppend(head, texts, parse);
    CollectNothing(head, parse);
    CollectNothing([""], parse);
    CollectExactly(texts, rows, parse);
  }

  /** A row ends in a time stamp or a dash. */
  lemma {:induction false} RowEnds(t: string)
    requires Trimmed(t) && Match(ScheduleItems(), t).Some?
    ensures t != "" && (t[|t| - 1] == '-' || IsDigit(t[|t| - 1]))
  {
    var items := ScheduleItems();
    MatchSound(items, t);
    var m := Match(items, t).value;
    assert Fits(items[0], m[0]) && Fits(items[6], m[6]) && Fits(items[7], m[7]);
    var front := GlueEnd(m);
    EndsOfStamp(m[6]);
    LastOfTrimmed(front, m[6], m[7]);
  }

  /** A line whose trimmed text does not end in a dash or a digit is no schedule row. */
  lemma {:induction false} NotARow(line: string)
    requires TrimSpace(line) != "" ==>
      var t := TrimSpace(line); t[|t| - 1] != '-' && !IsDigit(t[|t| - 1])
    ensures ParseRow(line).None?
  {
    hide Match, TrimSpace, IsDigit, Trimmed;
    var left, right := TrimSpaceSplits(line);
    if Match(ScheduleItems(), TrimSpace(line)).Some? {
      RowEnds(TrimSpace(line));
    }
  }

  lemma {:induction false} GlueEnd(m: seq<string>) returns (front: string)
    requires |m| == 8
    ensures Glue(m) == front + m[6] + m[7]
  {
    assert m[1..][1..] == m[2..] && m[2..][1..] == m[3..] && m[3..][1..] == m[4..] && m[4..][1..] == m[5..];
    assert m[5..][1..] == m[6..] && m[6..][1..] == m[7..] && m[7..][1..] == [];
    front := m[0] + (m[1] + (m[2] + (m[3] + (m[4] + m[5]))));
    assert Glue(m[7..]) == m[7];
    assert Glue(m[6..]) == m[6] + m[7];
    assert Glue(m[5..]) == m[5] + Glue(m[6..]);
    assert Glue(m[4..]) == m[4] + Glue(m[5..]);
    assert Glue(m[3..]) == m[3] + Glue(m[4..]);
    assert Glue(m[2..]) == m[2] + Glue(m[3..]);
    assert Glue(m[1..]) == m[1] + Glue(m[2..]);
  }

  /** A trimmed text that ends in an optional run of blanks has none. */
  lemma {:induction false} LastOfTrimmed(front: string, x: string, blanks: string)
    requires Trimmed(front + x + blanks) && AllIn(blanks, Blank) && x != ""
    ensures blanks == "" && var t := front + x + blanks; t[|t| - 1] == x[|x| - 1]
  {
    var t := front + x + blanks;
    if blanks != "" {
      ReSpaceIsSpace(blanks[|blanks| - 1]);
    }
  }

  lemma {:induction false} ScheduleHeadSkipped()
    ensures forall i :: 0 <= i < |ScheduleHead()| ==> OneLine(ScheduleHead()[i]) && ParseRow(ScheduleHead()[i]).None?
    ensures ParseRow("").None? && ParseRow(NO_JOBS).None? && OneLine(NO_JOBS)
  {
    hide ParseRow, ScheduleText;
    TitleOneLine();
    TitleSkipped();
    NoJobsSkipped();
    OneWord(Repeat('-', 80));
  }

  lemma {:induction false} TitleSkipped()
    ensures ParseRow(ScheduleText("NAME", "SCHEDULE", "COMMAND", "NEXT_RUN")).None?
  {
    hide ParseRow, RowText, TrimSpace;
    var r := Row("NAME", "SCHEDULE", "COMMAND", "NEXT_RUN");
    var w1, w2, w3 := RowParts(r);
    TrimSelf(RowText(r));
    NotARow(RowText(r));
    SameText(r);
  }

  lemma {:induction false} SameText(r: Row)
    ensures RowText(r) == ScheduleText(r.name, r.schedule, r.command, r.next)
  {}

  lemma {:induction false} NoJobsSkipped()
    ensures ParseRow("").None? && ParseRow(NO_JOBS).None? && OneLine(NO_JOBS)
  {
    hide ParseRow, TrimSpace;
    TrimSelf(NO_JOBS);
    NotARow(NO_JOBS);
    TrimSelf("");
    NotARow("");
  }

  lemma {:induction false} TitleOneLine()
    ensures OneLine(ScheduleText("NAME", "SCHEDULE", "COMMAND", "NEXT_RUN"))
    ensures OneLine(HistoryText("NAME", "START", "END", "STATUS"))
  {
    assert OneLine("NAME") && OneLine("SCHEDULE") && OneLine("COMMAND") && OneLine("NEXT_RUN");
    assert OneLine("START") && OneLine("END") && OneLine("STATUS");
  }

  /** A row has a blank in it. */
  lemma {:induction false} RowHasBlank(line: string) returns (i: nat)
    requires Match(ScheduleItems(), line).Some?
    ensures i < |line| && ReSpace(line[i])
  {
    var items := ScheduleItems();
    MatchSound(items, line);
    var m := Match(items, line).value;
    assert Fits(items[1], m[1]);
    assert Glue(m) == m[0] + Glue(m[1..]) && Glue(m[1..]) == m[1] + Glue(m[1..][1..]);
    i := |m[0]|;
  }

  /** A line of dashes is no row. */
  lemma {:induction false} OneWord(line: string)
    requires line != "" && forall c :: c in line ==> c == '-'
    ensures OneLine(line) && ParseRow(line).None?
  {
    assert line[0] in line && line[|line| - 1] in line;
    assert forall i :: 0 <= i < |line| ==> line[i] in line;
    TrimSelf(line);
    if Match(ScheduleItems(), line).Some? {
      var i := RowHasBlank(line);
    }
  }

  /**
   * Reading the schedule table gives exactly the job rows exactly when every name and command is
   * a word and no job is called like the header.
   */
  lemma {:induction false} ScheduleTableRoundTrip(rows: seq<Row>)
    requires forall r :: r in rows ==> ScheduledRow(r)
    ensures Collect(Split(ScheduleTable(rows), '\n'), ParseRow) == rows <==> forall r :: r in rows ==> ReadableRow(r)
  {
    assert ParseRow("").None? && ParseRow(NO_JOBS).None? && OneLine(NO_JOBS) by {
      ScheduleHeadSkipped();
    }
    if rows == [] {
      NoRows(NO_JOBS, ParseRow);
    } else {
      var head := ScheduleHead();
      assert forall i :: 0 <= i < |head| ==> OneLine(head[i]) && ParseRow(head[i]).None? by {
        ScheduleHeadSkipped();
      }
      RowsBelow(head, rows);
    }
  }

  lemma {:induction false} RowsBelow(head: seq<string>, rows: seq<Row>)
    requires forall r :: r in rows ==> ScheduledRow(r)
    requires forall i :: 0 <= i < |head| ==> OneLine(head[i]) && ParseRow(head[i]).None?
    requires ParseRow("").None?
    ensures Collect(Split(Unlines(head + RowTexts(rows)), '\n'), ParseRow) == rows
      <==> forall r :: r in rows ==> ReadableRow(r)
  {
    var texts := RowTexts(rows);
    forall i | 0 <= i < |rows|
      ensures OneLine(texts[i]) && (ParseRow(texts[i]) == Some(rows[i]) <==> ReadableRow(rows[i]))
    {
      assert rows[i] in rows;
      RowOneLine(rows[i]);
      RowRoundTrip(rows[i]);
    }
    CollectTable(head, texts, rows, ParseRow);
  }

  lemma {:induction false} NoRows<T>(message: string, parse: string -> Option<T>)
    requires OneLine(message) && parse(message).None? && parse("").None?
    ensures Collect(Split(message + "\n", '\n'), parse) == []
  {
    SplitFirst(message, '\n', "");
    assert message + "\n" + "" == message + "\n";
    CollectNothing([message, ""], parse);
  }

  lemma {:induction false} RowOneLine(r: Row)
    requires ScheduledRow(r)
    ensures OneLine(RowText(r))
  {
    hide StampOrDashText, Trimmed;
    StampOneLine(r.next);
    assert OneLine(PadRight(r.name, 20)) && OneLine(PadRight(r.schedule, 22)) && OneLine(PadRight(r.command, 8));
  }

  lemma {:induction false} StampOneLine(x: string)
    requires StampOrDashText(x)
    ensures OneLine(x)
  {}

  // ---------------------------------------------------------------- the history table

  predicate ReadableHistoryRow(r: HistoryRow) {
    NameFits(r.name) && r.status != "" && !ReSpace(r.status[0]) && EndsTrimmed(r.status)
  }

  predicate RecordedRow(r: HistoryRow) {
    OneLine(r.name) && OneLine(r.status) && IsStamp(r.start) && StampOrDashText(r.end)
  }

  lemma {:induction false} HistoryParts(r: HistoryRow) returns (w1: string, w2: string, w3: string)
    ensures HistoryRowText(r) == r.name + (w1 + (r.start + (w2 + (r.end + (w3 + r.status)))))
    ensures AllIn(w1, Blank) && AllIn(w2, Blank) && AllIn(w3, Blank) && w1 != "" && w2 != "" && w3 != ""
  {
    w1 := Padded(r.name, 20);
    w2 := Padded(r.start, 20);
    w3 := Padded(r.end, 20);
    assert HistoryRowText(r) == (PadRight(r.name, 20) + " ")
      + ((PadRight(r.start, 20) + " ") + ((PadRight(r.end, 20) + " ") + r.status));
  }

  /** The status is taken whole: only nothing can be left for the final blanks. */
  lemma {:induction false} StatusMatches(status: string)
    requires OneLine(status) && EndsTrimmed(status)
    ensures Match([Run(AnyChar, 0, false)] + LastItems(), status) == Some([status] + [""])
  {
    NothingLeft();
    AnyCharOf(status);
    forall n | 0 <= n < |status| ensures Match(LastItems(), status[n..] + "") == None {
      var left := status[n..] + "";
      if Match(LastItems(), left).Some? {
        MatchSound(LastItems(), left);
        var m := Match(LastItems(), left).value;
        assert Fits(LastItems()[0], m[0]) && m[1..] == [] && Glue(m) == m[0] + "";
        assert m[0] == left;
        ReSpaceIsSpace(left[|left| - 1]);
      }
    }
    LazyTakes(AnyChar, 0, LastItems(), status, "");
    assert status + "" == status;
  }

  lemma {:induction false} HistoryMatches(r: HistoryRow, w1: string, w2: string, w3: string)
    requires RecordedRow(r) && ReadableHistoryRow(r)
    requires AllIn(w1, Blank) && w1 != "" && AllIn(w2, Blank) && w2 != "" && AllIn(w3, Blank) && w3 != ""
    ensures Match(HistoryItems(), r.name + (w1 + (r.start + (w2 + (r.end + (w3 + r.status))))))
         == Some([r.name] + ([w1] + ([r.start] + ([w2] + ([r.end] + ([w3] + ([r.status] + [""])))))))
  {
    EndsOfStamp(r.start);
    EndsOfStamp(r.end);
    StatusMatches(r.status);
    var i6 := [Run(AnyChar, 0, false)] + LastItems();
    var i5 := [Run(Blank, 1, true)] + i6;
    var i4 := [StampOrDash] + i5;
    var i3 := [Run(Blank, 1, true)] + i4;
    var i2 := [Stamp] + i3;
    var i1 := [Run(Blank, 1, true)] + i2;
    GreedyTakes(Blank, 1, i6, w3, r.status);
    GreedyTakes(Blank, 1, i4, w2, r.end + (w3 + r.status));
    StampTakes(i3, r.start, w2 + (r.end + (w3 + r.status)));
    GreedyTakes(Blank, 1, i2, w1, r.start + (w2 + (r.end + (w3 + r.status))));
    GreedyTakes(NonBlank, 1, i1, r.name, w1 + (r.start + (w2 + (r.end + (w3 + r.status)))));
  }

  lemma {:induction false} EightPieces(
      a: string, b: string, c: string, d: string, e: string, f: string, g: string, h: string)
    ensures [a] + ([b] + ([c] + ([d] + ([e] + ([f] + ([g] + [h])))))) == [a, b, c, d, e, f, g, h]
  {}

  lemma {:induction false} ReadableHistoryMatches(r: HistoryRow) returns (w1: string, w2: string, w3: string)
    requires RecordedRow(r) && ReadableHistoryRow(r)
    ensures Match(HistoryItems(), HistoryRowText(r)) == Some([r.name, w1, r.start, w2, r.end, w3, r.status, ""])
    ensures Trimmed(HistoryRowText(r))
  {
    w1, w2, w3 := HistoryParts(r);
    HistoryMatches(r, w1, w2, w3);
    EightPieces(r.name, w1, r.start, w2, r.end, w3, r.status, "");
    var line := HistoryRowText(r);
    assert line[0] == r.name[0] && line[|line| - 1] == r.status[|r.status| - 1];
  }

  lemma {:induction false} ReadableHistoryParses(r: HistoryRow)
    requires RecordedRow(r) && ReadableHistoryRow(r)
    ensures ParseHistoryRow(HistoryRowText(r)) == Some(r)
  {
    var w1, w2, w3 := ReadableHistoryMatches(r);
    TrimSelf(HistoryRowText(r));
  }

  /** A history row is read back exactly when its name is a word and its status is trimmed and not empty. */
  lemma {:induction false} HistoryRowRoundTrip(r: HistoryRow)
    requires RecordedRow(r)
    ensures ParseHistoryRow(HistoryRowText(r)) == Some(r) <==> ReadableHistoryRow(r)
  {
    if ReadableHistoryRow(r) {
      ReadableHistoryParses(r);
    } else if ParseHistoryRow(HistoryRowText(r)).Some? {
      RowTextOneLine(r);
      var left, right := TrimSpaceSplits(HistoryRowText(r));
      ParsedHistoryReadable(TrimSpace(HistoryRowText(r)));
    }
  }

  /** Whatever is read back is readable. */
  lemma {:induction false} ParsedHistoryReadable(t: string)
    requires OneLine(t) && Trimmed(t) && Match(HistoryItems(), t).Some?
    ensures var m := Match(HistoryItems(), t).value;
      |m| == 8 && NameFits(m[0]) && m[6] != "" && !ReSpace(m[6][0]) && EndsTrimmed(m[6])
  {
    var items := HistoryItems();
    MatchSound(items, t);
    var m := Match(items, t).value;
    assert Fits(items[0], m[0]) && Fits(items[5], m[5]) && Fits(items[7], m[7]);
    FifthGreedy(t);
    PiecesReadable(t, m);
  }

  lemma {:induction false} PiecesReadable(t: string, m: seq<string>)
    requires |m| == 8 && t == Glue(m) && Trimmed(t)
    requires NonBlankWord(m[0]) && AllIn(m[5], Blank) && m[5] != "" && AllIn(m[7], Blank)
    ensures NameFits(m[0]) && m[6] != "" && EndsTrimmed(m[6])
  {
    assert t == m[0] + Glue(m[1..]) && t[0] == m[0][0];
    if m[6] == "" {
      var front := FrontEndsBlank(m);
      BlankEnd(front, m[5], m[7]);
    } else {
      var front := GlueEnd(m);
      LastOfTrimmed(front, m[6], m[7]);
    }
  }

  lemma {:induction false} RowTextOneLine(r: HistoryRow)
    requires RecordedRow(r)
    ensures OneLine(HistoryRowText(r)) && OneLine(TrimSpace(HistoryRowText(r)))
  {
    hide StampOrDashText, Trimmed, TrimSpace;
    StampOneLine(r.start);
    StampOneLine(r.end);
    assert OneLine(PadRight(r.name, 20)) && OneLine(PadRight(r.start, 20)) && OneLine(PadRight(r.end, 20));
    var left, right := TrimSpaceSplits(HistoryRowText(r));
  }

  lemma {:induction false} FrontEndsBlank(m: seq<string>) returns (front: string)
    requires |m| == 8 && m[6] == ""
    ensures Glue(m) == front + m[5] + m[7]
  {
    var f := GlueEnd(m);
    assert m[1..][1..] == m[2..] && m[2..][1..] == m[3..] && m[3..][1..] == m[4..] && m[4..][1..] == m[5..];
    assert m[5..][1..] == m[6..] && m[6..][1..] == m[7..] && m[7..][1..] == [];
    front := m[0] + (m[1] + (m[2] + (m[3] + m[4])));
    assert Glue(m[7..]) == m[7];
    assert Glue(m[6..]) == m[7];
    assert Glue(m[5..]) == m[5] + m[7];
    assert Glue(m[4..]) == m[4] + Glue(m[5..]);
    assert Glue(m[3..]) == m[3] + Glue(m[4..]);
    assert Glue(m[2..]) == m[2] + Glue(m[3..]);
    assert Glue(m[1..]) == m[1] + Glue(m[2..]);
  }

  /** A trimmed text does not end in blanks. */
  lemma {:induction false} BlankEnd(front: string, x: string, y: string)
    requires x != "" && AllIn(x, Blank) && AllIn(y, Blank)
    ensures !Trimmed(front + x + y)
  {
    var t := front + x + y;
    ReSpaceIsSpace(t[|t| - 1]);
  }

  function StatusItems(): seq<Item> {
    [Run(AnyChar, 0, false)] + LastItems()
  }

  /** Any line is a status. */
  lemma {:induction false} AnyStatus(line: string)
    requires OneLine(line)
    ensures Match(StatusItems(), line).Some?
  {
    NothingLeft();
    AnyCharOf(line);
    assert line + "" == line;
    RunLengthOf(line, "", AnyChar);
    TakeFront(Run(AnyChar, 0, false), LastItems(), line, "");
    UpFinds(StatusItems(), line, 0, |line|, |line|);
  }

  /** The blanks before the status are taken whole, so the status does not start with one. */
  lemma {:induction false} BlanksTakenWhole(s: string)
    requires OneLine(s) && Match([Run(Blank, 1, true)] + StatusItems(), s).Some?
    ensures var m := Match([Run(Blank, 1, true)] + StatusItems(), s).value;
      |m| == 3 && (m[1] != "" ==> !ReSpace(m[1][0]))
  {
    var items := [Run(Blank, 1, true)] + StatusItems();
    MatchSound(items, s);
    var m := Match(items, s).value;
    assert Fits(items[0], m[0]);
    assert s == m[0] + Glue(m[1..]) && s[0] == m[0][0];
    var max := RunLength(s, Blank);
    assert s == s[..max] + s[max..];
    AnyStatus(s[max..]);
    TakeFront(Run(Blank, 1, true), StatusItems(), s[..max], s[max..]);
    assert m == [s[..max]] + Match(StatusItems(), s[max..]).value;
    assert m[1..] == Match(StatusItems(), s[max..]).value;
    MatchSound(StatusItems(), s[max..]);
    assert s[max..] == m[1] + Glue(m[2..]) by {
      assert m[1..][1..] == m[2..];
    }
    assert m[1] != "" ==> s[max] == m[1][0];
  }

  /** The same at the place of the status in the whole pattern. */
  lemma {:induction false} FifthGreedy(t: string)
    requires OneLine(t) && Match(HistoryItems(), t).Some?
    ensures var m := Match(HistoryItems(), t).value; |m| == 8 && (m[6] != "" ==> !ReSpace(m[6][0]))
  {
    var items := HistoryItems();
    MatchSound(items, t);
    var m := Match(items, t).value;
    MatchRest(items, t);
    MatchRest(items[1..], Glue(m[1..]));
    assert items[1..][1..] == items[2..] && m[1..][1..] == m[2..];
    MatchRest(items[2..], Glue(m[2..]));
    assert items[2..][1..] == items[3..] && m[2..][1..] == m[3..];
    MatchRest(items[3..], Glue(m[3..]));
    assert items[3..][1..] == items[4..] && m[3..][1..] == m[4..];
    MatchRest(items[4..], Glue(m[4..]));
    assert items[4..][1..] == items[5..] && m[4..][1..] == m[5..];
    assert items[5..] == [Run(Blank, 1, true)] + StatusItems();
    GlueParts(m);
    BlanksTakenWhole(Glue(m[5..]));
  }

  /** The later pieces are a part of the text. */
  lemma {:induction false} GlueParts(m: seq<string>)
    requires |m| == 8 && OneLine(Glue(m))
    ensures OneLine(Glue(m[5..]))
  {
    assert m[1..][1..] == m[2..] && m[2..][1..] == m[3..] && m[3..][1..] == m[4..] && m[4..][1..] == m[5..];
    assert Glue(m) == m[0] + Glue(m[1..]);
    assert OneLine(Glue(m[1..]));
    assert OneLine(Glue(m[2..]));
    assert OneLine(Glue(m[3..]));
    assert OneLine(Glue(m[4..]));
  }

  // ---------------------------------------------------------------- reading the whole history table

  predicate HasDigit(s: string) {
    exists i :: 0 <= i < |s| && IsDigit(s[i])
  }

  /** A history row has a digit in it. */
  lemma {:induction false} HistoryRowHasDigit(line: string)
    requires ParseHistoryRow(line).Some?
    ensures HasDigit(line)
  {
    var t := TrimSpace(line);
    var left, right := TrimSpaceSplits(line);
    var items := HistoryItems();
    MatchSound(items, t);
    var m := Match(items, t).value;
    assert Fits(items[2], m[2]);
    GlueThree(m);
    assert line == left + t + right;
    var k := |left| + |m[0]| + |m[1]|;
    assert line[k] == m[2][0] && IsDigit(line[k]);
  }

  lemma {:induction false} NotAHistoryRow(line: string)
    requires !HasDigit(line)
    ensures ParseHistoryRow(line).None?
  {
    if ParseHistoryRow(line).Some? {
      HistoryRowHasDigit(line);
    }
  }

  lemma {:induction false} GlueThree(m: seq<string>)
    requires |m| >= 3
    ensures Glue(m) == m[0] + (m[1] + (m[2] + Glue(m[3..])))
  {
    assert m[1..][1..] == m[2..] && m[2..][1..] == m[3..];
    assert Glue(m[2..]) == m[2] + Glue(m[3..]);
    assert Glue(m[1..]) == m[1] + Glue(m[2..]);
  }

  lemma {:induction false} NoDigitAppend(a: string, b: string)
    requires !HasDigit(a) && !HasDigit(b)
    ensures !HasDigit(a + b)
  {
    forall i | 0 <= i < |a + b| ensures !IsDigit((a + b)[i]) {
      assert (a + b)[i] == if i < |a| then a[i] else b[i - |a|];
    }
  }

  lemma {:induction false} HistoryHeadSkipped()
    ensures forall i :: 0 <= i < |HistoryHead()| ==>
      OneLine(HistoryHead()[i]) && ParseHistoryRow(HistoryHead()[i]).None?
  {
    assert OneLine(HistoryHead()[0]) && ParseHistoryRow(HistoryHead()[0]).None? by {
      TitleOneLine();
      HistoryTitleNoDigit();
      NotAHistoryRow(HistoryHead()[0]);
    }
    assert OneLine(HistoryHead()[1]) && ParseHistoryRow(HistoryHead()[1]).None? by {
      NoDigitDashes(85);
      NotAHistoryRow(HistoryHead()[1]);
    }
  }

  lemma {:induction false} NoHistorySkipped()
    ensures ParseHistoryRow("").None? && ParseHistoryRow(NO_HISTORY).None? && OneLine(NO_HISTORY)
  {
    NotAHistoryRow(NO_HISTORY);
    NotAHistoryRow("");
  }

  lemma {:induction false} NoDigitDashes(n: nat)
    ensures !HasDigit(Repeat('-', n)) && OneLine(Repeat('-', n))
  {
    var line := Repeat('-', n);
    assert forall i :: 0 <= i < |line| ==> line[i] in line;
  }

  lemma {:induction false} HistoryTitleNoDigit()
    ensures !HasDigit(HistoryText("NAME", "START", "END", "STATUS"))
  {
    var a, b, c := PadRight("NAME", 20) + " ", PadRight("START", 20) + " ", PadRight("END", 20) + " ";
    NoDigitAppend(a, b);
    NoDigitAppend(a + b, c);
    NoDigitAppend(a + b + c, "STATUS");
    assert HistoryText("NAME", "START", "END", "STATUS") == a + b + c + "STATUS";
  }

  /**
   * Reading the history table gives exactly its rows exactly when every name is a word and every
   * status is trimmed and not empty.
   */
  lemma {:induction false} HistoryTableRoundTrip(rows: seq<HistoryRow>)
    requires forall r :: r in rows ==> RecordedRow(r)
    ensures Collect(Split(HistoryTable(rows), '\n'), ParseHistoryRow) == rows
      <==> forall r :: r in rows ==> ReadableHistoryRow(r)
  {
    NoHistorySkipped();
    if rows == [] {
      NoRows(NO_HISTORY, ParseHistoryRow);
    } else {
      var head := HistoryHead();
      assert forall i :: 0 <= i < |head| ==> OneLine(head[i]) && ParseHistoryRow(head[i]).None? by {
        HistoryHeadSkipped();
      }
      HistoryBelow(head, rows);
    }
  }

  lemma {:induction false} HistoryBelow(head: seq<string>, rows: seq<HistoryRow>)
    requires forall r :: r in rows ==> RecordedRow(r)
    requires forall i :: 0 <= i < |head| ==> OneLine(head[i]) && ParseHistoryRow(head[i]).None?
    requires ParseHistoryRow("").None?
    ensures Collect(Split(Unlines(head + HistoryTexts(rows)), '\n'), ParseHistoryRow) == rows
       <==> forall r :: r in rows ==> ReadableHistoryRow(r)
  {
    var texts := HistoryTexts(rows);
    forall i | 0 <= i < |rows|
      ensures OneLine(texts[i]) && (ParseHistoryRow(texts[i]) == Some(rows[i]) <==> ReadableHistoryRow(rows[i]))
    {
      assert rows[i] in rows;
      RowTextOneLine(rows[i]);
      HistoryRowRoundTrip(rows[i]);
    }
    CollectTable(head, texts, rows, ParseHistoryRow);
  }

  // ---------------------------------------------------------------- the agent's lists

  ghost predicate Formats(format: nat -> string) {
    forall t :: IsStamp(format(t))
  }

  /**
   * parseScheduleList of ListJobs gives the job rows exactly when names and commands are words and no job is called
   * NAME.
   */
  lemma {:induction false} JobsReadBack(jobs: seq<SchedJob>, next: SchedJob -> string)
    requires forall j :: j in jobs ==>
      FieldsTrimmed(j) && j.schedule != "" && StampOrDashText(next(j))
    ensures Collect(Split(ScheduleTable(JobRows(jobs, next)), '\n'), ParseRow) == JobRows(jobs, next)
       <==> forall j :: j in jobs ==> NameFits(j.name) && j.name != "NAME" && NonBlankWord(j.command)
  {
    var rows := JobRows(jobs, next);
    forall r | r in rows ensures ScheduledRow(r) {
      var i :| 0 <= i < |rows| && rows[i] == r;
      assert jobs[i] in jobs;
    }
    forall j | j in jobs ensures Row(j.name, j.schedule, j.command, next(j)) in rows {
      var i :| 0 <= i < |jobs| && jobs[i] == j;
      assert rows[i] == Row(j.name, j.schedule, j.command, next(j));
    }
    ScheduleTableRoundTrip(rows);
  }

  /** The same for every job list that commands make of any schedule file, where cron refuses the empty schedule. */
  lemma {:induction false} ReachableJobsReadBack(
      start: Option<string>, commands: seq<JobCommand>, valid: string -> bool, next: SchedJob -> string)
    requires (forall c :: c in commands ==> Arrives(c)) && !valid("") && forall j :: StampOrDashText(next(j))
    ensures var jobs := ReachableJobs(start, commands, valid);
      Collect(Split(ScheduleTable(JobRows(jobs, next)), '\n'), ParseRow) == JobRows(jobs, next)
      <==> forall j :: j in jobs ==> NameFits(j.name) && j.name != "NAME" && NonBlankWord(j.command)
  {
    hide ReachableJobs, Arrives, StampOrDashText, NameFits, NonBlankWord, Collect, ScheduleTable, JobRows, ParseRow;
    hide Split;
    hide FieldsTrimmed;
    ReachableTrimmed(start, commands, valid);
    JobsReadBack(ReachableJobs(start, commands, valid), next);
  }

  lemma {:induction false} RowsRecorded(history: seq<JobRun>, format: nat -> string)
    requires Formats(format) && forall r :: r in history ==> OneLine(r.name) && OneLine(r.status)
    ensures forall r :: r in HistoryRows(history, format) ==> RecordedRow(r)
  {
    var rows := HistoryRows(history, format);
    forall r | r in rows ensures RecordedRow(r) {
      var i :| 0 <= i < |rows| && rows[i] == r;
      var h := history[|history| - 1 - i];
      assert h in history && r == HistoryRowOf(h, format);
    }
  }

  /** The rows that are read come from single lines. */
  lemma {:induction false} CollectedFrom<T>(lines: seq<string>, parse: string -> Option<T>)
    ensures forall r :: r in Collect(lines, parse) ==> exists l :: l in lines && parse(l) == Some(r)
  {
    if lines != [] {
      var init, last := lines[..|lines| - 1], lines[|lines| - 1];
      CollectedFrom(init, parse);
      assert last in lines && forall l :: l in init ==> l in lines;
    }
  }

  lemma {:induction false} GluedPieces(m: seq<string>, i: nat)
    requires i < |m|
    ensures forall c :: c in m[i] ==> c in Glue(m)
  {
    if i > 0 {
      GluedPieces(m[1..], i - 1);
    }
  }

  lemma {:induction false} ParsedOneLine(line: string)
    requires OneLine(line) && ParseHistoryRow(line).Some?
    ensures OneLine(ParseHistoryRow(line).value.name) && OneLine(ParseHistoryRow(line).value.status)
  {
    hide Match, TrimSpace, Glue;
    TrimKeeps(line);
    MatchSound(HistoryItems(), TrimSpace(line));
    var m := Match(HistoryItems(), TrimSpace(line)).value;
    GluedPieces(m, 0);
    GluedPieces(m, 6);
  }

  lemma {:induction false} HistoryOneLine(text: string)
    ensures forall r :: r in Collect(Split(text, '\n'), ParseHistoryRow) ==> OneLine(r.name) && OneLine(r.status)
  {
    hide Collect, ParseHistoryRow, Split;
    var lines := Split(text, '\n');
    CollectedFrom(lines, ParseHistoryRow);
    SplitPieces(text, '\n');
    forall r | r in Collect(lines, ParseHistoryRow) ensures OneLine(r.name) && OneLine(r.status) {
      var l :| l in lines && ParseHistoryRow(l) == Some(r);
      ParsedOneLine(l);
    }
  }

  /** A run whose name and status the history table shows readably. */
  predicate ReadableRun(r: JobRun) {
    NameFits(r.name) && OneLine(r.status) && r.status != "" && !ReSpace(r.status[0]) && EndsTrimmed(r.status)
  }

  /**
   * parseHistoryList of ListHistory gives the history, newest first, exactly when names are words and statuses
   * are trimmed single lines.
   */
  lemma {:induction false} HistoryReadBack(history: seq<JobRun>, format: nat -> string)
    requires Formats(format)
    ensures Collect(Split(HistoryTable(HistoryRows(history, format)), '\n'), ParseHistoryRow)
         == HistoryRows(history, format)
      <==> forall r :: r in history ==> ReadableRun(r)
  {
    hide Collect, HistoryTable, ParseHistoryRow, IsStamp, StampOrDashText, NameFits, EndsTrimmed, ReSpace, OneLine;
    hide Split;
    var rows := HistoryRows(history, format);
    NameOneLine();
    forall h | h in history ensures HistoryRowOf(h, format) in rows {
      var i :| 0 <= i < |history| && history[i] == h;
      assert rows[|history| - 1 - i] == HistoryRowOf(h, format);
    }
    if forall r :: r in history ==> OneLine(r.name) && OneLine(r.status) {
      RowsRecorded(history, format);
      HistoryTableRoundTrip(rows);
      forall r | r in rows ensures exists h :: h in history && r == HistoryRowOf(h, format) {
        var i :| 0 <= i < |rows| && rows[i] == r;
        assert history[|history| - 1 - i] in history;
      }
      assert forall h :: h in history ==> (ReadableRun(h) <==> ReadableHistoryRow(HistoryRowOf(h, format)));
    } else {
      HistoryOneLine(HistoryTable(rows));
    }
  }

  lemma {:induction false} NameOneLine()
    ensures forall name :: NameFits(name) ==> OneLine(name)
  {}
}
