/** The metrics payload: what the agent prints and what the exporter reads back. */
module Metrics {
  import opened Text
  import opened Scheduler

  // ---------------------------------------------------------------- numbers and times

  /** Number and time formats; only that reading inverts printing matters. */
  datatype Codec = Codec(
    formatInt: int -> string,
    formatMillis: nat -> string,       // seconds with three decimals
    parseNumber: string -> real,
    formatTime: nat -> string,         // RFC 3339
    formatLocal: nat -> string,        // the scheduler's local format
    parseStamp: string -> Option<nat>)

  predicate Plain(s: string) {
    s != "" && OneLine(s) && Trimmed(s)
  }

  ghost predicate Inverse(c: Codec) {
    && (forall n :: Plain(c.formatInt(n)) && c.parseNumber(c.formatInt(n)) == n as real)
    && (forall n: nat :: Plain(c.formatMillis(n)) && c.parseNumber(c.formatMillis(n)) == n as real / 1000.0)
    && (forall t: nat :: Plain(c.formatTime(t)) && c.parseStamp(c.formatTime(t)) == Some(t))
    && (forall t: nat :: Plain(c.formatLocal(t)) && c.parseStamp(c.formatLocal(t)) == Some(t))
    && (forall t: nat :: c.formatTime(t) != "never" && c.formatTime(t) != "-")
    && (forall t: nat :: c.formatLocal(t) != "never" && c.formatLocal(t) != "-")
  }

  function ParseMetricFloat(c: Codec, s: string): real {
    c.parseNumber(TrimSpace(s))
  }

  function ParseMetricTime(c: Codec, s: string): real {
    var t := TrimSpace(s);
    if t == "" || t == "never" || t == "-" then 0.0
    else
      match c.parseStamp(t)
      case Some(time) => time as real
      case None => 0.0
  }

  // ---------------------------------------------------------------- the agent's side

  datatype Field =
    | ScanRunning | CompareRunning | DefaultPassword | ReportsTotal | LastReportTime
    | LastScanReport | LastScanTime | LastScanFiles | LastScanDuration
    | LastCompareTime | LastCompareChanged | LastCompareNew | LastCompareMissing | LastCompareMoved
    | JobsTotal

  function KeyText(f: Field): string {
    match f
    case ScanRunning => "scan_running"
    case CompareRunning => "compare_running"
    case DefaultPassword => "default_password"
    case ReportsTotal => "reports_total"
    case LastReportTime => "last_report_time"
    case LastScanReport => "last_scan_report"
    case LastScanTime => "last_scan_time"
    case LastScanFiles => "last_scan_files"
    case LastScanDuration => "last_scan_duration"
    case LastCompareTime => "last_compare_time"
    case LastCompareChanged => "last_compare_changed"
    case LastCompareNew => "last_compare_new"
    case LastCompareMissing => "last_compare_missing"
    case LastCompareMoved => "last_compare_moved"
    case JobsTotal => "jobs_total"
  }

  datatype LastScan = LastScan(reportName: string, time: nat, files: nat, millis: nat)

  datatype LastCompare = LastCompare(time: nat, changed: nat, added: nat, missing: nat, moved: nat)

  datatype Schedule = Schedule(jobs: seq<SchedJob>, history: seq<JobRun>, next: string -> Option<nat>)

  /** The state the payload is printed from. */
  datatype AgentView = AgentView(
    scanRunning: bool, compareRunning: bool, defaultPassword: bool, reports: nat, lastReport: Option<nat>,
    lastScan: Option<LastScan>, lastCompare: Option<LastCompare>, schedule: Option<Schedule>)

  function B2I(b: bool): int { if b then 1 else 0 }

  /** The text printed for a field, None where its line is left out. */
  function FieldText(c: Codec, v: AgentView, f: Field): Option<string> {
    match f
    case ScanRunning => Some(c.formatInt(B2I(v.scanRunning)))
    case CompareRunning => Some(c.formatInt(B2I(v.compareRunning)))
    case DefaultPassword => Some(c.formatInt(B2I(v.defaultPassword)))
    case ReportsTotal => Some(c.formatInt(v.reports))
    case LastReportTime => if v.lastReport.None? then None else Some(c.formatTime(v.lastReport.value))
    case JobsTotal => if v.schedule.None? then None else Some(c.formatInt(|v.schedule.value.jobs|))
    case _ =>
      if IsScan(f) then ScanText(c, v.lastScan, f)
      else CompareText(c, v.lastCompare, f)
  }

  function ScanText(c: Codec, ls: Option<LastScan>, f: Field): Option<string> {
    if ls.None? then None
    else
      match f
      case LastScanReport => Some(ls.value.reportName)
      case LastScanTime => Some(c.formatTime(ls.value.time))
      case LastScanFiles => Some(c.formatInt(ls.value.files))
      case _ => Some(c.formatMillis(ls.value.millis))
  }

  function CompareText(c: Codec, lc: Option<LastCompare>, f: Field): Option<string> {
    if lc.None? then None
    else
      match f
      case LastCompareTime => Some(c.formatTime(lc.value.time))
      case LastCompareChanged => Some(c.formatInt(lc.value.changed))
      case LastCompareNew => Some(c.formatInt(lc.value.added))
      case LastCompareMissing => Some(c.formatInt(lc.value.missing))
      case _ => Some(c.formatInt(lc.value.moved))
  }

  function FieldLines(c: Codec, v: AgentView, fields: seq<Field>): seq<string> {
    if fields == [] then []
    else
      var f := fields[|fields| - 1];
      FieldLines(c, v, fields[..|fields| - 1])
      + match FieldText(c, v, f) { case Some(text) => [KeyText(f) + "=" + text] case None => [] }
  }

  /** The order in which the fields are printed. */
  function FieldOrder(): seq<Field> {
    [ScanRunning, CompareRunning, DefaultPassword, ReportsTotal, LastReportTime,
     LastScanReport, LastScanTime, LastScanFiles, LastScanDuration,
     LastCompareTime, LastCompareChanged, LastCompareNew, LastCompareMissing, LastCompareMoved, JobsTotal]
  }

  /** The most recent history entry of a job that is not running. */
  function LatestRun(history: seq<JobRun>, name: string): Option<JobRun> {
    if history == [] then None
    else
      var r := history[|history| - 1];
      if r.name == name && r.status != RUNNING then Some(r) else LatestRun(history[..|history| - 1], name)
  }

  function NextText(c: Codec, s: Schedule, name: string): string {
    match s.next(name)
    case Some(t) => c.formatLocal(t)
    case None => "-"
  }

  function LastText(c: Codec, r: Option<JobRun>): string {
    if r.Some? then c.formatTime(r.value.start) else "never"
  }

  function StatusText(r: Option<JobRun>): string {
    if r.Some? then r.value.status else "never"
  }

  function JobLine(name: string, field: string, text: string): string {
    "job." + name + "." + field + "=" + text
  }

  function JobLines(c: Codec, s: Schedule, name: string): seq<string> {
    var r := LatestRun(s.history, name);
    [JobLine(name, "next", NextText(c, s, name)), JobLine(name, "last", LastText(c, r)),
     JobLine(name, "status", StatusText(r))]
  }

  function AllJobLines(c: Codec, s: Schedule, n: nat): seq<string>
    requires n <= |s.jobs|
  {
    if n == 0 then [] else AllJobLines(c, s, n - 1) + JobLines(c, s, s.jobs[n - 1].name)
  }

  function PayloadLines(c: Codec, v: AgentView): seq<string> {
    FieldLines(c, v, FieldOrder())
    + if v.schedule.Some? then AllJobLines(c, v.schedule.value, |v.schedule.value.jobs|) else []
  }

  function Payload(c: Codec, v: AgentView): string {
    Unlines(PayloadLines(c, v))
  }

  /** The loop that looks for the latest finished run of a job. */
  method FindLatest(history: seq<JobRun>, name: string) returns (r: Option<JobRun>)
    ensures r == LatestRun(history, name)
  {
    var i := |history|;
    assert history[..i] == history;
    while i > 0
      invariant 0 <= i <= |history|
      invariant LatestRun(history, name) == LatestRun(history[..i], name)
    {
      i := i - 1;
      assert history[..i + 1][..i] == history[..i];
      if history[i].name == name && history[i].status != RUNNING {
        return Some(history[i]);
      }
    }
    r := None;
  }

  /** agentMetricsString: the fields in their order, then three lines for each job. */
  method AgentMetricsString(c: Codec, v: AgentView) returns (sb: string)
    ensures sb == Payload(c, v)
  {
    var fields := FieldOrder();
    sb := "";
    ghost var lines := [];
    for i := 0 to |fields|
      invariant lines == FieldLines(c, v, fields[..i]) && sb == Unlines(lines)
    {
      assert fields[..i + 1][..i] == fields[..i];
      var text := FieldText(c, v, fields[i]);
      if text.Some? {
        UnlinesSnoc(lines, KeyText(fields[i]) + "=" + text.value);
        sb := sb + (KeyText(fields[i]) + "=" + text.value) + "\n";
        lines := lines + [KeyText(fields[i]) + "=" + text.value];
      }
    }
    assert fields[..|fields|] == fields;
    if v.schedule.Some? {
      var part := JobsString(c, v.schedule.value);
      UnlinesAppend(lines, AllJobLines(c, v.schedule.value, |v.schedule.value.jobs|));
      sb := sb + part;
    } else {
      assert lines + [] == lines;
    }
  }

  method JobsString(c: Codec, s: Schedule) returns (sb: string)
    ensures sb == Unlines(AllJobLines(c, s, |s.jobs|))
  {
    hide JobLine, NextText, LastText, StatusText, LatestRun, Unlines;
    UnlinesOfNone();
    sb := "";
    for i := 0 to |s.jobs|
      invariant sb == Unlines(AllJobLines(c, s, i))
    {
      var name := s.jobs[i].name;
      var r := FindLatest(s.history, name);
      var part := JobLine(name, "next", NextText(c, s, name)) + "\n"
                + (JobLine(name, "last", LastText(c, r)) + "\n"
                + (JobLine(name, "status", StatusText(r)) + "\n"));
      UnlinesAppend(AllJobLines(c, s, i), JobLines(c, s, name));
      ThreeLines(JobLines(c, s, name));
      sb := sb + part;
    }
  }

  lemma {:induction false} ThreeLines(lines: seq<string>)
    requires |lines| == 3
    ensures Unlines(lines) == lines[0] + "\n" + (lines[1] + "\n" + (lines[2] + "\n"))
  {
    assert lines[1..][1..] == lines[2..] && lines[2..][1..] == [];
    assert Unlines(lines[2..]) == lines[2] + "\n" + "";
    assert Unlines(lines[1..]) == lines[1] + "\n" + Unlines(lines[2..]);
  }

  // ---------------------------------------------------------------- the exporter's side

  datatype JobMetric = JobMetric(name: string, nextRun: real, lastRun: real, lastStatus: string)

  /** hostMetrics: the numeric fields that have been set (the others are zero), and the jobs by name. */
  datatype HostMetrics = HostMetrics(fields: map<Field, real>, jobs: map<string, JobMetric>)

  const NO_METRICS := HostMetrics(map[], map[])

  datatype Key = Fixed(f: Field) | OfJob(name: string, field: string) | Unknown

  /** strings.LastIndexByte: what stands before and after the last dot. */
  function CutLast(s: string, sep: char): (r: Option<(string, string)>)
    ensures r.None? <==> sep !in s
    ensures r.Some? ==> sep !in r.value.1 && s == r.value.0 + [sep] + r.value.1
  {
    if s == "" then None
    else
      var n := |s| - 1;
      assert s == s[..n] + [s[n]];
      if s[n] == sep then Some((s[..n], ""))
      else
        match CutLast(s[..n], sep)
        case None => None
        case Some(pair) => Some((pair.0, pair.1 + [s[n]]))
  }

  lemma {:induction false} CutLastAt(a: string, sep: char, b: string)
    requires sep !in b
    ensures CutLast(a + [sep] + b, sep) == Some((a, b))
  {
    var s := a + [sep] + b;
    var n := |s| - 1;
    if b == "" {
      assert s[..n] == a;
    } else {
      assert s[..n] == a + [sep] + b[..|b| - 1];
      CutLastAt(a, sep, b[..|b| - 1]);
      assert b[..|b| - 1] + [s[n]] == b;
    }
  }

  const JOB := "job."

  function KeyOf(key: string): Key {
    if key == "scan_running" then Fixed(ScanRunning)
    else if key == "compare_running" then Fixed(CompareRunning)
    else if key == "reports_total" then Fixed(ReportsTotal)
    else if key == "last_report_time" then Fixed(LastReportTime)
    else if key == "last_scan_time" then Fixed(LastScanTime)
    else if key == "last_scan_files" then Fixed(LastScanFiles)
    else if key == "last_scan_duration" then Fixed(LastScanDuration)
    else if key == "last_compare_time" then Fixed(LastCompareTime)
    else if key == "last_compare_changed" then Fixed(LastCompareChanged)
    else if key == "last_compare_new" then Fixed(LastCompareNew)
    else if key == "last_compare_missing" then Fixed(LastCompareMissing)
    else if key == "last_compare_moved" then Fixed(LastCompareMoved)
    else if key == "jobs_total" then Fixed(JobsTotal)
    else if key == "default_password" then Fixed(DefaultPassword)
    else if key == "last_scan_report" then Fixed(LastScanReport)
    else if !(JOB <= key) then Unknown
    else
      match CutLast(key[4..], '.')
      case Some((name, field)) => OfJob(name, field)
      case None => Unknown
  }

  predicate IsTime(f: Field) {
    f.LastReportTime? || f.LastScanTime? || f.LastCompareTime?
  }

  function JobOf(m: HostMetrics, name: string): JobMetric {
    if name in m.jobs then m.jobs[name] else JobMetric(name, 0.0, 0.0, "")
  }

  /** The effect of one key and value. */
  function Apply(c: Codec, m: HostMetrics, key: Key, val: string): HostMetrics {
    match key
    case Unknown => m
    case Fixed(f) =>
      if f.LastScanReport? then m
      else m.(fields := m.fields[f := if IsTime(f) then ParseMetricTime(c, val) else ParseMetricFloat(c, val)])
    case OfJob(name, field) => m.(jobs := m.jobs[name := SetField(c, JobOf(m, name), field, val)])
  }

  /** A job of which only one field is met has zero times and no status besides. */
  lemma {:induction false} FirstFieldMet(c: Codec, name: string, val: string)
    ensures Apply(c, NO_METRICS, OfJob(name, "next"), val).jobs[name]
         == JobMetric(name, ParseMetricTime(c, val), 0.0, "")
    ensures Apply(c, NO_METRICS, OfJob(name, "last"), val).jobs[name]
         == JobMetric(name, 0.0, ParseMetricTime(c, val), "")
    ensures Apply(c, NO_METRICS, OfJob(name, "status"), val).jobs[name] == JobMetric(name, 0.0, 0.0, val)
    ensures TrimSpace(val) in ["", "never", "-"] || c.parseStamp(TrimSpace(val)).None? ==>
      && Apply(c, NO_METRICS, OfJob(name, "next"), val) == Apply(c, NO_METRICS, OfJob(name, "last"), val)
      && Apply(c, NO_METRICS, OfJob(name, "next"), val).jobs[name].nextRun == 0.0
  {
    hide TrimSpace;
    assert "last"[0] != "next"[0] && "status"[0] != "next"[0] && "status"[0] != "last"[0];
  }

  function SetField(c: Codec, jm: JobMetric, field: string, val: string): JobMetric {
    if field == "next" then jm.(nextRun := ParseMetricTime(c, val))
    else if field == "last" then jm.(lastRun := ParseMetricTime(c, val))
    else if field == "status" then jm.(lastStatus := val)
    else jm
  }

  function ApplyLine(c: Codec, m: HostMetrics, line: string): HostMetrics {
    var t := TrimSpace(line);
    match Cut(t, '=')
    case None => m
    case Some((key, val)) => Apply(c, m, KeyOf(key), val)
  }

  function ApplyLines(c: Codec, m: HostMetrics, lines: seq<string>): HostMetrics {
    if lines == [] then m
    else ApplyLine(c, ApplyLines(c, m, lines[..|lines| - 1]), lines[|lines| - 1])
  }

  function Parsed(c: Codec, raw: string): HostMetrics {
    ApplyLines(c, NO_METRICS, Split(raw, '\n'))
  }

  /** parseMetricsResponse; the job records come out in an arbitrary order. */
  method ParseMetricsResponse(c: Codec, raw: string) returns (fields: map<Field, real>, jobs: seq<JobMetric>)
    ensures fields == Parsed(c, raw).fields
    ensures ValuesOf(jobs, Parsed(c, raw).jobs)
  {
    var lines := Split(raw, '\n');
    var m := NO_METRICS;
    for i := 0 to |lines|
      invariant m == ApplyLines(c, NO_METRICS, lines[..i])
    {
      assert lines[..i + 1][..i] == lines[..i];
      var line := TrimSpace(lines[i]);
      if line == "" {
        continue;
      }
      var pair := Cut(line, '=');
      if pair.None? {
        continue;
      }
      m := Apply(c, m, KeyOf(pair.value.0), pair.value.1);
    }
    assert lines[..|lines|] == lines;
    fields := m.fields;
    jobs := JobValues(m.jobs);
  }

  /** The values of a map, one for each key. */
  ghost predicate ValuesOf(jobs: seq<JobMetric>, m: map<string, JobMetric>) {
    |jobs| == |m| && forall jm :: jm in jobs <==> exists name :: name in m && m[name] == jm
  }

  method JobValues(m: map<string, JobMetric>) returns (jobs: seq<JobMetric>)
    ensures ValuesOf(jobs, m)
  {
    jobs := [];
    var todo := m.Keys;
    while todo != {}
      invariant todo <= m.Keys && |jobs| + |todo| == |m|
      invariant forall jm :: jm in jobs <==> exists name :: name in m && name !in todo && m[name] == jm
      decreases todo
    {
      var name :| name in todo;
      ghost var before := jobs;
      jobs := jobs + [m[name]];
      forall jm ensures jm in jobs <==> exists n :: n in m && n !in todo - {name} && m[n] == jm {
        if n :| n in m && n !in todo - {name} && m[n] == jm {
          assert n == name || n !in todo;
        }
      }
      todo := todo - {name};
    }
  }

  // ---------------------------------------------------------------- reading keys back

  /** Every key that is printed is recognised. */
  lemma {:induction false} KeyRecognised(f: Field)
    ensures KeyOf(KeyText(f)) == Fixed(f)
  {
    match f {
      case ScanRunning => case CompareRunning => case DefaultPassword => case ReportsTotal => case LastReportTime =>
      case LastScanReport => case LastScanTime => case LastScanFiles => case LastScanDuration =>
      case LastCompareTime => case LastCompareChanged => case LastCompareNew =>
      case LastCompareMissing => case LastCompareMoved =>
      case JobsTotal =>
    }
  }

  predicate KeyChar(ch: char) {
    'a' <= ch <= 'z' || ch == '_'
  }

  predicate KeyShaped(key: string) {
    key != "" && forall i :: 0 <= i < |key| ==> KeyChar(key[i])
  }

  lemma {:induction false} KeyPlain(f: Field)
    ensures KeyShaped(KeyText(f))
  {
    if IsState(f) {
      StateKeyPlain(f);
    } else if IsScan(f) {
      ScanKeyPlain(f);
    } else {
      CompareKeyPlain(f);
    }
  }

  predicate IsState(f: Field) {
    f.ScanRunning? || f.CompareRunning? || f.DefaultPassword? || f.ReportsTotal? || f.LastReportTime? || f.JobsTotal?
  }

  predicate IsScan(f: Field) {
    f.LastScanReport? || f.LastScanTime? || f.LastScanFiles? || f.LastScanDuration?
  }

  lemma {:induction false} StateKeyPlain(f: Field)
    requires IsState(f)
    ensures KeyShaped(KeyText(f))
  {}

  lemma {:induction false} ScanKeyPlain(f: Field)
    requires IsScan(f)
    ensures KeyShaped(KeyText(f))
  {}

  lemma {:induction false} CompareKeyPlain(f: Field)
    requires !IsState(f) && !IsScan(f)
    ensures KeyShaped(KeyText(f))
  {}

  /** No printed field key looks like the key of a job. */
  lemma {:induction false} NoFieldIsJob(key: string)
    requires JOB <= key
    ensures KeyOf(key) == match CutLast(key[4..], '.') {
      case Some((name, field)) => OfJob(name, field)
      case None => Unknown
    }
  {
    hide CutLast;
    assert key[0] == 'j' && key[3] == '.';
  }

  lemma {:induction false} JobKeyRecognised(name: string, field: string)
    requires '.' !in field
    ensures KeyOf(JOB + name + "." + field) == OfJob(name, field)
  {
    var key := JOB + name + "." + field;
    assert key == JOB + (name + "." + field) && key[4..] == name + "." + field;
    CutLastAt(name, '.', field);
    NoFieldIsJob(key);
  }

  /** A printed line is taken apart as it was put together. */
  lemma {:induction false} LineApplied(c: Codec, m: HostMetrics, key: string, val: string)
    requires key != "" && !IsSpace(key[0]) && '=' !in key && EndsTrimmed(val)
    ensures ApplyLine(c, m, key + "=" + val) == Apply(c, m, KeyOf(key), val)
  {
    var line := key + "=" + val;
    assert line[0] == key[0] && line[|line| - 1] == if val == "" then '=' else val[|val| - 1];
    TrimSpaceOfPadded("", line, "");
    assert "" + line + "" == line;
    CutAt(key, '=', val);
  }

  lemma {:induction false} TrimRightKeeps(s: string, i: nat)
    requires i < |s| && !IsSpace(s[i])
    ensures i < |TrimRight(s)| && TrimRight(s)[..i + 1] == s[..i + 1]
  {
    if IsSpace(s[|s| - 1]) {
      TrimRightKeeps(s[..|s| - 1], i);
    }
  }

  /** Whatever follows the equals sign, the key is read back. */
  lemma {:induction false} LineKey(c: Codec, m: HostMetrics, key: string, text: string) returns (val: string)
    requires key != "" && !IsSpace(key[0]) && '=' !in key
    ensures ApplyLine(c, m, key + "=" + text) == Apply(c, m, KeyOf(key), val)
  {
    hide TrimRight, Apply, KeyOf;
    var line := key + "=" + text;
    var t := TrimRight(line);
    assert TrimSpace(line) == t;
    TrimRightKeeps(line, |key|);
    val := t[|key| + 1..];
    assert line[..|key| + 1] == key + ['='];
    assert t == key + ['='] + val;
    CutAt(key, '=', val);
  }

  lemma {:induction false} ApplyAppend(c: Codec, m: HostMetrics, a: seq<string>, b: seq<string>)
    ensures ApplyLines(c, m, a + b) == ApplyLines(c, ApplyLines(c, m, a), b)
  {
    if b == [] {
      assert a + b == a;
    } else {
      assert (a + b)[..|a + b| - 1] == a + b[..|b| - 1];
      ApplyAppend(c, m, a, b[..|b| - 1]);
    }
  }

  lemma {:induction false} ApplyNone(c: Codec, m: HostMetrics)
    ensures ApplyLines(c, m, []) == m
  {}

  lemma {:induction false} ApplyOne(c: Codec, m: HostMetrics, line: string)
    ensures ApplyLines(c, m, [line]) == ApplyLine(c, m, line)
  {
    assert [line][..0] == [];
  }

  lemma {:induction false} ApplyBlank(c: Codec, m: HostMetrics)
    ensures ApplyLines(c, m, [""]) == m
  {
    ApplyOne(c, m, "");
    TrimSpaceOfPadded("", "", "");
    assert "" + "" + "" == "";
  }

  // ---------------------------------------------------------------- the fields

  /** A text that survives the line it is printed on. */
  predicate Printable(s: string) {
    OneLine(s) && EndsTrimmed(s)
  }

  /** The name of the last report is not read back, so only it may end in white space. */
  predicate FitsLine(f: Field, text: string) {
    OneLine(text) && (f.LastScanReport? || EndsTrimmed(text))
  }

  ghost predicate PrintableFields(c: Codec, v: AgentView) {
    forall f :: FieldText(c, v, f).Some? ==> FitsLine(f, FieldText(c, v, f).value)
  }

  /** The number a field stands for, None where it is not printed or not a number. */
  function FieldValue(v: AgentView, f: Field): Option<real> {
    match f
    case ScanRunning => Some(B2I(v.scanRunning) as real)
    case CompareRunning => Some(B2I(v.compareRunning) as real)
    case DefaultPassword => Some(B2I(v.defaultPassword) as real)
    case ReportsTotal => Some(v.reports as real)
    case LastReportTime => if v.lastReport.Some? then Some(v.lastReport.value as real) else None
    case LastScanReport => None
    case LastScanTime => if v.lastScan.Some? then Some(v.lastScan.value.time as real) else None
    case LastScanFiles => if v.lastScan.Some? then Some(v.lastScan.value.files as real) else None
    case LastScanDuration => if v.lastScan.Some? then Some(v.lastScan.value.millis as real / 1000.0) else None
    case LastCompareTime => if v.lastCompare.Some? then Some(v.lastCompare.value.time as real) else None
    case LastCompareChanged => if v.lastCompare.Some? then Some(v.lastCompare.value.changed as real) else None
    case LastCompareNew => if v.lastCompare.Some? then Some(v.lastCompare.value.added as real) else None
    case LastCompareMissing => if v.lastCompare.Some? then Some(v.lastCompare.value.missing as real) else None
    case LastCompareMoved => if v.lastCompare.Some? then Some(v.lastCompare.value.moved as real) else None
    case JobsTotal => if v.schedule.Some? then Some(|v.schedule.value.jobs| as real) else None
  }

  function FieldAt(m: HostMetrics, f: Field): Option<real> {
    if f in m.fields then Some(m.fields[f]) else None
  }

  lemma {:induction false} TimeRead(c: Codec, t: nat)
    requires Inverse(c)
    ensures ParseMetricTime(c, c.formatTime(t)) == t as real && ParseMetricTime(c, c.formatLocal(t)) == t as real
  {
    TrimSelf(c.formatTime(t));
    TrimSelf(c.formatLocal(t));
  }

  lemma {:induction false} NumberRead(c: Codec, n: int, millis: nat)
    requires Inverse(c)
    ensures ParseMetricFloat(c, c.formatInt(n)) == n as real
    ensures ParseMetricFloat(c, c.formatMillis(millis)) == millis as real / 1000.0
  {
    TrimSelf(c.formatInt(n));
    TrimSelf(c.formatMillis(millis));
  }

  /** Reading the printed text of a field gives its number. */
  lemma {:induction false} FieldRead(c: Codec, v: AgentView, f: Field)
    requires Inverse(c) && !f.LastScanReport?
    ensures match FieldText(c, v, f) {
      case None => FieldValue(v, f).None?
      case Some(text) =>
        FieldValue(v, f) == Some(if IsTime(f) then ParseMetricTime(c, text) else ParseMetricFloat(c, text))
    }
  {
    match f {
      case ScanRunning => NumberRead(c, B2I(v.scanRunning), 0);
      case CompareRunning => NumberRead(c, B2I(v.compareRunning), 0);
      case DefaultPassword => NumberRead(c, B2I(v.defaultPassword), 0);
      case ReportsTotal => NumberRead(c, v.reports, 0);
      case LastReportTime => if v.lastReport.Some? { TimeRead(c, v.lastReport.value); }
      case LastScanTime => if v.lastScan.Some? { TimeRead(c, v.lastScan.value.time); }
      case LastScanFiles => if v.lastScan.Some? { NumberRead(c, v.lastScan.value.files, 0); }
      case LastScanDuration => if v.lastScan.Some? { NumberRead(c, 0, v.lastScan.value.millis); }
      case LastCompareTime => if v.lastCompare.Some? { TimeRead(c, v.lastCompare.value.time); }
      case LastCompareChanged => if v.lastCompare.Some? { NumberRead(c, v.lastCompare.value.changed, 0); }
      case LastCompareNew => if v.lastCompare.Some? { NumberRead(c, v.lastCompare.value.added, 0); }
      case LastCompareMissing => if v.lastCompare.Some? { NumberRead(c, v.lastCompare.value.missing, 0); }
      case LastCompareMoved => if v.lastCompare.Some? { NumberRead(c, v.lastCompare.value.moved, 0); }
      case JobsTotal => if v.schedule.Some? { NumberRead(c, |v.schedule.value.jobs|, 0); }
    }
  }

  /** After the first fields have been read, exactly their numbers are set. */
  lemma {:induction false} FieldsApplied(c: Codec, v: AgentView, fields: seq<Field>)
    requires Inverse(c) && PrintableFields(c, v)
    ensures var m := ApplyLines(c, NO_METRICS, FieldLines(c, v, fields));
      && m.jobs == map[]
      && forall f :: FieldAt(m, f) == if f in fields then FieldValue(v, f) else None
  {
    hide Inverse, KeyText, FieldText, FieldValue, ApplyLine, ApplyLines;
    if fields != [] {
      var init, f := fields[..|fields| - 1], fields[|fields| - 1];
      assert fields == init + [f];
      FieldsApplied(c, v, init);
      var lines := FieldLines(c, v, init);
      if FieldText(c, v, f).Some? {
        FieldApplied(c, v, ApplyLines(c, NO_METRICS, lines), f);
        ApplyAppend(c, NO_METRICS, lines, [FieldLine(c, v, f)]);
        ApplyOne(c, ApplyLines(c, NO_METRICS, lines), FieldLine(c, v, f));
      } else {
        assert FieldLines(c, v, fields) == lines;
        FieldMissing(c, v, f);
      }
    } else {
      ApplyNone(c, NO_METRICS);
    }
  }

  function FieldLine(c: Codec, v: AgentView, f: Field): string
    requires FieldText(c, v, f).Some?
  {
    KeyText(f) + "=" + FieldText(c, v, f).value
  }

  lemma {:induction false} FieldMissing(c: Codec, v: AgentView, f: Field)
    requires FieldText(c, v, f).None?
    ensures FieldValue(v, f).None?
  {}

  /** One printed line sets the number of its field. */
  lemma {:induction false} FieldApplied(c: Codec, v: AgentView, m: HostMetrics, f: Field)
    requires Inverse(c) && FieldText(c, v, f).Some? && FitsLine(f, FieldText(c, v, f).value)
    ensures var m' := ApplyLine(c, m, FieldLine(c, v, f));
      && m'.jobs == m.jobs
      && (forall g :: g != f ==> FieldAt(m', g) == FieldAt(m, g))
      && (f.LastScanReport? ==> m' == m && FieldValue(v, f).None?)
      && (!f.LastScanReport? ==> FieldAt(m', f) == FieldValue(v, f))
  {
    hide Inverse, KeyText, ApplyLine, KeyOf, ParseMetricFloat, ParseMetricTime, FieldText;
    KeyPlain(f);
    KeyRecognised(f);
    if f.LastScanReport? {
      var val := LineKey(c, m, KeyText(f), FieldText(c, v, f).value);
    } else {
      LineApplied(c, m, KeyText(f), FieldText(c, v, f).value);
      FieldRead(c, v, f);
    }
  }

  // ---------------------------------------------------------------- the jobs

  predicate SafeName(name: string) {
    '=' !in name && OneLine(name)
  }

  function TimeValue(t: Option<nat>): real {
    if t.Some? then t.value as real else 0.0
  }

  /** The record the exporter should have of a job. */
  function WantedJob(s: Schedule, name: string): JobMetric {
    var r := LatestRun(s.history, name);
    JobMetric(name, TimeValue(s.next(name)), if r.Some? then r.value.start as real else 0.0, StatusText(r))
  }

  /** A job the exporter can read: its name has no equals sign, and name and last status fit their lines. */
  predicate ReadableJob(s: Schedule, name: string) {
    SafeName(name) && Printable(StatusText(LatestRun(s.history, name)))
  }

  predicate IsFinishedRun(r: JobRun, name: string) {
    r.name == name && r.status != RUNNING
  }

  /** The run a job is shown with is its last finished one: none if there is none, and otherwise no later one. */
  lemma {:induction false} LatestRunIsLast(history: seq<JobRun>, name: string)
    ensures LatestRun(history, name).None? <==> forall r :: r in history ==> !IsFinishedRun(r, name)
    ensures LatestRun(history, name).Some? ==> exists i ::
      && 0 <= i < |history| && history[i] == LatestRun(history, name).value && IsFinishedRun(history[i], name)
      && forall j :: i < j < |history| ==> !IsFinishedRun(history[j], name)
  {
    if history != [] {
      var n := |history| - 1;
      assert history == history[..n] + [history[n]];
      LatestRunIsLast(history[..n], name);
      if !IsFinishedRun(history[n], name) && LatestRun(history[..n], name).Some? {
        var i :| 0 <= i < n && history[..n][i] == LatestRun(history, name).value && IsFinishedRun(history[..n][i], name)
          && forall j :: i < j < n ==> !IsFinishedRun(history[..n][j], name);
        assert forall j :: i < j < n ==> history[j] == history[..n][j];
      }
    }
  }

  lemma {:induction false} JobLineApplied(c: Codec, m: HostMetrics, name: string, field: string, val: string)
    requires SafeName(name) && '.' !in field && '=' !in field && EndsTrimmed(val)
    ensures ApplyLine(c, m, JobLine(name, field, val)) == Apply(c, m, OfJob(name, field), val)
  {
    var key := JOB + name + "." + field;
    assert '=' !in JOB && key[0] == 'j';
    LineApplied(c, m, key, val);
    JobKeyRecognised(name, field);
  }

  lemma {:induction false} TimesRead(c: Codec, s: Schedule, name: string)
    requires Inverse(c)
    ensures ParseMetricTime(c, NextText(c, s, name)) == TimeValue(s.next(name)) && EndsTrimmed(NextText(c, s, name))
    ensures var r := LatestRun(s.history, name);
      && ParseMetricTime(c, LastText(c, r)) == (if r.Some? then r.value.start as real else 0.0)
      && EndsTrimmed(LastText(c, r))
  {
    var r := LatestRun(s.history, name);
    if s.next(name).Some? {
      TimeRead(c, s.next(name).value);
    } else {
      TrimSelf("-");
    }
    if r.Some? {
      TimeRead(c, r.value.start);
    } else {
      TrimSelf("never");
    }
  }

  /** Records are kept under their own names. */
  ghost predicate NamedJobs(m: HostMetrics) {
    forall name :: name in m.jobs ==> m.jobs[name].name == name
  }

  /** The three lines of a job set its record. */
  lemma {:induction false} JobApplied(c: Codec, m: HostMetrics, s: Schedule, name: string)
    requires Inverse(c) && ReadableJob(s, name) && NamedJobs(m)
    ensures ApplyLines(c, m, JobLines(c, s, name)) == m.(jobs := m.jobs[name := WantedJob(s, name)])
  {
    hide Inverse, ApplyLines, ApplyLine;
    var r := LatestRun(s.history, name);
    TimesRead(c, s, name);
    ThreeApplied(c, m, JobLines(c, s, name));
    ThreeFields(c, m, name, NextText(c, s, name), LastText(c, r), StatusText(r));
  }

  lemma {:induction false} ThreeFields(
      c: Codec, m: HostMetrics, name: string, next: string, last: string, status: string)
    requires SafeName(name) && EndsTrimmed(next) && EndsTrimmed(last) && EndsTrimmed(status) && NamedJobs(m)
    ensures
      var m1 := ApplyLine(c, m, JobLine(name, "next", next));
      var m2 := ApplyLine(c, m1, JobLine(name, "last", last));
      ApplyLine(c, m2, JobLine(name, "status", status))
      == m.(jobs := m.jobs[name := JobMetric(name, ParseMetricTime(c, next), ParseMetricTime(c, last), status)])
  {
    hide JobLine, ApplyLine, ParseMetricTime;
    var m1 := Apply(c, m, OfJob(name, "next"), next);
    var m2 := Apply(c, m1, OfJob(name, "last"), last);
    JobLineApplied(c, m, name, "next", next);
    JobLineApplied(c, m1, name, "last", last);
    JobLineApplied(c, m2, name, "status", status);
    assert "last"[0] != "next"[0] && "status"[0] != "next"[0] && "status"[0] != "last"[0];
    var jm := JobOf(m, name);
    var jm1 := SetField(c, jm, "next", next);
    var jm2 := SetField(c, jm1, "last", last);
    var jm3 := SetField(c, jm2, "status", status);
    assert m.jobs[name := jm1][name := jm2][name := jm3] == m.jobs[name := jm3];
  }

  lemma {:induction false} ThreeApplied(c: Codec, m: HostMetrics, lines: seq<string>)
    requires |lines| == 3
    ensures ApplyLines(c, m, lines) == ApplyLine(c, ApplyLine(c, ApplyLine(c, m, lines[0]), lines[1]), lines[2])
  {
    hide ApplyLine;
    assert lines[..2][..1] == lines[..1] && lines[..1][..0] == [];
    assert ApplyLines(c, m, lines[..1]) == ApplyLine(c, m, lines[0]);
    assert ApplyLines(c, m, lines[..2]) == ApplyLine(c, ApplyLine(c, m, lines[0]), lines[1]);
  }

  ghost function WantedJobs(s: Schedule, n: nat): map<string, JobMetric>
    requires n <= |s.jobs|
  {
    map name | name in JobNames(s.jobs[..n]) :: WantedJob(s, name)
  }

  function JobNames(jobs: seq<SchedJob>): set<string> {
    set j | j in jobs :: j.name
  }

  lemma {:induction false} JobsApplied(c: Codec, m: HostMetrics, s: Schedule, n: nat)
    requires Inverse(c) && n <= |s.jobs| && m.jobs == map[]
    requires forall j :: j in s.jobs[..n] ==> ReadableJob(s, j.name)
    ensures ApplyLines(c, m, AllJobLines(c, s, n)) == m.(jobs := WantedJobs(s, n))
  {
    hide Inverse, ApplyLine, ApplyLines, ReadableJob, JobLines, WantedJob;
    if n == 0 {
      ApplyNone(c, m);
      assert WantedJobs(s, 0) == map[];
    } else {
      var name := s.jobs[n - 1].name;
      assert s.jobs[..n] == s.jobs[..n - 1] + [s.jobs[n - 1]];
      JobsApplied(c, m, s, n - 1);
      ApplyAppend(c, m, AllJobLines(c, s, n - 1), JobLines(c, s, name));
      WantedNamed(s, n - 1);
      JobApplied(c, m.(jobs := WantedJobs(s, n - 1)), s, name);
      WantedNext(s, n - 1);
    }
  }

  lemma {:induction false} WantedNamed(s: Schedule, n: nat)
    requires n <= |s.jobs|
    ensures forall name :: name in WantedJobs(s, n) ==> WantedJobs(s, n)[name].name == name
  {}

  lemma {:induction false} WantedNext(s: Schedule, n: nat)
    requires n < |s.jobs|
    ensures WantedJobs(s, n)[s.jobs[n].name := WantedJob(s, s.jobs[n].name)] == WantedJobs(s, n + 1)
  {
    hide WantedJob;
    assert s.jobs[..n + 1] == s.jobs[..n] + [s.jobs[n]];
    assert JobNames(s.jobs[..n + 1]) == JobNames(s.jobs[..n]) + {s.jobs[n].name};
  }

  // ---------------------------------------------------------------- the whole payload

  ghost predicate Wellformed(c: Codec, v: AgentView) {
    && Inverse(c)
    && (v.lastScan.Some? ==> OneLine(v.lastScan.value.reportName))
  }

  ghost predicate ReadableJobs(v: AgentView) {
    v.schedule.Some? ==> forall j :: j in v.schedule.value.jobs ==> ReadableJob(v.schedule.value, j.name)
  }

  lemma {:induction false} FieldsPrintable(c: Codec, v: AgentView)
    requires Wellformed(c, v)
    ensures PrintableFields(c, v)
  {}

  /** Every printed line is one line. */
  lemma {:induction false} LinesOneLine(c: Codec, v: AgentView, fields: seq<Field>)
    requires PrintableFields(c, v)
    ensures forall l :: l in FieldLines(c, v, fields) ==> OneLine(l)
  {
    if fields != [] {
      var f := fields[|fields| - 1];
      LinesOneLine(c, v, fields[..|fields| - 1]);
      KeyPlain(f);
    }
  }

  lemma {:induction false} JobLinesOneLine(c: Codec, s: Schedule, n: nat)
    requires Inverse(c) && n <= |s.jobs|
    requires forall j :: j in s.jobs[..n] ==> ReadableJob(s, j.name)
    ensures forall l :: l in AllJobLines(c, s, n) ==> OneLine(l)
  {
    if n > 0 {
      assert s.jobs[..n] == s.jobs[..n - 1] + [s.jobs[n - 1]];
      JobLinesOneLine(c, s, n - 1);
      OneJobOneLine(c, s, s.jobs[n - 1].name);
    }
  }

  lemma {:induction false} OneJobOneLine(c: Codec, s: Schedule, name: string)
    requires Inverse(c) && ReadableJob(s, name)
    ensures forall l :: l in JobLines(c, s, name) ==> OneLine(l)
  {
    assert OneLine("job.") && OneLine("next") && OneLine("last") && OneLine("status") && OneLine("never")
      && OneLine("-");
    assert OneLine(NextText(c, s, name)) && OneLine(LastText(c, LatestRun(s.history, name)));
  }

  /** With readable jobs, reading the payload gives every number and the wanted record of each job. */
  lemma {:induction false} PayloadRead(c: Codec, v: AgentView)
    requires Wellformed(c, v) && ReadableJobs(v)
    ensures var m := Parsed(c, Payload(c, v));
      && (forall f :: FieldAt(m, f) == FieldValue(v, f))
      && m.jobs == if v.schedule.Some? then WantedJobs(v.schedule.value, |v.schedule.value.jobs|) else map[]
  {
    FieldsPrintable(c, v);
    LinesOneLine(c, v, FieldOrder());
    FieldsApplied(c, v, FieldOrder());
    var lines := FieldLines(c, v, FieldOrder());
    var m := ApplyLines(c, NO_METRICS, lines);
    AllFields();
    if v.schedule.Some? {
      var s := v.schedule.value;
      assert s.jobs[..|s.jobs|] == s.jobs;
      JobLinesOneLine(c, s, |s.jobs|);
      JobsApplied(c, m, s, |s.jobs|);
      ApplyAppend(c, NO_METRICS, lines, AllJobLines(c, s, |s.jobs|));
    } else {
      assert PayloadLines(c, v) == lines;
    }
    PayloadSplit(c, PayloadLines(c, v));
  }

  lemma {:induction false} PayloadSplit(c: Codec, lines: seq<string>)
    requires forall l :: l in lines ==> OneLine(l)
    ensures Parsed(c, Unlines(lines)) == ApplyLines(c, NO_METRICS, lines)
  {
    SplitOfUnlines(lines, "");
    assert Unlines(lines) + "" == Unlines(lines);
    ApplyAppend(c, NO_METRICS, lines, [""]);
    ApplyBlank(c, ApplyLines(c, NO_METRICS, lines));
  }

  lemma {:induction false} AllFields()
    ensures forall f :: f in FieldOrder()
  {
    forall f ensures f in FieldOrder() {
      match f {
        case ScanRunning => assert FieldOrder()[0] == f;
        case CompareRunning => assert FieldOrder()[1] == f;
        case DefaultPassword => assert FieldOrder()[2] == f;
        case ReportsTotal => assert FieldOrder()[3] == f;
        case LastReportTime => assert FieldOrder()[4] == f;
        case LastScanReport => assert FieldOrder()[5] == f;
        case LastScanTime => assert FieldOrder()[6] == f;
        case LastScanFiles => assert FieldOrder()[7] == f;
        case LastScanDuration => assert FieldOrder()[8] == f;
        case LastCompareTime => assert FieldOrder()[9] == f;
        case LastCompareChanged => assert FieldOrder()[10] == f;
        case LastCompareNew => assert FieldOrder()[11] == f;
        case LastCompareMissing => assert FieldOrder()[12] == f;
        case LastCompareMoved => assert FieldOrder()[13] == f;
        case JobsTotal => assert FieldOrder()[14] == f;
      }
    }
  }

  /** Whatever is parsed, records stand under their own names, and their names and statuses fit a line. */
  ghost predicate PlainRecords(m: HostMetrics) {
    forall name :: name in m.jobs ==>
      m.jobs[name].name == name && SafeName(name) && Printable(m.jobs[name].lastStatus)
  }

  lemma {:induction false} ParsedPlain(c: Codec, lines: seq<string>)
    requires forall l :: l in lines ==> OneLine(l)
    ensures PlainRecords(ApplyLines(c, NO_METRICS, lines))
  {
    hide ApplyLine, SafeName, Printable, OneLine;
    if lines != [] {
      ParsedPlain(c, lines[..|lines| - 1]);
      LinePlain(c, ApplyLines(c, NO_METRICS, lines[..|lines| - 1]), lines[|lines| - 1]);
    }
  }

  lemma {:induction false} LinePlain(c: Codec, m: HostMetrics, line: string)
    requires OneLine(line) && PlainRecords(m)
    ensures PlainRecords(ApplyLine(c, m, line))
  {
    hide KeyOf, TrimSpace, ParseMetricTime, ParseMetricFloat;
    var t := TrimSpace(line);
    var left, right := TrimSpaceSplits(line);
    var pair := Cut(t, '=');
    if pair.Some? && KeyOf(pair.value.0).OfJob? {
      assert OneLine(t);
      NameInKey(pair.value.0);
      var val := pair.value.1;
      assert OneLine(val) && EndsTrimmed(val) by {
        assert val != "" ==> val[|val| - 1] == t[|t| - 1];
      }
    }
  }

  lemma {:induction false} NameInKey(key: string)
    requires KeyOf(key).OfJob? && SafeName(key)
    ensures SafeName(KeyOf(key).name)
  {
    var rest := key[4..];
    assert forall ch :: ch in rest ==> ch in key;
    var pair := CutLast(rest, '.').value;
    assert forall ch :: ch in pair.0 ==> ch in rest;
  }

  lemma {:induction false} PayloadPlain(c: Codec, v: AgentView)
    ensures PlainRecords(Parsed(c, Payload(c, v)))
  {
    hide ApplyLines, PlainRecords, Payload, Split;
    SplitPieces(Payload(c, v), '\n');
    ParsedPlain(c, Split(Payload(c, v), '\n'));
  }

  /**
   * The exporter has the right record of every job, and no other record, exactly when no job name contains
   * an equals sign or a newline and every last status fits its line. Dots are harmless.
   */
  lemma {:induction false} JobsReadExactly(c: Codec, v: AgentView)
    requires Wellformed(c, v) && v.schedule.Some?
    ensures Parsed(c, Payload(c, v)).jobs == WantedJobs(v.schedule.value, |v.schedule.value.jobs|) <==> ReadableJobs(v)
  {
    hide ReadableJob, Payload, Parsed, PlainRecords, Wellformed, WantedJob;
    var s := v.schedule.value;
    if ReadableJobs(v) {
      PayloadRead(c, v);
    } else {
      var j :| j in s.jobs && !ReadableJob(s, j.name);
      assert s.jobs[..|s.jobs|] == s.jobs;
      assert j.name in JobNames(s.jobs);
      PayloadPlain(c, v);
      RecordReadable(Parsed(c, Payload(c, v)), s, j.name);
      assert WantedJobs(s, |s.jobs|)[j.name] == WantedJob(s, j.name);
    }
  }

  /** Only a readable job has its record among those parsed. */
  lemma {:induction false} RecordReadable(m: HostMetrics, s: Schedule, name: string)
    requires PlainRecords(m) && !ReadableJob(s, name)
    ensures forall k :: k in m.jobs ==> m.jobs[k] != WantedJob(s, name)
  {}

  /**
   * What parseMetricsResponse returns holds one record for each job, the right one, exactly when the jobs are
   * readable and their names distinct.
   */
  lemma {:induction false} OneRecordPerJob(c: Codec, v: AgentView, jobs: seq<JobMetric>)
    requires Wellformed(c, v) && v.schedule.Some? && ValuesOf(jobs, Parsed(c, Payload(c, v)).jobs)
    ensures var s := v.schedule.value;
      |jobs| == |s.jobs| && (forall j :: j in s.jobs ==> WantedJob(s, j.name) in jobs)
      <==> ReadableJobs(v) && UniqueNames(s.jobs)
    ensures var s := v.schedule.value;
      ReadableJobs(v) ==> forall jm :: jm in jobs <==> exists j :: j in s.jobs && jm == WantedJob(s, j.name)
  {
    hide ReadableJob, Payload, Parsed, PlainRecords, Wellformed, WantedJob, UniqueNames;
    var s := v.schedule.value;
    var m := Parsed(c, Payload(c, v));
    assert s.jobs[..|s.jobs|] == s.jobs;
    if ReadableJobs(v) {
      PayloadRead(c, v);
      assert m.jobs.Keys == JobNames(s.jobs);
      NamesCount(s.jobs);
      forall j | j in s.jobs ensures WantedJob(s, j.name) in jobs {
        assert j.name in m.jobs && m.jobs[j.name] == WantedJob(s, j.name);
      }
    } else {
      var j :| j in s.jobs && !ReadableJob(s, j.name);
      PayloadPlain(c, v);
      RecordReadable(m, s, j.name);
    }
  }

  lemma {:induction false} NamesCount(jobs: seq<SchedJob>)
    ensures |JobNames(jobs)| <= |jobs|
    ensures |JobNames(jobs)| == |jobs| <==> UniqueNames(jobs)
  {
    hide UniqueNames;
    if jobs == [] {
      UniqueNone();
    } else {
      var init, last := jobs[..|jobs| - 1], jobs[|jobs| - 1];
      NamesCount(init);
      UniqueSnoc(init, last);
      assert jobs == init + [last];
      assert JobNames(jobs) == JobNames(init) + {last.name};
    }
  }

  lemma {:induction false} UniqueNone()
    ensures UniqueNames([])
  {}

  lemma {:induction false} UniqueSnoc(init: seq<SchedJob>, last: SchedJob)
    ensures UniqueNames(init + [last]) <==> UniqueNames(init) && last.name !in JobNames(init)
  {
    var jobs := init + [last];
    assert forall i :: 0 <= i < |init| ==> jobs[i] == init[i] && init[i].name in JobNames(init);
    if last.name in JobNames(init) {
      var i :| 0 <= i < |init| && init[i].name == last.name;
      assert jobs[i].name == jobs[|init|].name;
    }
    if UniqueNames(jobs) {
      assert forall i, j :: 0 <= i < j < |init| ==> jobs[i].name != jobs[j].name;
    }
  }
}
