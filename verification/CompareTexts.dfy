/** What the agent answers to "list", "compare" and "quickcompare". */
module CompareTexts {
  import opened Text
  import opened Order
  import opened Compare
  import opened Reports
  import opened Strip
  import opened ReportCompare
  import opened ReportListing
  import Names

  // ---------------------------------------------------------------- listing the report directory

  /** What os.ReadDir says of a directory entry. */
  datatype Entry = Entry(name: string, isDir: bool)

  function EntryNames(entries: seq<Entry>): seq<string> {
    seq(|entries|, i requires 0 <= i < |entries| => entries[i].name)
  }

  function FileNames(entries: seq<Entry>): seq<string> {
    if entries == [] then []
    else
      var last := entries[|entries| - 1];
      FileNames(entries[..|entries| - 1]) + if last.isDir then [] else [last.name]
  }

  function ListText(w: Wording, entries: Option<seq<Entry>>): string {
    match entries
    case None => ErrorLine("can't read report dir: " + w.dirError)
    case Some(es) => Unlines(FileNames(es))
  }

  /** listReportsFile: one line for each entry that is not a directory. */
  method ListReports(w: Wording, entries: Option<seq<Entry>>) returns (out: string)
    ensures out == ListText(w, entries)
  {
    hide Unlines;
    if entries.None? {
      return ErrorLine("can't read report dir: " + w.dirError);
    }
    var es := entries.value;
    var sb := Unlines([]);
    UnlinesOfNone();
    for i := 0 to |es|
      invariant sb == Unlines(FileNames(es[..i]))
    {
      assert es[..i + 1][..i] == es[..i];
      if es[i].isDir {
        assert FileNames(es[..i]) + [] == FileNames(es[..i]);
        continue;
      }
      UnlinesSnoc(FileNames(es[..i]), es[i].name);
      sb := sb + es[i].name + "\n";
    }
    assert es[..|es|] == es;
    out := sb;
  }

  // ---------------------------------------------------------------- comparing two reports in words

  /** One line for each entry of a comparison. */
  ghost function EntryLines(cr: CompareReport, newOrder: seq<string>, missingOrder: seq<string>): seq<string>
    requires Elements(newOrder) <= cr.newFiles.Keys && Elements(missingOrder) <= cr.missingFiles.Keys
  {
    MapLines(cr.newFiles, newOrder, NewLine) + MapLines(cr.missingFiles, missingOrder, MissingLine)
    + ChangedLines(cr.changedFiles) + MovedLines(cr.movedFiles)
  }

  function TextHead(oh: Header, nh: Header): seq<string> {
    ["Old: " + HeaderLine(oh), "New: " + HeaderLine(nh), ""]
  }

  /** The headers, a blank line, and the entries; the entries from maps in some order. */
  ghost predicate IsCompareText(text: string, oh: Header, nh: Header, cr: CompareReport) {
    exists newOrder, missingOrder ::
      && OrderOf(newOrder, cr.newFiles.Keys) && OrderOf(missingOrder, cr.missingFiles.Keys)
      && text == Unlines(TextHead(oh, nh) + EntryLines(cr, newOrder, missingOrder))
  }

  method CompareText(oh: Header, nh: Header, cr: CompareReport) returns (text: string)
    ensures IsCompareText(text, oh, nh, cr)
  {
    hide Unlines, MapLines, ChangedLines, MovedLines, TextHead, Distinct;
    var added, newOrder := WriteMap(cr.newFiles, NewLine);
    var missing, missingOrder := WriteMap(cr.missingFiles, MissingLine);
    var changed := WriteLines(ChangedLines(cr.changedFiles));
    var moved := WriteLines(MovedLines(cr.movedFiles));
    text := Unlines(TextHead(oh, nh)) + added + missing + changed + moved;
    var a, m := MapLines(cr.newFiles, newOrder, NewLine), MapLines(cr.missingFiles, missingOrder, MissingLine);
    var c, d := ChangedLines(cr.changedFiles), MovedLines(cr.movedFiles);
    FiveParts(TextHead(oh, nh), a, m, c, d);
    FourAfter(TextHead(oh, nh), a, m, c, d);
  }

  lemma {:induction false} FourAfter(h: seq<string>, a: seq<string>, b: seq<string>, c: seq<string>, d: seq<string>)
    ensures h + a + b + c + d == h + (a + b + c + d)
  {
    AppendAssoc(h, a, b);
    AppendAssoc(h, a + b, c);
    AppendAssoc(h, a + b + c, d);
  }

  function StatErrorText(w: Wording, error: ReportError, id: string): string {
    match error
    case InvalidID => "invalid report ID " + w.quote(id)
    case CannotOpen => w.openError(id)
    case HeaderNotParsed => id + ": header not parsed"
  }

  /** The settings a comparison depends on. */
  datatype CompareSettings = CompareSettings(removeBasePath: bool, ignored: string -> bool)

  /** A comparison of two report files that can both be read. */
  ghost predicate Compared(
      files: map<string, string>, id1: string, id2: string, settings: CompareSettings, cr: CompareReport) {
    && Stat(files, id1).Ok? && Stat(files, id2).Ok?
    && exists a, b ::
      && Prepared(files[id1], Stat(files, id1).value, settings.removeBasePath, a)
      && Prepared(files[id2], Stat(files, id2).value, settings.removeBasePath, b)
      && IsReport(a, b, settings.ignored, cr)
  }

  /** What compareReportsString answers: why a report cannot be read, or the comparison. */
  ghost predicate IsAnswer(
      files: map<string, string>, id1: string, id2: string, settings: CompareSettings, w: Wording, text: string) {
    var oh, nh := Stat(files, id1), Stat(files, id2);
    if oh.Err? then text == ErrorLine(StatErrorText(w, oh.error, id1))
    else if nh.Err? then text == ErrorLine(StatErrorText(w, nh.error, id2))
    else exists cr :: Compared(files, id1, id2, settings, cr) && IsCompareText(text, oh.value, nh.value, cr)
  }

  function CompareName(id1: string, id2: string): string {
    "compare__" + id1 + "__" + id2
  }

  /** The file of a comparison is known as one afterwards, with its time, and is never taken for a scan. */
  lemma {:induction false} SavedComparisonKnown(id1: string, id2: string, t: Names.Stamp, reportName: string)
    requires Names.Real(t) && t.nanos == 0
    ensures var file := CompareName(id1, id2) + "__" + Names.FormatTime(t);
      && file == "compare__" + id1 + "__" + id2 + "__" + Names.FormatTime(t)
      && "compare__" <= file && TimeOf(file) == t && !Matching(file, reportName)
  {
    hide Names.FormatTime, Names.Tokens, Names.TimestampOf;
    var name := CompareName(id1, id2);
    var file := name + "__" + Names.FormatTime(t);
    Names.TimestampRoundTrip(name + "_", t);
    assert file == (name + "_") + "_" + Names.FormatTime(t);
    assert file[..|"compare__"|] == "compare__";
  }

  /** compareReportsString: the comparison is saved and then printed. */
  method CompareReportsString(
      dir: ReportDir, id1: string, id2: string, timeString: string, settings: CompareSettings, w: Wording)
    returns (text: string)
    modifies dir
    ensures IsAnswer(old(dir.files), id1, id2, settings, w, text)
    ensures var file := CompareName(id1, id2) + "__" + timeString;
      if Stat(old(dir.files), id1).Ok? && Stat(old(dir.files), id2).Ok? then
        && dir.files.Keys == old(dir.files.Keys) + {file}
        && (forall other :: other in old(dir.files) && other != file ==> dir.files[other] == old(dir.files[other]))
        && exists cr ::
          && Compared(old(dir.files), id1, id2, settings, cr)
          && IsCompareText(text, Stat(old(dir.files), id1).value, Stat(old(dir.files), id2).value, cr)
          && IsCompareFile(dir.files[file], Stat(old(dir.files), id1).value, Stat(old(dir.files), id2).value, cr)
      else dir.files == old(dir.files)
  {
    hide IsReport, Prepared, IsCompareText, IsCompareFile, StatErrorText, ErrorLine, Stat;
    var r := CompareReportFiles(dir, id1, id2, settings.removeBasePath, settings.ignored);
    var oh, nh := Stat(dir.files, id1), Stat(dir.files, id2);
    if oh.Err? {
      return ErrorLine(StatErrorText(w, oh.error, id1));
    }
    if nh.Err? {
      return ErrorLine(StatErrorText(w, nh.error, id2));
    }
    assert Compared(dir.files, id1, id2, settings, r.value);
    SaveCompareFile(dir, CompareName(id1, id2), timeString, oh.value, nh.value, r.value);
    text := CompareText(oh.value, nh.value, r.value);
  }

  // ---------------------------------------------------------------- what a comparison in words looks like

  ghost predicate AllFilesOneLine(files: Files) {
    forall k :: k in files ==> OneLine(k) && OneLine(files[k])
  }

  lemma {:induction false} LoadedOneLine(lines: seq<string>)
    requires forall l :: l in lines ==> OneLine(l)
    ensures AllFilesOneLine(LoadLines(lines))
  {
    if lines != [] {
      LoadedOneLine(lines[..|lines| - 1]);
      assert OneLine(lines[|lines| - 1]);
    }
  }

  lemma {:induction false} RemoveKeepsLine(s: string, base: string)
    requires OneLine(s)
    ensures OneLine(RemoveAll(s, base))
    decreases |s|
  {
    if base != "" && |s| >= |base| {
      if base <= s {
        assert forall c :: c in s[|base|..] ==> c in s;
        RemoveKeepsLine(s[|base|..], base);
      } else {
        assert forall c :: c in s[1..] ==> c in s;
        RemoveKeepsLine(s[1..], base);
      }
    }
  }

  lemma {:induction false} StripKeepsLines(m: Files, order: seq<string>, base: string)
    requires AllFilesOneLine(m) && Elements(order) <= m.Keys
    ensures AllFilesOneLine(StripAll(m, order, base))
  {
    hide RemoveAll;
    if order != [] {
      var init, k := order[..|order| - 1], order[|order| - 1];
      assert order == init + [k] && k in Elements(order);
      assert Elements(init) <= Elements(order);
      StripKeepsLines(m, init, base);
      RemoveKeepsLine(k, base);
    }
  }

  lemma {:induction false} PreparedOneLine(content: string, h: Header, removeBasePath: bool, files: Files)
    requires Prepared(content, h, removeBasePath, files)
    ensures AllFilesOneLine(files)
  {
    hide AllFilesOneLine, LoadLines, LaterLines, StripAll;
    var loaded := LoadLines(LaterLines(content));
    LaterOneLine(content);
    LoadedOneLine(LaterLines(content));
    if removeBasePath {
      var order :| OrderOf(order, loaded.Keys) && files == StripAll(loaded, order, h.path);
      StripKeepsLines(loaded, order, h.path);
    }
  }

  lemma {:induction false} LaterOneLine(content: string)
    ensures forall l :: l in LaterLines(content) ==> OneLine(l)
    ensures OneLine(FirstLine(content))
  {
    ScanLinesOneLine(content);
  }

  lemma {:induction false} StatOneLine(files: map<string, string>, id: string)
    requires Stat(files, id).Ok?
    ensures OneLine(HeaderLine(Stat(files, id).value))
  {
    hide ParseHeader, HeaderLine, FirstLine;
    LaterOneLine(files[id]);
    ParsedHeader(FirstLine(files[id]));
  }

  /** Whatever is compared, its entries are single lines, because reports are read line by line. */
  lemma {:induction false} ComparedOneLines(
      files: map<string, string>, id1: string, id2: string, settings: CompareSettings, cr: CompareReport)
    requires Compared(files, id1, id2, settings, cr)
    ensures OneLines(cr)
  {
    hide ParseHeader, FirstLine, ValidReportID, Prepared, IsReport, OneLines;
    var a, b :|
      && Prepared(files[id1], Stat(files, id1).value, settings.removeBasePath, a)
      && Prepared(files[id2], Stat(files, id2).value, settings.removeBasePath, b)
      && IsReport(a, b, settings.ignored, cr);
    PreparedOneLine(files[id1], Stat(files, id1).value, settings.removeBasePath, a);
    PreparedOneLine(files[id2], Stat(files, id2).value, settings.removeBasePath, b);
    ReportOneLines(a, b, settings.ignored, cr);
  }

  lemma {:induction false} ReportOneLines(a: Files, b: Files, ignored: string -> bool, cr: CompareReport)
    requires AllFilesOneLine(a) && AllFilesOneLine(b) && IsReport(a, b, ignored, cr)
    ensures OneLines(cr)
  {
    forall c: Change | c in cr.changedFiles ensures OneLine(c.path) && OneLine(c.oldHash) && OneLine(c.newHash) {
      assert c in multiset(cr.changedFiles);
    }
  }

  /** A line of a comparison, its headers included, holds a character that the sentinel does not. */
  predicate Marked(line: string) {
    OneLine(line) && ((line != "" && line[0] in {'C', 'M'}) || (|line| > 2 && line[2] in {'W', 'w', 'd'}))
  }

  lemma {:induction false} MapLinesMarked(files: Files, order: seq<string>, line: (string, string) -> string)
    requires Elements(order) <= files.Keys
    requires forall k :: k in files ==> Marked(line(k, files[k]))
    ensures |MapLines(files, order, line)| == |order| && forall l :: l in MapLines(files, order, line) ==> Marked(l)
  {
    hide Marked;
    forall l | l in MapLines(files, order, line) ensures Marked(l) {
      var i :| 0 <= i < |order| && l == MapLines(files, order, line)[i];
      assert order[i] in Elements(order);
    }
  }

  lemma {:induction false} EntriesMarked(cr: CompareReport)
    requires OneLines(cr)
    ensures forall k :: k in cr.newFiles ==> Marked(NewLine(k, cr.newFiles[k]))
    ensures forall k :: k in cr.missingFiles ==> Marked(MissingLine(k, cr.missingFiles[k]))
    ensures forall l :: l in ChangedLines(cr.changedFiles) ==> Marked(l)
    ensures forall l :: l in MovedLines(cr.movedFiles) ==> Marked(l)
  {
    ListLinesOneLine(cr);
    assert NEW[2] == 'W' && MISSING[0] == 'M' && CHANGED[0] == 'C' && MOVED[0] == 'M';
    assert OneLine(NEW) && OneLine(MISSING);
  }

  /** One line for each entry. */
  lemma {:induction false} EntryLinesMarked(cr: CompareReport, newOrder: seq<string>, missingOrder: seq<string>)
    requires OneLines(cr) && OrderOf(newOrder, cr.newFiles.Keys) && OrderOf(missingOrder, cr.missingFiles.Keys)
    ensures var lines := EntryLines(cr, newOrder, missingOrder);
      && |lines| == |cr.newFiles| + |cr.missingFiles| + |cr.changedFiles| + |cr.movedFiles|
      && forall l :: l in lines ==> Marked(l)
  {
    hide Marked, OneLines, NewLine, MissingLine;
    EntriesMarked(cr);
    MapLinesMarked(cr.newFiles, newOrder, NewLine);
    MapLinesMarked(cr.missingFiles, missingOrder, MissingLine);
    DistinctElements(newOrder);
    DistinctElements(missingOrder);
  }

  lemma {:induction false} HeadMarked(oh: Header, nh: Header)
    requires OneLine(HeaderLine(oh)) && OneLine(HeaderLine(nh))
    ensures |TextHead(oh, nh)| == 3 && forall l :: l in TextHead(oh, nh) ==> OneLine(l) && (Marked(l) || l == "")
  {
    hide HeaderLine;
    assert "Old: "[2] == 'd' && "New: "[2] == 'w' && OneLine("Old: ") && OneLine("New: ");
  }

  /**
   * The answer to a comparison that can be carried out: two headers, a blank line, and one line for each entry,
   * every line but the blank one marked.
   */
  lemma {:induction false} AnswerLines(
      files: map<string, string>, id1: string, id2: string, settings: CompareSettings, cr: CompareReport, text: string)
    requires Compared(files, id1, id2, settings, cr)
    requires IsCompareText(text, Stat(files, id1).value, Stat(files, id2).value, cr)
    ensures var lines := RawLines(text);
      && text == Unlines(lines)
      && |lines| == 3 + |cr.newFiles| + |cr.missingFiles| + |cr.changedFiles| + |cr.movedFiles|
      && lines[..3] == TextHead(Stat(files, id1).value, Stat(files, id2).value)
      && forall l :: l in lines ==> OneLine(l) && (Marked(l) || l == "")
  {
    hide Marked, OneLines, HeaderLine, Stat, Prepared, IsReport, EntryLines, RawLines, TextHead, Distinct;
    var oh, nh := Stat(files, id1).value, Stat(files, id2).value;
    ComparedOneLines(files, id1, id2, settings, cr);
    StatOneLine(files, id1);
    StatOneLine(files, id2);
    var newOrder, missingOrder :| OrderOf(newOrder, cr.newFiles.Keys) && OrderOf(missingOrder, cr.missingFiles.Keys)
      && text == Unlines(TextHead(oh, nh) + EntryLines(cr, newOrder, missingOrder));
    EntryLinesMarked(cr, newOrder, missingOrder);
    HeadMarked(oh, nh);
    LinesOfAnswer(TextHead(oh, nh), EntryLines(cr, newOrder, missingOrder), text);
  }

  lemma {:induction false} LinesOfAnswer(head: seq<string>, entries: seq<string>, text: string)
    requires |head| == 3 && text == Unlines(head + entries)
    requires forall l :: l in head ==> OneLine(l) && (Marked(l) || l == "")
    requires forall l :: l in entries ==> Marked(l)
    ensures RawLines(text) == head + entries
    ensures |RawLines(text)| == 3 + |entries| && RawLines(text)[..3] == head
    ensures forall l :: l in RawLines(text) ==> OneLine(l) && (Marked(l) || l == "")
  {
    hide Marked, RawLines, OneLine;
    forall l | l in entries ensures OneLine(l) {
      MarkedOneLine(l);
    }
    RawLinesOfUnlines(head + entries);
  }

  lemma {:induction false} MarkedOneLine(line: string)
    requires Marked(line)
    ensures OneLine(line)
  {}

  lemma {:induction false} AnswerTerminated(
      files: map<string, string>, id1: string, id2: string, settings: CompareSettings, w: Wording, text: string)
    requires IsAnswer(files, id1, id2, settings, w, text)
    ensures Terminated(text)
  {
    hide Stat, StatErrorText, Compared, EntryLines, TextHead, Distinct, Unlines;
    var oh, nh := Stat(files, id1), Stat(files, id2);
    if oh.Ok? && nh.Ok? {
      var cr :| Compared(files, id1, id2, settings, cr) && IsCompareText(text, oh.value, nh.value, cr);
      var newOrder, missingOrder :| OrderOf(newOrder, cr.newFiles.Keys) && OrderOf(missingOrder, cr.missingFiles.Keys)
        && text == Unlines(TextHead(oh.value, nh.value) + EntryLines(cr, newOrder, missingOrder));
      UnlinesTerminated(TextHead(oh.value, nh.value) + EntryLines(cr, newOrder, missingOrder));
    }
  }

  // ---------------------------------------------------------------- the last two reports in words

  function QuickHead(w: Wording, reportName: string, older: string, newer: string): string {
    "Quick compare \U{2014} report name: " + w.quote(reportName) + "\n  older: " + older + "\n  newer: " + newer
        + "\n\n"
  }

  /** What quickCompareString answers. */
  ghost predicate IsQuickAnswer(
      entries: Option<seq<Entry>>, reportDir: string, reportName: string, files: map<string, string>,
      settings: CompareSettings, w: Wording, text: string) {
    match entries
    case None => text == ErrorLine("reading report dir " + w.quote(reportDir) + ": " + w.dirError)
    case Some(es) =>
      var matches := Matches(EntryNames(es), reportName);
      if |matches| < 2 then
        text == ErrorLine("need at least 2 reports named " + w.quote(reportName) + ", found " + w.number(|matches|))
      else exists older, newer, body ::
        && LastTwo(matches, older, newer)
        && IsAnswer(files, older.name, newer.name, settings, w, body)
        && text == QuickHead(w, reportName, older.name, newer.name) + body
  }

  method QuickCompareString(
      dir: ReportDir, entries: Option<seq<Entry>>, reportDir: string, reportName: string, timeString: string,
      settings: CompareSettings, w: Wording)
    returns (text: string)
    modifies dir
    ensures IsQuickAnswer(entries, reportDir, reportName, old(dir.files), settings, w, text)
  {
    hide IsAnswer, LastTwo, Stat, Compared, QuickHead, IsCompareText, IsCompareFile, Matches;
    if entries.None? {
      return ErrorLine("reading report dir " + w.quote(reportDir) + ": " + w.dirError);
    }
    var names := EntryNames(entries.value);
    var found := FindLastTwoReports(names, reportName);
    if found.None? {
      return ErrorLine("need at least 2 reports named " + w.quote(reportName) + ", found "
          + w.number(|Matches(names, reportName)|));
    }
    var body := CompareReportsString(dir, found.value.0, found.value.1, timeString, settings, w);
    text := QuickHead(w, reportName, found.value.0, found.value.1) + body;
  }

  lemma {:induction false} QuickTerminated(
      entries: Option<seq<Entry>>, reportDir: string, reportName: string, files: map<string, string>,
      settings: CompareSettings, w: Wording, text: string)
    requires IsQuickAnswer(entries, reportDir, reportName, files, settings, w, text)
    ensures Terminated(text)
  {
    hide IsAnswer, LastTwo, Matches;
    if entries.Some? && |Matches(EntryNames(entries.value), reportName)| >= 2 {
      var older, newer, body :|
        && LastTwo(Matches(EntryNames(entries.value), reportName), older, newer)
        && IsAnswer(files, older.name, newer.name, settings, w, body)
        && text == QuickHead(w, reportName, older.name, newer.name) + body;
      AnswerTerminated(files, older.name, newer.name, settings, w, body);
      assert QuickHead(w, reportName, older.name, newer.name) != "";
    }
  }

  lemma {:induction false} ListTerminated(w: Wording, entries: Option<seq<Entry>>)
    ensures Terminated(ListText(w, entries))
  {
    if entries.Some? {
      UnlinesTerminated(FileNames(entries.value));
    }
  }
}
