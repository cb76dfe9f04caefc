/** Comparing report files, and the counts read back from the files a scan or a comparison leaves. */
module ReportCompare {
  import opened Text
  import opened Order
  import opened Compare
  import opened CompareLaws
  import opened Reports
  import opened Strip

  // ---------------------------------------------------------------- comparing two report files

  /** What a report file contributes to a comparison. */
  ghost predicate Prepared(content: string, h: Header, removeBasePath: bool, files: Files) {
    var loaded := LoadLines(LaterLines(content));
    if removeBasePath then exists order :: OrderOf(order, loaded.Keys) && files == StripAll(loaded, order, h.path)
    else files == loaded
  }

  method Prepare(content: string, h: Header, removeBasePath: bool) returns (files: Files)
    ensures Prepared(content, h, removeBasePath, files)
  {
    var table := new FileTable(map[]);
    LoadReportFile(content, table);
    assert table.v == LoadLines(LaterLines(content));
    if removeBasePath {
      StripBasePath(table, h.path);
    }
    files := table.v;
  }

  /** buildCompareReport on files: both headers are read first; an invalid, missing or malformed file is an error. */
  method CompareReportFiles(
      dir: ReportDir, oldName: string, newName: string, removeBasePath: bool, ignored: string -> bool)
    returns (r: Result<CompareReport>)
    ensures var oh, nh := Stat(dir.files, oldName), Stat(dir.files, newName);
      && (r.Ok? <==> oh.Ok? && nh.Ok?)
      && (r.Err? ==> r.error == if oh.Err? then oh.error else nh.error)
    ensures r.Ok? ==> exists a, b ::
      && Prepared(dir.files[oldName], Stat(dir.files, oldName).value, removeBasePath, a)
      && Prepared(dir.files[newName], Stat(dir.files, newName).value, removeBasePath, b)
      && IsReport(a, b, ignored, r.value)
  {
    var oh, nh := Stat(dir.files, oldName), Stat(dir.files, newName);
    if oh.Err? {
      return Err(oh.error);
    }
    if nh.Err? {
      return Err(nh.error);
    }
    var was := Prepare(dir.files[oldName], oh.value, removeBasePath);
    var now := Prepare(dir.files[newName], nh.value, removeBasePath);
    var cr := BuildCompareReport(was, now, ignored);
    r := Ok(cr);
  }

  /** A saved scan comes back as it was, or without its base path. */
  lemma {:induction false} SavedScanPrepared(content: string, h: Header, files: Files, prepared: Files)
    requires IsScanReport(content, h, files) && SafeHeader(h) && PlainHashes(files) && SafePaths(files)
    ensures Prepared(content, h, false, prepared) <==> prepared == files
    ensures UnderBase(h.path, files.Keys) ==>
      (Prepared(content, h, true, prepared) <==> prepared == Stripped(files, h.path))
  {
    DropCROfHeader(h);
    DiskRoundTrip(content, h, files);
    if UnderBase(h.path, files.Keys) {
      var some := SomeOrder(files.Keys);
      StripAnyOrder(files, h.path, some);
      forall order | OrderOf(order, files.Keys) ensures StripAll(files, order, h.path) == Stripped(files, h.path) {
        StripAnyOrder(files, h.path, order);
      }
    }
  }

  lemma {:induction false} SomeOrder(keys: set<string>) returns (order: seq<string>)
    ensures OrderOf(order, keys)
  {
    order := Listing(keys);
    forall i, j | 0 <= i < j < |order| ensures order[i] != order[j] {
      LessIrreflexive(order[i]);
    }
  }

  /** Comparing two saved scans is comparing the scans themselves. */
  lemma {:induction false} ComparingFilesComparesScans(
    older: string, oh: Header, was: Files, newer: string, nh: Header, now: Files, ignored: string -> bool,
    cr: CompareReport)
    requires IsScanReport(older, oh, was) && SafeHeader(oh) && PlainHashes(was) && SafePaths(was)
    requires IsScanReport(newer, nh, now) && SafeHeader(nh) && PlainHashes(now) && SafePaths(now)
    ensures ParseHeader(FirstLine(older)) == Ok(oh) && ParseHeader(FirstLine(newer)) == Ok(nh)
    ensures (exists a, b ::
        Prepared(older, oh, false, a) && Prepared(newer, nh, false, b) && IsReport(a, b, ignored, cr))
       <==> IsReport(was, now, ignored, cr)
  {
    hide *;
    HeaderRoundTrip(older, oh, was);
    HeaderRoundTrip(newer, nh, now);
    forall a ensures Prepared(older, oh, false, a) <==> a == was {
      SavedScanPrepared(older, oh, was, a);
    }
    forall b ensures Prepared(newer, nh, false, b) <==> b == now {
      SavedScanPrepared(newer, nh, now, b);
    }
  }

  /** One tree, scanned under two base paths and saved, compares as empty when base paths are removed. */
  lemma {:induction false} SameTreeTwoBases(
    tree: Files, older: string, oh: Header, newer: string, nh: Header, a: Files, b: Files, ignored: string -> bool,
    cr: CompareReport)
    requires Avoids(oh.path, tree) && Avoids(nh.path, tree) && PlainHashes(tree)
    requires SafeHeader(oh) && SafePaths(Relocate(tree, oh.path)) && IsScanReport(older, oh, Relocate(tree, oh.path))
    requires SafeHeader(nh) && SafePaths(Relocate(tree, nh.path)) && IsScanReport(newer, nh, Relocate(tree, nh.path))
    requires Prepared(older, oh, true, a) && Prepared(newer, nh, true, b) && IsReport(a, b, ignored, cr)
    ensures cr == CompareReport(map[], map[], [], [])
  {
    RelocatedScan(tree, older, oh, a);
    RelocatedScan(tree, newer, nh, b);
    EmptyReport(tree, tree, ignored, cr);
  }

  lemma {:induction false} RelocatedScan(tree: Files, content: string, h: Header, prepared: Files)
    requires Avoids(h.path, tree) && PlainHashes(tree)
    requires SafeHeader(h) && SafePaths(Relocate(tree, h.path)) && IsScanReport(content, h, Relocate(tree, h.path))
    requires Prepared(content, h, true, prepared)
    ensures prepared == tree
  {
    var files := Relocate(tree, h.path);
    RelocateStripped(tree, h.path);
    forall k | k in files ensures OneLine(files[k]) && ',' !in files[k] {
      assert k[|h.path|..] in tree;
    }
    SavedScanPrepared(content, h, files, prepared);
  }

  // ---------------------------------------------------------------- counting the files of a scan report

  function NonEmpty(lines: seq<string>): nat {
    if lines == [] then 0 else NonEmpty(lines[..|lines| - 1]) + if lines[|lines| - 1] != "" then 1 else 0
  }

  /** The places of the lines that are not empty are as many as NonEmpty counts. */
  lemma {:induction false} NonEmptyCounts(lines: seq<string>)
    ensures NonEmpty(lines) == |set i | 0 <= i < |lines| && lines[i] != ""|
  {
    if lines != [] {
      var n := |lines| - 1;
      NonEmptyCounts(lines[..n]);
      var before, all := set i | 0 <= i < n && lines[..n][i] != "", set i | 0 <= i < |lines| && lines[i] != "";
      assert all == before + if lines[n] != "" then {n} else {};
    }
  }

  /** countReportLines: the lines after the header that are not empty. */
  method CountReportLines(content: string) returns (count: nat)
    ensures count == NonEmpty(LaterLines(content))
  {
    hide LaterLines;
    var lines := LaterLines(content);
    count := 0;
    for i := 0 to |lines|
      invariant count == NonEmpty(lines[..i])
    {
      assert lines[..i + 1][..i] == lines[..i];
      if lines[i] != "" {
        count := count + 1;
      }
    }
    assert lines[..|lines|] == lines;
  }

  lemma {:induction false} NonEmptyAll(lines: seq<string>)
    requires forall i :: 0 <= i < |lines| ==> lines[i] != ""
    ensures NonEmpty(lines) == |lines|
  {
    if lines != [] {
      NonEmptyAll(lines[..|lines| - 1]);
    }
  }

  /** After a restart the file count read from a scan report is the size of the scan. */
  lemma {:induction false} FileCountRestored(content: string, h: Header, files: Files)
    requires IsScanReport(content, h, files) && OneLine(HeaderLine(h)) && PlainHashes(files)
    requires forall k :: k in files ==> OneLine(k)
    ensures NonEmpty(LaterLines(content)) == |files|
  {
    var order :| OrderOf(order, files.Keys) && content == Unlines([HeaderLine(h)] + Rows(files, order));
    forall k | k in order ensures OneLine(k) {
      assert k in Elements(order);
    }
    ScanLinesOfReport(HeaderLine(h), files, order);
    var lines := DropCRs(Rows(files, order));
    forall i | 0 <= i < |lines| ensures lines[i] != "" {
      assert order[i] in Elements(order);
      DropCROfRow(files[order[i]], order[i]);
    }
    NonEmptyAll(lines);
    DistinctElements(order);
  }

  // ---------------------------------------------------------------- comparison files

  const CHANGED := "CHANGED - "
  const NEW := "NEW - "
  const MISSING := "MISSING - "
  const MOVED := "MOVED - "

  function NewLine(k: string, v: string): string { NEW + (k + " - " + v) }

  function MissingLine(k: string, v: string): string { MISSING + (k + " - " + v) }

  function ChangedLine(c: Change): string { CHANGED + (c.path + " - " + c.oldHash + " ==> " + c.newHash) }

  function MovedLine(m: Move): string { MOVED + (m.oldPath + " ==> " + m.newPath + " - " + m.hash) }

  ghost function MapLines(files: Files, order: seq<string>, line: (string, string) -> string): seq<string>
    requires Elements(order) <= files.Keys
  {
    seq(|order|, i requires 0 <= i < |order| => assert order[i] in Elements(order); line(order[i], files[order[i]]))
  }

  function ChangedLines(changes: seq<Change>): seq<string> {
    seq(|changes|, i requires 0 <= i < |changes| => ChangedLine(changes[i]))
  }

  function MovedLines(moves: seq<Move>): seq<string> {
    seq(|moves|, i requires 0 <= i < |moves| => MovedLine(moves[i]))
  }

  function HeaderLines(oh: Header, nh: Header): seq<string> {
    ["Old Header: " + HeaderLine(oh), "New Header: " + HeaderLine(nh)]
  }

  ghost function CompareLines(
      oh: Header, nh: Header, cr: CompareReport, newOrder: seq<string>, missingOrder: seq<string>): seq<string>
    requires Elements(newOrder) <= cr.newFiles.Keys && Elements(missingOrder) <= cr.missingFiles.Keys
  {
    HeaderLines(oh, nh)
    + MapLines(cr.newFiles, newOrder, NewLine) + MapLines(cr.missingFiles, missingOrder, MissingLine)
    + ChangedLines(cr.changedFiles) + MovedLines(cr.movedFiles)
  }

  /** The content of a comparison file: headers, then the categories one after the other. */
  ghost predicate IsCompareFile(content: string, oh: Header, nh: Header, cr: CompareReport) {
    exists newOrder, missingOrder ::
      && OrderOf(newOrder, cr.newFiles.Keys) && OrderOf(missingOrder, cr.missingFiles.Keys)
      && content == Unlines(CompareLines(oh, nh, cr, newOrder, missingOrder))
  }

  method SaveCompareFile(
      dir: ReportDir, compareReportName: string, timeString: string, oh: Header, nh: Header, cr: CompareReport)
    modifies dir
    ensures var id := compareReportName + "__" + timeString;
      && dir.files.Keys == old(dir.files.Keys) + {id}
      && (forall other :: other in old(dir.files) && other != id ==> dir.files[other] == old(dir.files[other]))
      && IsCompareFile(dir.files[id], oh, nh, cr)
  {
    var w := CompareFileContent(oh, nh, cr);
    dir.files := dir.files[compareReportName + "__" + timeString := w];
  }

  method CompareFileContent(oh: Header, nh: Header, cr: CompareReport) returns (w: string)
    ensures IsCompareFile(w, oh, nh, cr)
  {
    var added, newOrder := WriteMap(cr.newFiles, NewLine);
    var missing, missingOrder := WriteMap(cr.missingFiles, MissingLine);
    var changed := WriteLines(ChangedLines(cr.changedFiles));
    var moved := WriteLines(MovedLines(cr.movedFiles));
    w := Unlines(HeaderLines(oh, nh)) + added + missing + changed + moved;
    FiveParts(HeaderLines(oh, nh), MapLines(cr.newFiles, newOrder, NewLine),
              MapLines(cr.missingFiles, missingOrder, MissingLine),
              ChangedLines(cr.changedFiles), MovedLines(cr.movedFiles));
    assert w == Unlines(CompareLines(oh, nh, cr, newOrder, missingOrder));
  }

  method WriteMap(files: Files, line: (string, string) -> string) returns (w: string, ghost order: seq<string>)
    ensures OrderOf(order, files.Keys) && w == Unlines(MapLines(files, order, line))
  {
    w, order := "", [];
    var todo := files.Keys;
    while todo != {}
      invariant todo <= files.Keys
      invariant OrderOf(order, files.Keys - todo)
      invariant w == Unlines(MapLines(files, order, line))
      decreases todo
    {
      var k :| k in todo;
      var v := files[k];
      assert k !in Elements(order);
      assert Elements(order + [k]) == Elements(order) + {k};
      assert MapLines(files, order + [k], line) == MapLines(files, order, line) + [line(k, v)];
      UnlinesSnoc(MapLines(files, order, line), line(k, v));
      w := w + line(k, v) + "\n";
      order := order + [k];
      todo := todo - {k};
    }
  }

  method WriteLines(lines: seq<string>) returns (w: string)
    ensures w == Unlines(lines)
  {
    w := "";
    for i := 0 to |lines|
      invariant w == Unlines(lines[..i])
    {
      assert lines[..i + 1] == lines[..i] + [lines[i]];
      UnlinesSnoc(lines[..i], lines[i]);
      w := w + lines[i] + "\n";
    }
    assert lines[..|lines|] == lines;
  }

  lemma {:induction false} FiveParts(a: seq<string>, b: seq<string>, c: seq<string>, d: seq<string>, e: seq<string>)
    ensures Unlines(a + b + c + d + e) == Unlines(a) + Unlines(b) + Unlines(c) + Unlines(d) + Unlines(e)
  {
    UnlinesAppend(a, b);
    UnlinesAppend(a + b, c);
    UnlinesAppend(a + b + c, d);
    UnlinesAppend(a + b + c + d, e);
  }

  // ---------------------------------------------------------------- reading the counts back

  datatype Stats = Stats(changed: nat, added: nat, missing: nat, moved: nat)

  function Plus(a: Stats, b: Stats): Stats {
    Stats(a.changed + b.changed, a.added + b.added, a.missing + b.missing, a.moved + b.moved)
  }

  function LineStats(line: string): Stats {
    if CHANGED <= line then Stats(1, 0, 0, 0)
    else if NEW <= line then Stats(0, 1, 0, 0)
    else if MISSING <= line then Stats(0, 0, 1, 0)
    else if MOVED <= line then Stats(0, 0, 0, 1)
    else Stats(0, 0, 0, 0)
  }

  function SumStats(lines: seq<string>, f: string -> Stats): Stats {
    if lines == [] then Stats(0, 0, 0, 0)
    else Plus(SumStats(lines[..|lines| - 1], f), f(lines[|lines| - 1]))
  }

  function StatsOf(lines: seq<string>): Stats {
    SumStats(lines, LineStats)
  }

  /** The places of the lines that begin with a text. */
  function Places(lines: seq<string>, front: string): set<nat> {
    set i: nat | i < |lines| && front <= lines[i]
  }

  lemma {:induction false} PlacesNext(lines: seq<string>, front: string)
    requires lines != []
    ensures var n := |lines| - 1;
      |Places(lines, front)| == |Places(lines[..n], front)| + if front <= lines[n] then 1 else 0
  {
    var n := |lines| - 1;
    assert Places(lines, front) == Places(lines[..n], front) + if front <= lines[n] then {n} else {};
  }

  /** The four numbers are the numbers of lines that begin with the four words. */
  lemma {:induction false} StatsCount(lines: seq<string>)
    ensures StatsOf(lines) == Stats(|Places(lines, "CHANGED - ")|, |Places(lines, "NEW - ")|,
                                    |Places(lines, "MISSING - ")|, |Places(lines, "MOVED - ")|)
  {
    hide Places, StatsOf;
    KindsCount(lines);
  }

  lemma {:induction false} KindsCount(lines: seq<string>)
    ensures StatsOf(lines) == Stats(|Places(lines, CHANGED)|, |Places(lines, NEW)|,
                                    |Places(lines, MISSING)|, |Places(lines, MOVED)|)
  {
    hide LineStats, Places, StatsOf, CHANGED, NEW, MISSING, MOVED;
    if lines == [] {
      StatsNone();
      NoPlaces();
    } else {
      var n := |lines| - 1;
      assert lines[..n + 1] == lines;
      KindsCount(lines[..n]);
      StatsNext(lines, n);
      NoPrefixStats(lines[n]);
      PlacesNext(lines, CHANGED);
      PlacesNext(lines, NEW);
      PlacesNext(lines, MISSING);
      PlacesNext(lines, MOVED);
    }
  }

  lemma {:induction false} NoPlaces()
    ensures forall front :: Places([], front) == {}
  {}

  lemma {:induction false} NoPrefixStats(line: string)
    ensures LineStats(line).changed == if CHANGED <= line then 1 else 0
    ensures LineStats(line).added == if NEW <= line then 1 else 0
    ensures LineStats(line).missing == if MISSING <= line then 1 else 0
    ensures LineStats(line).moved == if MOVED <= line then 1 else 0
  {
    hide LineStats, CHANGED, NEW, MISSING, MOVED;
    PrefixStats(line);
    OneKind(line);
  }

  /** No line begins with two of the words, and one that begins with none counts for none. */
  lemma {:induction false} OneKind(line: string)
    ensures !(CHANGED <= line) && !(NEW <= line) && !(MISSING <= line) && !(MOVED <= line) ==>
      LineStats(line) == Stats(0, 0, 0, 0)
    ensures CHANGED <= line ==> !(NEW <= line) && !(MISSING <= line) && !(MOVED <= line)
    ensures NEW <= line ==> !(CHANGED <= line) && !(MISSING <= line) && !(MOVED <= line)
    ensures MISSING <= line ==> !(CHANGED <= line) && !(NEW <= line) && !(MOVED <= line)
  {
    assert CHANGED[0] == 'C' && NEW[0] == 'N';
    assert MISSING[0] == 'M' && MISSING[1] == 'I' && MOVED[0] == 'M' && MOVED[1] == 'O';
  }

  lemma {:induction false} StatsNone()
    ensures StatsOf([]) == Stats(0, 0, 0, 0)
  {}

  lemma {:induction false} StatsNext(lines: seq<string>, i: nat)
    requires i < |lines|
    ensures StatsOf(lines[..i + 1]) == Plus(StatsOf(lines[..i]), LineStats(lines[i]))
  {
    hide LineStats;
    assert lines[..i + 1][..i] == lines[..i];
  }

  method ParseCompareFileStats(content: string) returns (changed: nat, added: nat, missing: nat, moved: nat)
    ensures Stats(changed, added, missing, moved) == StatsOf(ScanLines(content))
  {
    hide StatsOf, ScanLines;
    var lines := ScanLines(content);
    changed, added, missing, moved := 0, 0, 0, 0;
    StatsNone();
    for i := 0 to |lines|
      invariant Stats(changed, added, missing, moved) == StatsOf(lines[..i])
    {
      StatsNext(lines, i);
      var line := lines[i];
      if CHANGED <= line {
        changed := changed + 1;
      } else if NEW <= line {
        added := added + 1;
      } else if MISSING <= line {
        missing := missing + 1;
      } else if MOVED <= line {
        moved := moved + 1;
      }
    }
    assert lines[..|lines|] == lines;
  }

  lemma {:induction false} StatsAppend(a: seq<string>, b: seq<string>, f: string -> Stats)
    ensures SumStats(a + b, f) == Plus(SumStats(a, f), SumStats(b, f))
  {
    if b == [] {
      assert a + b == a;
    } else {
      assert (a + b)[..|a + b| - 1] == a + b[..|b| - 1];
      StatsAppend(a, b[..|b| - 1], f);
    }
  }

  function Times(n: nat, s: Stats): Stats {
    Stats(n * s.changed, n * s.added, n * s.missing, n * s.moved)
  }

  lemma {:induction false} StatsUniform(lines: seq<string>, f: string -> Stats, s: Stats)
    requires forall i :: 0 <= i < |lines| ==> f(lines[i]) == s
    ensures SumStats(lines, f) == Times(|lines|, s)
  {
    if lines != [] {
      var init := lines[..|lines| - 1];
      StatsUniform(init, f, s);
      TimesNext(|init|, s);
    }
  }

  lemma {:induction false} TimesNext(n: nat, s: Stats)
    ensures Plus(Times(n, s), s) == Times(n + 1, s)
  {}

  /** The prefixes tell the categories apart. */
  lemma {:induction false} PrefixStats(line: string)
    ensures CHANGED <= line ==> LineStats(line) == Stats(1, 0, 0, 0)
    ensures NEW <= line ==> LineStats(line) == Stats(0, 1, 0, 0)
    ensures MISSING <= line ==> LineStats(line) == Stats(0, 0, 1, 0)
    ensures MOVED <= line ==> LineStats(line) == Stats(0, 0, 0, 1)
  {
    assert CHANGED <= line ==> line[0] == 'C';
    assert NEW <= line ==> line[0] == 'N';
    assert MISSING <= line ==> line[0] == 'M' && line[1] == 'I';
    assert MOVED <= line ==> line[0] == 'M' && line[1] == 'O';
  }

  lemma {:induction false} HeaderStats(line: string)
    requires |line| > 1 && (line[0] == 'O' || line[1] == 'e')
    ensures LineStats(line) == Stats(0, 0, 0, 0)
  {
    assert CHANGED[0] == 'C' && CHANGED[1] == 'H' && NEW[0] == 'N' && NEW[1] == 'E';
    assert MISSING[0] == 'M' && MISSING[1] == 'I' && MOVED[0] == 'M' && MOVED[1] == 'O';
  }

  /** A carriage return dropped at the end of a line leaves the beginning. */
  lemma {:induction false} LinePrefix(front: string, rest: string)
    requires |rest| > 0
    ensures front <= DropCR(front + rest)
  {
    var line := front + rest;
    assert |DropCR(line)| >= |front| && DropCR(line) == line[..|DropCR(line)|];
  }

  ghost predicate OneLines(cr: CompareReport) {
    && (forall k :: k in cr.newFiles ==> OneLine(k) && OneLine(cr.newFiles[k]))
    && (forall k :: k in cr.missingFiles ==> OneLine(k) && OneLine(cr.missingFiles[k]))
    && (forall c: Change :: c in cr.changedFiles ==> OneLine(c.path) && OneLine(c.oldHash) && OneLine(c.newHash))
    && (forall m: Move :: m in cr.movedFiles ==> OneLine(m.oldPath) && OneLine(m.newPath) && OneLine(m.hash))
  }

  lemma {:induction false} StatsOfUniform(lines: seq<string>, s: Stats)
    requires forall i :: 0 <= i < |lines| ==> LineStats(lines[i]) == s
    ensures StatsOf(lines) == Times(|lines|, s)
  {
    hide LineStats;
    StatsUniform(lines, LineStats, s);
  }

  /** A line of each category counts for it, whether or not it loses a carriage return. */
  lemma {:induction false} NewLineStats(k: string, v: string)
    ensures LineStats(DropCR(NewLine(k, v))) == Stats(0, 1, 0, 0)
  {
    hide DropCR, LineStats;
    LinePrefix(NEW, k + " - " + v);
    PrefixStats(DropCR(NewLine(k, v)));
  }

  lemma {:induction false} MissingLineStats(k: string, v: string)
    ensures LineStats(DropCR(MissingLine(k, v))) == Stats(0, 0, 1, 0)
  {
    hide DropCR, LineStats;
    LinePrefix(MISSING, k + " - " + v);
    PrefixStats(DropCR(MissingLine(k, v)));
  }

  lemma {:induction false} ChangedLineStats(c: Change)
    ensures LineStats(DropCR(ChangedLine(c))) == Stats(1, 0, 0, 0)
  {
    hide DropCR, LineStats;
    LinePrefix(CHANGED, c.path + " - " + c.oldHash + " ==> " + c.newHash);
    PrefixStats(DropCR(ChangedLine(c)));
  }

  lemma {:induction false} MovedLineStats(m: Move)
    ensures LineStats(DropCR(MovedLine(m))) == Stats(0, 0, 0, 1)
  {
    hide DropCR, LineStats;
    LinePrefix(MOVED, m.oldPath + " ==> " + m.newPath + " - " + m.hash);
    PrefixStats(DropCR(MovedLine(m)));
  }

  lemma {:induction false} NewLinesStats(files: Files, order: seq<string>)
    requires Elements(order) <= files.Keys
    ensures StatsOf(DropCRs(MapLines(files, order, NewLine))) == Stats(0, |order|, 0, 0)
  {
    hide LineStats, StatsOf, DropCR;
    var lines := DropCRs(MapLines(files, order, NewLine));
    forall i | 0 <= i < |order| ensures LineStats(lines[i]) == Stats(0, 1, 0, 0) {
      assert order[i] in Elements(order);
      NewLineStats(order[i], files[order[i]]);
    }
    StatsOfUniform(lines, Stats(0, 1, 0, 0));
  }

  lemma {:induction false} MissingLinesStats(files: Files, order: seq<string>)
    requires Elements(order) <= files.Keys
    ensures StatsOf(DropCRs(MapLines(files, order, MissingLine))) == Stats(0, 0, |order|, 0)
  {
    hide LineStats, StatsOf, DropCR;
    var lines := DropCRs(MapLines(files, order, MissingLine));
    forall i | 0 <= i < |order| ensures LineStats(lines[i]) == Stats(0, 0, 1, 0) {
      assert order[i] in Elements(order);
      MissingLineStats(order[i], files[order[i]]);
    }
    StatsOfUniform(lines, Stats(0, 0, 1, 0));
  }

  lemma {:induction false} ChangedLinesStats(changes: seq<Change>)
    ensures StatsOf(DropCRs(ChangedLines(changes))) == Stats(|changes|, 0, 0, 0)
  {
    hide LineStats, StatsOf, DropCR;
    var lines := DropCRs(ChangedLines(changes));
    forall i | 0 <= i < |changes| ensures LineStats(lines[i]) == Stats(1, 0, 0, 0) {
      ChangedLineStats(changes[i]);
    }
    StatsOfUniform(lines, Stats(1, 0, 0, 0));
  }

  lemma {:induction false} MovedLinesStats(moves: seq<Move>)
    ensures StatsOf(DropCRs(MovedLines(moves))) == Stats(0, 0, 0, |moves|)
  {
    hide LineStats, StatsOf, DropCR;
    var lines := DropCRs(MovedLines(moves));
    forall i | 0 <= i < |moves| ensures LineStats(lines[i]) == Stats(0, 0, 0, 1) {
      MovedLineStats(moves[i]);
    }
    StatsOfUniform(lines, Stats(0, 0, 0, 1));
  }

  lemma {:induction false} HeaderLinesStats(oh: Header, nh: Header)
    ensures StatsOf(DropCRs(HeaderLines(oh, nh))) == Stats(0, 0, 0, 0)
  {
    var lines := DropCRs(HeaderLines(oh, nh));
    assert HeaderLine(oh) != "" && HeaderLine(nh) != "";
    LinePrefix("Old Header: ", HeaderLine(oh));
    LinePrefix("New Header: ", HeaderLine(nh));
    assert lines[0][0] == 'O' && lines[1][1] == 'e';
    forall i | 0 <= i < |lines| ensures LineStats(lines[i]) == Stats(0, 0, 0, 0) {
      HeaderStats(lines[i]);
    }
    StatsUniform(lines, LineStats, Stats(0, 0, 0, 0));
  }

  lemma {:induction false} DropCRsAppend(a: seq<string>, b: seq<string>)
    ensures DropCRs(a + b) == DropCRs(a) + DropCRs(b)
  {}

  lemma {:induction false} FiveStats(a: seq<string>, b: seq<string>, c: seq<string>, d: seq<string>, e: seq<string>)
    ensures StatsOf(DropCRs(a + b + c + d + e))
         == Plus(Plus(Plus(Plus(StatsOf(DropCRs(a)), StatsOf(DropCRs(b))), StatsOf(DropCRs(c))), StatsOf(DropCRs(d))),
                 StatsOf(DropCRs(e)))
  {
    DropCRsAppend(a, b);
    DropCRsAppend(a + b, c);
    DropCRsAppend(a + b + c, d);
    DropCRsAppend(a + b + c + d, e);
    StatsAppend(DropCRs(a), DropCRs(b), LineStats);
    StatsAppend(DropCRs(a + b), DropCRs(c), LineStats);
    StatsAppend(DropCRs(a + b + c), DropCRs(d), LineStats);
    StatsAppend(DropCRs(a + b + c + d), DropCRs(e), LineStats);
  }

  /** After a restart the counts read from a comparison file are those of the comparison. */
  lemma {:induction false} CompareCountsRestored(content: string, oh: Header, nh: Header, cr: CompareReport)
    requires IsCompareFile(content, oh, nh, cr)
    requires OneLine(HeaderLine(oh)) && OneLine(HeaderLine(nh)) && OneLines(cr)
    ensures StatsOf(ScanLines(content))
         == Stats(|cr.changedFiles|, |cr.newFiles|, |cr.missingFiles|, |cr.movedFiles|)
  {
    var newOrder, missingOrder :|
      && OrderOf(newOrder, cr.newFiles.Keys) && OrderOf(missingOrder, cr.missingFiles.Keys)
      && content == Unlines(CompareLines(oh, nh, cr, newOrder, missingOrder));
    CompareLinesOneLine(oh, nh, cr, newOrder, missingOrder);
    RawLinesOfUnlines(CompareLines(oh, nh, cr, newOrder, missingOrder));
    CompareLinesStats(oh, nh, cr, newOrder, missingOrder);
  }

  lemma {:induction false} SumOfFive(
      first: seq<string>, added: seq<string>, missing: seq<string>, changed: seq<string>, moved: seq<string>, s: Stats)
    requires StatsOf(DropCRs(first)) == Stats(0, 0, 0, 0)
    requires StatsOf(DropCRs(added)) == Stats(0, s.added, 0, 0)
      && StatsOf(DropCRs(missing)) == Stats(0, 0, s.missing, 0)
    requires StatsOf(DropCRs(changed)) == Stats(s.changed, 0, 0, 0)
      && StatsOf(DropCRs(moved)) == Stats(0, 0, 0, s.moved)
    ensures StatsOf(DropCRs(first + added + missing + changed + moved)) == s
  {
    hide StatsOf, DropCRs;
    FiveStats(first, added, missing, changed, moved);
  }

  lemma {:induction false} CompareLinesAre(
      oh: Header, nh: Header, cr: CompareReport, newOrder: seq<string>, missingOrder: seq<string>,
      first: seq<string>, added: seq<string>, missing: seq<string>, changed: seq<string>, moved: seq<string>)
    requires Elements(newOrder) <= cr.newFiles.Keys && Elements(missingOrder) <= cr.missingFiles.Keys
    requires first == HeaderLines(oh, nh) && changed == ChangedLines(cr.changedFiles)
      && moved == MovedLines(cr.movedFiles)
    requires added == MapLines(cr.newFiles, newOrder, NewLine)
      && missing == MapLines(cr.missingFiles, missingOrder, MissingLine)
    ensures CompareLines(oh, nh, cr, newOrder, missingOrder) == first + added + missing + changed + moved
  {
    hide HeaderLines, MapLines, ChangedLines, MovedLines;
  }

  lemma {:induction false} CompareLinesStats(
      oh: Header, nh: Header, cr: CompareReport, newOrder: seq<string>, missingOrder: seq<string>)
    requires OrderOf(newOrder, cr.newFiles.Keys) && OrderOf(missingOrder, cr.missingFiles.Keys)
    ensures StatsOf(DropCRs(CompareLines(oh, nh, cr, newOrder, missingOrder)))
         == Stats(|cr.changedFiles|, |cr.newFiles|, |cr.missingFiles|, |cr.movedFiles|)
  {
    hide StatsOf, DropCRs, MapLines, HeaderLines, ChangedLines, MovedLines, CompareLines, Distinct;
    var first, added, missing := HeaderLines(oh, nh),
      MapLines(cr.newFiles, newOrder, NewLine), MapLines(cr.missingFiles, missingOrder, MissingLine);
    var changed, moved := ChangedLines(cr.changedFiles), MovedLines(cr.movedFiles);
    CompareLinesAre(oh, nh, cr, newOrder, missingOrder, first, added, missing, changed, moved);
    HeaderLinesStats(oh, nh);
    MapLinesStats(cr, newOrder, missingOrder);
    ChangedLinesStats(cr.changedFiles);
    MovedLinesStats(cr.movedFiles);
    SumOfFive(first, added, missing, changed, moved,
        Stats(|cr.changedFiles|, |cr.newFiles|, |cr.missingFiles|, |cr.movedFiles|));
  }

  lemma {:induction false} MapLinesStats(cr: CompareReport, newOrder: seq<string>, missingOrder: seq<string>)
    requires OrderOf(newOrder, cr.newFiles.Keys) && OrderOf(missingOrder, cr.missingFiles.Keys)
    ensures StatsOf(DropCRs(MapLines(cr.newFiles, newOrder, NewLine))) == Stats(0, |cr.newFiles|, 0, 0)
    ensures StatsOf(DropCRs(MapLines(cr.missingFiles, missingOrder, MissingLine))) == Stats(0, 0, |cr.missingFiles|, 0)
  {
    NewLinesStats(cr.newFiles, newOrder);
    MissingLinesStats(cr.missingFiles, missingOrder);
    DistinctElements(newOrder);
    DistinctElements(missingOrder);
  }

  ghost predicate AllOneLine(lines: seq<string>) {
    forall l :: l in lines ==> OneLine(l)
  }

  lemma {:induction false} CompareLinesOneLine(
      oh: Header, nh: Header, cr: CompareReport, newOrder: seq<string>, missingOrder: seq<string>)
    requires Elements(newOrder) <= cr.newFiles.Keys && Elements(missingOrder) <= cr.missingFiles.Keys
    requires OneLine(HeaderLine(oh)) && OneLine(HeaderLine(nh)) && OneLines(cr)
    ensures AllOneLine(CompareLines(oh, nh, cr, newOrder, missingOrder))
  {
    MapLinesOneLine(cr.newFiles, newOrder, NewLine);
    MapLinesOneLine(cr.missingFiles, missingOrder, MissingLine);
    ListLinesOneLine(cr);
  }

  lemma {:induction false} MapLinesOneLine(files: Files, order: seq<string>, line: (string, string) -> string)
    requires Elements(order) <= files.Keys
    requires forall k :: k in files ==> OneLine(line(k, files[k]))
    ensures AllOneLine(MapLines(files, order, line))
  {
    forall l | l in MapLines(files, order, line) ensures OneLine(l) {
      var i :| 0 <= i < |order| && l == MapLines(files, order, line)[i];
      assert order[i] in Elements(order);
    }
  }

  lemma {:induction false} ListLinesOneLine(cr: CompareReport)
    requires OneLines(cr)
    ensures AllOneLine(ChangedLines(cr.changedFiles)) && AllOneLine(MovedLines(cr.movedFiles))
  {
    forall l | l in ChangedLines(cr.changedFiles) ensures OneLine(l) {
      var i :| 0 <= i < |cr.changedFiles| && l == ChangedLines(cr.changedFiles)[i];
      assert cr.changedFiles[i] in cr.changedFiles;
    }
    forall l | l in MovedLines(cr.movedFiles) ensures OneLine(l) {
      var i :| 0 <= i < |cr.movedFiles| && l == MovedLines(cr.movedFiles)[i];
      assert cr.movedFiles[i] in cr.movedFiles;
    }
  }

}
