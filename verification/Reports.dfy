/** Report files: scans and comparisons as text, and what reading them back gives. */
module Reports {
  import opened Text
  import opened Order
  import opened Compare

  datatype Header = Header(name: string, time: string, host: string, path: string)

  datatype ReportError = InvalidID | CannotOpen | HeaderNotParsed

  datatype Result<+T> = Ok(value: T) | Err(error: ReportError)

  /** The report directory: the content of every file, by name. */
  class ReportDir {
    var files: map<string, string>

    constructor ()
      ensures files == map[]
    {
      files := map[];
    }
  }

  /** A map that is rewritten in place. */
  class FileTable {
    var v: Files

    constructor (files: Files)
      ensures v == files
    {
      v := files;
    }
  }

  // ---------------------------------------------------------------- scan reports

  function HeaderLine(h: Header): string {
    h.name + "," + (h.time + "," + (h.host + "," + h.path))
  }

  function Row(path: string, hash: string): string {
    hash + "," + path
  }

  ghost predicate OrderOf(order: seq<string>, keys: set<string>) {
    Distinct(order) && Elements(order) == keys
  }

  ghost function Rows(files: Files, order: seq<string>): seq<string>
    requires Elements(order) <= files.Keys
  {
    seq(|order|, i requires 0 <= i < |order| => assert order[i] in Elements(order); Row(order[i], files[order[i]]))
  }

  /** The content of a scan report: a header line, then the rows in some order. */
  ghost predicate IsScanReport(content: string, h: Header, files: Files) {
    exists order :: OrderOf(order, files.Keys) && content == Unlines([HeaderLine(h)] + Rows(files, order))
  }

  method SaveToDBFile(
      dir: ReportDir, reportName: string, timeString: string, host: string, path: string, fileMap: Files)
    modifies dir
    ensures dir.files.Keys == old(dir.files.Keys) + {reportName + "_" + timeString}
    ensures forall id :: id in old(dir.files) && id != reportName + "_" + timeString ==>
      dir.files[id] == old(dir.files[id])
    ensures IsScanReport(dir.files[reportName + "_" + timeString], Header(reportName, timeString, host, path), fileMap)
  {
    var h := Header(reportName, timeString, host, path);
    var w := HeaderLine(h) + "\n";
    ghost var order: seq<string> := [];
    var todo := fileMap.Keys;
    assert w == Unlines([HeaderLine(h)] + Rows(fileMap, order)) by {
      assert [HeaderLine(h)] + Rows(fileMap, order) == [HeaderLine(h)];
      assert Unlines([HeaderLine(h)]) == w;
    }
    while todo != {}
      invariant dir.files == old(dir.files)
      invariant todo <= fileMap.Keys
      invariant OrderOf(order, fileMap.Keys - todo)
      invariant w == Unlines([HeaderLine(h)] + Rows(fileMap, order))
      decreases todo
    {
      var k :| k in todo;
      var v := fileMap[k];
      RowsNext(fileMap, order, k, HeaderLine(h));
      w := w + Row(k, v) + "\n";
      order := order + [k];
      todo := todo - {k};
    }
    dir.files := dir.files[reportName + "_" + timeString := w];
  }

  lemma {:induction false} RowsNext(files: Files, order: seq<string>, k: string, first: string)
    requires Distinct(order) && Elements(order) <= files.Keys && k in files && k !in order
    ensures Distinct(order + [k]) && Elements(order + [k]) == Elements(order) + {k}
    ensures Unlines([first] + Rows(files, order + [k]))
      == Unlines([first] + Rows(files, order)) + Row(k, files[k]) + "\n"
  {
    assert Elements(order + [k]) == Elements(order) + {k};
    assert [first] + Rows(files, order + [k]) == ([first] + Rows(files, order)) + [Row(k, files[k])];
    UnlinesSnoc([first] + Rows(files, order), Row(k, files[k]));
  }

  // ---------------------------------------------------------------- reading scan reports

  predicate Contains(s: string, chars: set<char>) {
    exists c :: c in s && c in chars
  }

  predicate ValidReportID(id: string) {
    id != "" && id != "." && id != ".." && !Contains(id, {'/', '\\', '\0', ' ', '\t', '\r', '\n'})
  }

  /** strings.SplitN(line, ",", 4), which must have four parts. */
  function ParseHeader(line: string): Result<Header> {
    match Cut(line, ',')
    case None => Err(HeaderNotParsed)
    case Some((name, rest)) =>
      match Cut(rest, ',')
      case None => Err(HeaderNotParsed)
      case Some((time, rest')) =>
        match Cut(rest', ',')
        case None => Err(HeaderNotParsed)
        case Some((host, path)) => Ok(Header(name, time, host, path))
  }

  function FirstLine(content: string): string {
    var lines := ScanLines(content);
    if lines == [] then "" else lines[0]
  }

  function LaterLines(content: string): seq<string> {
    var lines := ScanLines(content);
    if lines == [] then [] else lines[1..]
  }

  /** reportStatFile. */
  function Stat(files: map<string, string>, id: string): Result<Header> {
    if !ValidReportID(id) then Err(InvalidID)
    else if id !in files then Err(CannotOpen)
    else ParseHeader(FirstLine(files[id]))
  }

  function LoadLines(lines: seq<string>): Files {
    if lines == [] then map[]
    else
      var before := LoadLines(lines[..|lines| - 1]);
      match Cut(lines[|lines| - 1], ',')
      case Some((hash, path)) => before[path := hash]
      case None => before
  }

  /** loadReportFile: later lines win, lines without a comma are reported and skipped. */
  method LoadReportFile(content: string, dst: FileTable)
    modifies dst
    ensures dst.v == old(dst.v) + LoadLines(LaterLines(content))
  {
    hide Cut, LaterLines;
    var lines := LaterLines(content);
    for i := 0 to |lines|
      invariant dst.v == old(dst.v) + LoadLines(lines[..i])
    {
      assert lines[..i + 1][..i] == lines[..i];
      match Cut(lines[i], ',') {
        case Some((hash, path)) =>
          dst.v := dst.v[path := hash];
        case None =>
      }
    }
    assert lines[..|lines|] == lines;
  }

  // ---------------------------------------------------------------- disk round trip

  /** What hashes look like: one line without a comma, as hexadecimal digits are. */
  ghost predicate PlainHashes(files: Files) {
    forall k :: k in files ==> OneLine(files[k]) && ',' !in files[k]
  }

  predicate IsRowOf(line: string, path: string) {
    Cut(line, ',').Some? && Cut(line, ',').value.1 == path
  }

  /** The last row of a path counts. */
  lemma {:induction false} LastRowCounts(lines: seq<string>, i: nat)
    requires i < |lines| && Cut(lines[i], ',').Some?
    requires forall j :: i < j < |lines| ==> !IsRowOf(lines[j], Cut(lines[i], ',').value.1)
    ensures var (hash, path) := Cut(lines[i], ',').value;
      path in LoadLines(lines) && LoadLines(lines)[path] == hash
  {
    hide Cut;
    var n := |lines| - 1;
    if i < n {
      assert lines[..n][i] == lines[i] && forall j :: i < j < n ==> lines[..n][j] == lines[j];
      LastRowCounts(lines[..n], i);
      assert !IsRowOf(lines[n], Cut(lines[i], ',').value.1);
    }
  }

  /** A path without a row is not loaded. */
  lemma {:induction false} NoRowNoFile(lines: seq<string>, path: string)
    requires forall j :: 0 <= j < |lines| ==> !IsRowOf(lines[j], path)
    ensures path !in LoadLines(lines)
  {
    hide Cut;
    if lines != [] {
      var n := |lines| - 1;
      assert forall j :: 0 <= j < n ==> lines[..n][j] == lines[j];
      NoRowNoFile(lines[..n], path);
      assert !IsRowOf(lines[n], path);
    }
  }

  ghost predicate SafePaths(files: Files) {
    forall k :: k in files ==> ScanSafe(k)
  }

  lemma {:induction false} DropCROfRow(hash: string, path: string)
    ensures DropCR(Row(path, hash)) == Row(DropCR(path), hash)
  {
    if path != "" {
      assert Row(path, hash)[|Row(path, hash)| - 1] == path[|path| - 1];
    }
  }

  /** Loading one more row: the path has lost a trailing carriage return. */
  lemma {:induction false} LoadRowsNext(files: Files, order: seq<string>, k: string)
    requires Elements(order + [k]) <= files.Keys && Elements(order) <= files.Keys && k in files && PlainHashes(files)
    ensures LoadLines(DropCRs(Rows(files, order + [k])))
      == LoadLines(DropCRs(Rows(files, order)))[DropCR(k) := files[k]]
  {
    var lines := DropCRs(Rows(files, order + [k]));
    assert lines[..|lines| - 1] == DropCRs(Rows(files, order));
    LastRow(files[k], k);
  }

  lemma {:induction false} LoadedKeys(files: Files, order: seq<string>)
    requires Elements(order) <= files.Keys && PlainHashes(files)
    ensures LoadLines(DropCRs(Rows(files, order))).Keys == set k | k in order :: DropCR(k)
  {
    if order != [] {
      var init, k := order[..|order| - 1], order[|order| - 1];
      assert order == init + [k] && k in Elements(order);
      assert Elements(init) <= Elements(order);
      LoadedKeys(files, init);
      LoadRowsNext(files, init, k);
      assert (set x | x in order :: DropCR(x)) == (set x | x in init :: DropCR(x)) + {DropCR(k)};
    }
  }

  lemma {:induction false} LoadedRows(files: Files, order: seq<string>)
    requires Elements(order) <= files.Keys && PlainHashes(files)
    requires forall k :: k in order ==> DropCR(k) == k
    ensures LoadLines(DropCRs(Rows(files, order))) == map k | k in files && k in order :: files[k]
  {
    if order != [] {
      var init, k := order[..|order| - 1], order[|order| - 1];
      assert order == init + [k] && k in Elements(order);
      assert Elements(init) <= Elements(order);
      LoadedRows(files, init);
      LoadRowsNext(files, init, k);
    }
  }

  lemma {:induction false} LastRow(hash: string, path: string)
    requires ',' !in hash
    ensures Cut(DropCR(Row(path, hash)), ',') == Some((hash, DropCR(path)))
  {
    DropCROfRow(hash, path);
    CutAt(hash, ',', DropCR(path));
  }

  lemma {:induction false} RowOneLine(path: string, hash: string)
    requires OneLine(path) && OneLine(hash)
    ensures OneLine(Row(path, hash))
  {}

  /** Splitting a scan report into lines, where nothing but carriage returns can go wrong. */
  lemma {:induction false} ScanLinesOfReport(first: string, files: Files, order: seq<string>)
    requires OneLine(first) && Elements(order) <= files.Keys && PlainHashes(files)
    requires forall k :: k in order ==> OneLine(k)
    ensures FirstLine(Unlines([first] + Rows(files, order))) == DropCR(first)
    ensures LaterLines(Unlines([first] + Rows(files, order))) == DropCRs(Rows(files, order))
  {
    hide RawLines, Unlines, OneLine;
    var rows := Rows(files, order);
    forall l | l in rows ensures OneLine(l) {
      var i :| 0 <= i < |rows| && rows[i] == l;
      assert order[i] in Elements(order);
      RowOneLine(order[i], files[order[i]]);
    }
    var lines := [first] + rows;
    RawLinesOfUnlines(lines);
    assert DropCRs(lines) == [DropCR(first)] + DropCRs(rows);
  }

  /** Loaded paths are lines. */
  lemma {:induction false} LoadedPathsOneLine(lines: seq<string>)
    requires forall l :: l in lines ==> OneLine(l)
    ensures forall k :: k in LoadLines(lines) ==> OneLine(k)
  {
    if lines != [] {
      var init := lines[..|lines| - 1];
      LoadedPathsOneLine(init);
      assert lines[|lines| - 1] in lines;
    }
  }

  /**
   * Loading a saved scan gives it back exactly when no path has a newline in it or a carriage
   * return at its end.
   */
  lemma {:induction false} DiskRoundTrip(content: string, h: Header, files: Files)
    requires IsScanReport(content, h, files) && OneLine(HeaderLine(h)) && PlainHashes(files)
    ensures LoadLines(LaterLines(content)) == files <==> SafePaths(files)
  {
    var order :| OrderOf(order, files.Keys) && content == Unlines([HeaderLine(h)] + Rows(files, order));
    if SafePaths(files) {
      SafePathsLoad(HeaderLine(h), files, order);
    } else if LoadLines(LaterLines(content)) == files {
      LoadedPathsSafe(HeaderLine(h), files, order);
    }
  }

  lemma {:induction false} SafePathsLoad(first: string, files: Files, order: seq<string>)
    requires OneLine(first) && OrderOf(order, files.Keys) && PlainHashes(files) && SafePaths(files)
    ensures LoadLines(LaterLines(Unlines([first] + Rows(files, order)))) == files
  {
    forall k | k in order ensures OneLine(k) && DropCR(k) == k {
      assert k in Elements(order);
    }
    ScanLinesOfReport(first, files, order);
    LoadedRows(files, order);
    WholeMap(files, order);
  }

  lemma {:induction false} WholeMap(files: Files, order: seq<string>)
    requires Elements(order) == files.Keys
    ensures (map k | k in files && k in order :: files[k]) == files
    ensures (set k | k in order :: DropCR(k)) == (set k | k in files.Keys :: DropCR(k))
  {
    assert forall k :: k in files.Keys <==> k in order;
  }

  lemma {:induction false} LoadedPathsSafe(first: string, files: Files, order: seq<string>)
    requires OneLine(first) && OrderOf(order, files.Keys) && PlainHashes(files)
    requires LoadLines(LaterLines(Unlines([first] + Rows(files, order)))) == files
    ensures SafePaths(files)
  {
    hide LoadLines, LaterLines, Unlines, Rows, Distinct, DropCR, PlainHashes;
    LoadedAreOneLine(Unlines([first] + Rows(files, order)));
    forall k | k in order ensures OneLine(k) {
      assert k in Elements(order);
    }
    ScanLinesOfReport(first, files, order);
    LoadedKeys(files, order);
    WholeMap(files, order);
    forall k | k in files ensures ScanSafe(k) {
      if DropCR(k) != k {
        NoEndlessCR(files.Keys, k);
      }
    }
  }

  lemma {:induction false} LoadedAreOneLine(content: string)
    ensures forall k :: k in LoadLines(LaterLines(content)) ==> OneLine(k)
  {
    ScanLinesOneLine(content);
    LoadedPathsOneLine(LaterLines(content));
  }

  ghost function NoShorter(keys: set<string>, k: string): set<string> {
    set x | x in keys && |x| >= |k|
  }

  /** No finite set of paths is the set of its paths without trailing carriage returns, if one path has some. */
  lemma {:induction false} NoEndlessCR(keys: set<string>, k: string)
    requires keys == set x | x in keys :: DropCR(x)
    requires k in keys && DropCR(k) != k
    ensures false
    decreases |NoShorter(keys, k)|
  {
    var x :| x in keys && DropCR(x) == k;
    assert |x| == |k| + 1;
    var longer, all := NoShorter(keys, x), NoShorter(keys, k);
    assert k in all && k !in longer;
    SubsetSize(longer, all - {k});
    NoEndlessCR(keys, x);
  }

  /** What a header must be like to survive the header line. */
  ghost predicate SafeHeader(h: Header) {
    && ',' !in h.name && ',' !in h.time && ',' !in h.host
    && OneLine(h.name) && OneLine(h.time) && OneLine(h.host) && ScanSafe(h.path)
  }

  lemma {:induction false} ParseHeaderLine(h: Header)
    requires ',' !in h.name && ',' !in h.time && ',' !in h.host
    ensures ParseHeader(HeaderLine(h)) == Ok(h)
  {
    CutAt(h.name, ',', h.time + "," + (h.host + "," + h.path));
    CutAt(h.time, ',', h.host + "," + h.path);
    CutAt(h.host, ',', h.path);
  }

  /** A header that is read is the whole of its line. */
  lemma {:induction false} ParsedHeader(line: string)
    requires ParseHeader(line).Ok?
    ensures line == HeaderLine(ParseHeader(line).value)
  {
    var (name, rest) := Cut(line, ',').value;
    var (time, rest') := Cut(rest, ',').value;
    AppendAssoc(name, ",", rest);
    AppendAssoc(time, ",", rest');
  }

  /** A line loses its carriage return with its last field. */
  lemma {:induction false} DropCROfHeader(h: Header)
    ensures DropCR(HeaderLine(h)) == HeaderLine(h.(path := DropCR(h.path)))
    ensures OneLine(HeaderLine(h)) <==> OneLine(h.name) && OneLine(h.time) && OneLine(h.host) && OneLine(h.path)
  {
    var front := h.name + "," + h.time + "," + h.host + ",";
    assert HeaderLine(h) == front + h.path;
    assert HeaderLine(h.(path := DropCR(h.path))) == front + DropCR(h.path);
    assert front[|front| - 1] == ',';
  }

  /** The header of a saved scan is read back exactly when its fields fit the header line. */
  lemma {:induction false} HeaderRoundTrip(content: string, h: Header, files: Files)
    requires IsScanReport(content, h, files) && PlainHashes(files)
    ensures ParseHeader(FirstLine(content)) == Ok(h) <==> SafeHeader(h)
  {
    var order :| OrderOf(order, files.Keys) && content == Unlines([HeaderLine(h)] + Rows(files, order));
    var line := FirstLine(content);
    HeaderContent(content, HeaderLine(h), Rows(files, order));
    DropCROfHeader(h);
    if SafeHeader(h) {
      ParseHeaderLine(h);
    }
    if ParseHeader(line) == Ok(h) {
      ScanLinesOneLine(content);
      assert line in ScanLines(content);
      ParseHeaderLine(h.(path := DropCR(h.path)));
    }
  }

  /** The first line of a text, if the line written there is one line. */
  lemma {:induction false} HeaderContent(content: string, first: string, rest: seq<string>)
    requires content == Unlines([first] + rest)
    ensures ScanLines(content) != []
    ensures OneLine(first) ==> FirstLine(content) == DropCR(first)
  {
    assert ([first] + rest)[1..] == rest;
    assert content == first + ['\n'] + Unlines(rest);
    SplitAppend(first, '\n', Unlines(rest));
    var parts := Split(content, '\n');
    if OneLine(first) {
      SplitWhole(first, '\n');
    }
    assert |parts| >= 2;
  }
}
