/** Choosing reports by their names: the last two scans, and the latest scan and comparison after a restart. */
module ReportListing {
  import opened Text
  import opened Order
  import opened Names
  import opened Compare
  import opened Reports
  import opened ReportCompare

  // ---------------------------------------------------------------- the last two reports of a name

  /** A report file and the instant in its name. */
  datatype Match = Match(name: string, at: nat)

  predicate Matching(file: string, reportName: string) {
    && !("compare__" <= file)
    && NameOf(file, Tokens(file)) == reportName
    && TimestampOf(Tokens(file)) != ZERO_TIME
  }

  function Matches(files: seq<string>, reportName: string): seq<Match> {
    if files == [] then []
    else
      var file := files[|files| - 1];
      Matches(files[..|files| - 1], reportName)
      + if Matching(file, reportName) then [Match(file, Instant(TimestampOf(Tokens(file))))] else []
  }

  ghost predicate SortedByTime(s: seq<Match>) {
    forall i, j :: 0 <= i < j < |s| ==> s[i].at <= s[j].at
  }

  /** sort.Slice by time. */
  method SortByTime(matches: seq<Match>) returns (sorted: seq<Match>)
    ensures SortedByTime(sorted) && multiset(sorted) == multiset(matches)
  {
    sorted := [];
    for i := 0 to |matches|
      invariant SortedByTime(sorted) && multiset(sorted) == multiset(matches[..i])
    {
      assert matches[..i + 1] == matches[..i] + [matches[i]];
      sorted := InsertByTime(sorted, matches[i]);
    }
    assert matches[..|matches|] == matches;
  }

  method InsertByTime(sorted: seq<Match>, m: Match) returns (r: seq<Match>)
    requires SortedByTime(sorted)
    ensures SortedByTime(r) && multiset(r) == multiset(sorted) + multiset{m}
  {
    hide SortedByTime;
    var p := 0;
    while p < |sorted| && sorted[p].at <= m.at
      invariant 0 <= p <= |sorted|
      invariant forall j :: 0 <= j < p ==> sorted[j].at <= m.at
    {
      p := p + 1;
    }
    r := sorted[..p] + [m] + sorted[p..];
    InsertedAt(sorted, m, p);
  }

  lemma {:induction false} InsertedAt(sorted: seq<Match>, m: Match, p: nat)
    requires p <= |sorted| && SortedByTime(sorted)
    requires forall j :: 0 <= j < p ==> sorted[j].at <= m.at
    requires p < |sorted| ==> m.at < sorted[p].at
    ensures SortedByTime(sorted[..p] + [m] + sorted[p..])
    ensures multiset(sorted[..p] + [m] + sorted[p..]) == multiset(sorted) + multiset{m}
  {
    assert multiset(sorted) == multiset(sorted[..p]) + multiset(sorted[p..]) by {
      assert sorted == sorted[..p] + sorted[p..];
    }
  }

  /** Two of the matches, such that no other is later than the older one. */
  ghost predicate LastTwo(matches: seq<Match>, older: Match, newer: Match) {
    exists others: seq<Match> ::
      && multiset(matches) == multiset(others) + multiset{older, newer}
      && older.at <= newer.at
      && forall m :: m in others ==> m.at <= older.at
  }

  method FindLastTwoReports(files: seq<string>, reportName: string) returns (r: Option<(string, string)>)
    ensures r.None? <==> |Matches(files, reportName)| < 2
    ensures r.Some? ==> exists older, newer ::
      LastTwo(Matches(files, reportName), older, newer) && r.value == (older.name, newer.name)
  {
    var matches: seq<Match> := [];
    for i := 0 to |files|
      invariant matches == Matches(files[..i], reportName)
    {
      assert files[..i + 1][..i] == files[..i];
      var name := files[i];
      if "compare__" <= name {
        continue;
      }
      var logical := ExtractReportName(name);
      if logical != reportName {
        continue;
      }
      var t := ParseReportTimestamp(name);
      if t == ZERO_TIME {
        continue;
      }
      matches := matches + [Match(name, Instant(t))];
    }
    assert files[..|files|] == files;
    if |matches| < 2 {
      return None;
    }
    var sorted := SortByTime(matches);
    var n := |sorted|;
    assert n == |multiset(sorted)| == |matches|;
    TopTwo(matches, sorted);
    r := Some((sorted[n - 2].name, sorted[n - 1].name));
  }

  lemma {:induction false} TopTwo(matches: seq<Match>, sorted: seq<Match>)
    requires SortedByTime(sorted) && multiset(sorted) == multiset(matches) && |sorted| >= 2
    ensures LastTwo(matches, sorted[|sorted| - 2], sorted[|sorted| - 1])
  {
    var n := |sorted|;
    var others := sorted[..n - 2];
    assert sorted == others + [sorted[n - 2], sorted[n - 1]];
    assert multiset(matches) == multiset(others) + multiset{sorted[n - 2], sorted[n - 1]};
  }

  /** A saved scan is among the matches of its report name exactly when the name is plain. */
  lemma {:induction false} SavedScanMatches(name: string, t: Stamp)
    requires Real(t) && t.nanos == 0 && t != ZERO_TIME
    ensures Matching(name + "_" + FormatTime(t), name) <==> PlainName(name)
  {
    var file := name + "_" + FormatTime(t);
    NameRoundTrip(name, t);
    TimestampRoundTrip(name, t);
    if PlainName(name) {
      FileTokens(name, t);
      if "compare__" <= file {
        EmptyPiece(file);
      }
    }
  }

  /**
   * A saved scan has a valid ID, so that it can be fetched and compared, exactly when its name has no such
   * character.
   */
  lemma {:induction false} SavedScanValid(name: string, t: Stamp)
    requires Real(t)
    ensures ValidReportID(name + "_" + FormatTime(t))
       <==> forall i :: 0 <= i < |name| ==> name[i] !in ['/', '\\', '\0', ' ', '\t', '\r', '\n']
  {
    var file := name + "_" + FormatTime(t);
    WrittenPlainly(t);
    var bad := {'/', '\\', '\0', ' ', '\t', '\r', '\n'};
    assert |file| > 2;
    forall c | c in FormatTime(t) ensures c !in bad {}
    assert '_' !in bad;
    assert Contains(file, bad) <==> exists c :: c in name && c in bad;
  }

  lemma {:induction false} WrittenPlainly(t: Stamp)
    requires Real(t)
    ensures |FormatTime(t)| == 19 && forall c :: c in FormatTime(t) ==> IsDigit(c) || c == '-' || c == '_'
  {
    Pad2Shape(t.year / 100);
    Pad2Shape(t.year % 100);
    Pad2Shape(t.month);
    Pad2Shape(t.day);
    Pad2Shape(t.hour);
    Pad2Shape(t.minute);
    Pad2Shape(t.second);
  }

  /** A valid ID names an entry of the report directory itself, whatever the directory is. */
  lemma {:induction false} ValidIDStays(dir: string, id: string)
    requires ValidReportID(id)
    ensures Split(dir + "/" + id, '/') == Split(dir, '/') + [id] && id != "." && id != ".." && id != ""
  {
    SplitAppend(dir, '/', id);
    SplitWhole(id, '/');
  }

  lemma {:induction false} FileTokens(name: string, t: Stamp)
    requires Real(t) && PlainName(name)
    ensures "" !in Split(name + "_" + FormatTime(t), '_')
  {
    DateRoundTrip(t);
    ClockRoundTrip(t, '-');
    SplitAppend(name, '_', FormatTime(t));
    SplitFirst(FormatDate(t), '_', FormatClock(t, '-'));
    SplitWhole(FormatClock(t, '-'), '_');
  }

  /** Two underscores in a row leave an empty piece between them. */
  lemma {:induction false} EmptyPiece(file: string)
    requires "compare__" <= file
    ensures "" in Split(file, '_')
  {
    var rest := file[|"compare__"|..];
    assert file == "compare" + ['_'] + ("" + ['_'] + rest);
    SplitFirst("compare", '_', "" + ['_'] + rest);
    SplitFirst("", '_', rest);
    assert Split(file, '_')[1] == "";
  }

  lemma {:induction false} MatchesAre(files: seq<string>, reportName: string)
    ensures forall m: Match ::
      m in Matches(files, reportName)
      <==> m.name in files && Matching(m.name, reportName) && m.at == Instant(TimestampOf(Tokens(m.name)))
  {
    if files != [] {
      var init := files[..|files| - 1];
      MatchesAre(init, reportName);
      assert files == init + [files[|files| - 1]];
    }
  }

  /** The time in a file name. */
  function TimeOf(file: string): Stamp {
    TimestampOf(Tokens(file))
  }

  /** Two different matches are chosen, in the order of their times, and no other match has a later time. */
  lemma {:induction false} ChosenAreLatest(files: seq<string>, name: string, older: Match, newer: Match, file: string)
    requires Distinct(files) && LastTwo(Matches(files, name), older, newer)
    requires file in files && Matching(file, name)
    ensures older.name in files && newer.name in files && older.name != newer.name
    ensures Matching(older.name, name) && Matching(newer.name, name)
    ensures !Earlier(TimeOf(newer.name), TimeOf(older.name))
    ensures file in {older.name, newer.name} || !Earlier(TimeOf(older.name), TimeOf(file))
  {
    hide Tokens, TimestampOf, Earlier, Instant, NameOf, Real;
    MatchChosen(files, name, older, newer, Match(file, Instant(TimestampOf(Tokens(file)))));
    TimestampReal(Tokens(file));
    TimestampReal(Tokens(older.name));
    TimestampReal(Tokens(newer.name));
    InstantOrder(TimeOf(newer.name), TimeOf(older.name));
    InstantOrder(TimeOf(older.name), TimeOf(file));
  }

  lemma {:induction false} LastTwoMatch(files: seq<string>, name: string, older: Match, newer: Match)
    requires LastTwo(Matches(files, name), older, newer)
    ensures older.name in files && Matching(older.name, name)
  {
    hide Matches, Matching, Instant, Tokens, TimestampOf;
    MatchesAre(files, name);
    assert older in multiset(Matches(files, name));
  }

  /** Of the saved scans of a plain name, the two chosen are those with the latest times. */
  lemma {:induction false} LastTwoAreLatest(files: seq<string>, name: string, older: Match, newer: Match, t: Stamp)
    requires Distinct(files) && LastTwo(Matches(files, name), older, newer)
    requires PlainName(name) && Real(t) && t.nanos == 0 && t != ZERO_TIME && name + "_" + FormatTime(t) in files
    ensures older.name in files && newer.name in files && older.name != newer.name
    ensures !Earlier(TimeOf(newer.name), TimeOf(older.name))
    ensures name + "_" + FormatTime(t) in {older.name, newer.name} || !Earlier(TimeOf(older.name), t)
  {
    hide Tokens, TimestampOf, Earlier, FormatTime, NameOf, Real, PlainName, Matching, LastTwo, Matches, Distinct;
    SavedScanMatches(name, t);
    TimestampRoundTrip(name, t);
    ChosenAreLatest(files, name, older, newer, name + "_" + FormatTime(t));
  }

  lemma {:induction false} MatchChosen(files: seq<string>, name: string, older: Match, newer: Match, m: Match)
    requires Distinct(files) && LastTwo(Matches(files, name), older, newer)
    requires m.name in files && Matching(m.name, name) && m.at == Instant(TimestampOf(Tokens(m.name)))
    ensures older.name in files && newer.name in files && older.name != newer.name
    ensures Matching(older.name, name) && older.at == Instant(TimestampOf(Tokens(older.name)))
    ensures Matching(newer.name, name) && newer.at == Instant(TimestampOf(Tokens(newer.name)))
    ensures older.at <= newer.at && (m == older || m == newer || m.at <= older.at)
  {
    hide Tokens, TimestampOf, Instant, NameOf, Matches, Matching;
    MatchesAre(files, name);
    var matches := Matches(files, name);
    assert m in matches;
    var others: seq<Match> :|
      && multiset(matches) == multiset(others) + multiset{older, newer}
      && older.at <= newer.at
      && forall m :: m in others ==> m.at <= older.at;
    assert older in multiset(matches) && newer in multiset(matches);
    MatchesDistinct(files, name);
    DistinctCount(matches, older);
    assert multiset(matches)[older] == multiset(others)[older] + multiset{older, newer}[older];
    assert older != newer;
    assert m in multiset(matches);
  }

  lemma {:induction false} MatchesDistinct(files: seq<string>, name: string)
    requires Distinct(files)
    ensures Distinct(Matches(files, name))
  {
    if files != [] {
      var init, last := files[..|files| - 1], files[|files| - 1];
      MatchesDistinct(init, name);
      MatchesAre(init, name);
      assert last !in init;
    }
  }

  // ---------------------------------------------------------------- after a restart

  datatype ScanStats = ScanStats(reportName: string, timestamp: Stamp, fileCount: nat)

  datatype CompareStats = CompareStats(timestamp: Stamp, counts: Stats)

  /** A file of one kind with a time that no other file of that kind exceeds. */
  ghost predicate Latest(files: seq<string>, compares: bool, file: string) {
    && file in files && ("compare__" <= file <==> compares) && TimeOf(file) != ZERO_TIME
    && forall other :: other in files && ("compare__" <= other <==> compares) && TimeOf(other) != ZERO_TIME ==>
         !Earlier(TimeOf(file), TimeOf(other))
  }

  /** No file of one kind has a time, or one after the zero time. */
  ghost predicate NoneDated(files: seq<string>, compares: bool) {
    forall other :: other in files && ("compare__" <= other <==> compares) ==> !Earlier(ZERO_TIME, TimeOf(other))
  }

  lemma {:induction false} TimesOrder(a: string, b: string)
    ensures Instant(TimeOf(a)) < Instant(TimeOf(b)) <==> Earlier(TimeOf(a), TimeOf(b))
    ensures Instant(ZERO_TIME) < Instant(TimeOf(b)) <==> Earlier(ZERO_TIME, TimeOf(b))
  {
    hide Tokens, TimestampOf, Earlier, Instant;
    TimestampReal(Tokens(a));
    TimestampReal(Tokens(b));
    InstantOrder(TimeOf(a), TimeOf(b));
    InstantOrder(ZERO_TIME, TimeOf(b));
  }

  /** The loop of initAgentState for one kind of file: the first file with the latest time wins. */
  method LatestReport(files: seq<string>, compares: bool) returns (latest: Option<string>)
    ensures latest.None? ==> NoneDated(files, compares)
    ensures latest.Some? ==> Latest(files, compares, latest.value)
  {
    hide Tokens, TimestampOf, Earlier, Instant;
    latest := None;
    var latestTime := ZERO_TIME;
    for i := 0 to |files|
      invariant latest.None? ==> latestTime == ZERO_TIME && NoneDated(files[..i], compares)
      invariant latest.Some? ==> latestTime == TimeOf(latest.value) && latestTime != ZERO_TIME
      invariant latest.Some? ==>
        latest.value in files[..i] && ("compare__" <= latest.value <==> compares) && Earlier(ZERO_TIME, latestTime)
      invariant latest.Some? ==> forall other ::
        other in files[..i] && ("compare__" <= other <==> compares) ==> Instant(TimeOf(other)) <= Instant(latestTime)
    {
      assert files[..i + 1] == files[..i] + [files[i]];
      var name := files[i];
      var t := ParseReportTimestamp(name);
      TimesOrder(name, name);
      ZeroFirst(t);
      if latest.Some? {
        TimesOrder(latest.value, latest.value);
      }
      if t != ZERO_TIME && ("compare__" <= name) == compares && Instant(latestTime) < Instant(t) {
        if latest.None? {
          forall other | other in files[..i] && ("compare__" <= other <==> compares)
            ensures Instant(TimeOf(other)) <= Instant(t)
          {
            TimesOrder(other, other);
          }
        } else {
          TimesOrder(latest.value, name);
          LaterThanZero(latest.value, name);
        }
        latest, latestTime := Some(name), t;
      }
    }
    assert files[..|files|] == files;
    if latest.Some? {
      forall other | other in files ensures Instant(TimeOf(latest.value)) < Instant(TimeOf(other))
        <==> Earlier(TimeOf(latest.value), TimeOf(other))
      {
        TimesOrder(latest.value, other);
      }
    }
  }

  lemma {:induction false} ZeroFirst(t: Stamp)
    ensures !Earlier(ZERO_TIME, ZERO_TIME)
  {}

  lemma {:induction false} LaterThanZero(a: string, b: string)
    requires Earlier(ZERO_TIME, TimeOf(a)) && Instant(TimeOf(a)) < Instant(TimeOf(b))
    ensures Earlier(ZERO_TIME, TimeOf(b))
  {
    hide Tokens, TimestampOf, Earlier, Instant;
    TimesOrder(a, a);
    TimesOrder(a, b);
  }

  /** The statistics of the last scan are those of a file with the latest time, if any scan has a time. */
  ghost predicate RestoredScan(contents: map<string, string>, files: seq<string>, stats: Option<ScanStats>) {
    match stats
    case None => NoneDated(files, false)
    case Some(s) => exists file ::
      && Latest(files, false, file) && file in contents
      && s == ScanStats(NameOf(file, Tokens(file)), TimestampOf(Tokens(file)), NonEmpty(LaterLines(contents[file])))
  }

  ghost predicate RestoredCompare(contents: map<string, string>, files: seq<string>, stats: Option<CompareStats>) {
    match stats
    case None => NoneDated(files, true)
    case Some(s) => exists file ::
      && Latest(files, true, file) && file in contents
      && s == CompareStats(TimestampOf(Tokens(file)), StatsOf(ScanLines(contents[file])))
  }

  /** initAgentState: statistics of the latest scan and the latest comparison, read from their files. */
  method InitAgentState(dir: ReportDir, files: seq<string>)
    returns (lastScan: Option<ScanStats>, lastCompare: Option<CompareStats>)
    requires forall f :: f in files ==> f in dir.files
    ensures RestoredScan(dir.files, files, lastScan)
    ensures RestoredCompare(dir.files, files, lastCompare)
  {
    hide Latest, NoneDated, StatsOf, NonEmpty, LaterLines, ScanLines, TimestampOf, Tokens, NameOf;
    lastScan, lastCompare := None, None;
    var scan := LatestReport(files, false);
    var compare := LatestReport(files, true);
    if scan.Some? {
      LatestIn(files, false, scan.value);
      var name := ExtractReportName(scan.value);
      var t := ParseReportTimestamp(scan.value);
      var count := CountReportLines(dir.files[scan.value]);
      lastScan := Some(ScanStats(name, t, count));
    }
    if compare.Some? {
      LatestIn(files, true, compare.value);
      var t := ParseReportTimestamp(compare.value);
      var changed, added, missing, moved := ParseCompareFileStats(dir.files[compare.value]);
      lastCompare := Some(CompareStats(t, Stats(changed, added, missing, moved)));
    }
  }

  lemma {:induction false} LatestIn(files: seq<string>, compares: bool, file: string)
    requires Latest(files, compares, file)
    ensures file in files && ("compare__" <= file <==> compares)
  {}

  /** A file whose time is later than that of every other file of its kind. */
  ghost predicate Newest(files: seq<string>, compares: bool, file: string, t: Stamp) {
    && Real(t) && t.nanos == 0 && Earlier(ZERO_TIME, t) && file in files
    && forall other :: other in files && other != file && ("compare__" <= other <==> compares) ==>
         Earlier(TimeOf(other), t)
  }

  lemma {:induction false} NewestChosen(files: seq<string>, compares: bool, file: string, t: Stamp, chosen: string)
    requires Newest(files, compares, file, t) && TimestampOf(Tokens(file)) == t
    requires Latest(files, compares, chosen)
    ensures chosen == file || ("compare__" <= file <==> !compares)
    ensures chosen != file ==> TimestampOf(Tokens(chosen)) != t
  {
    hide TimestampOf, Tokens, Real;
  }

  lemma {:induction false} NewestDated(files: seq<string>, compares: bool, file: string, t: Stamp)
    requires Newest(files, compares, file, t) && TimestampOf(Tokens(file)) == t && ("compare__" <= file <==> compares)
    ensures !NoneDated(files, compares)
  {
    hide TimestampOf, Tokens, Real;
  }

  /**
   * A restarted agent reports of its newest saved scan the name and the number of files it was saved with, and
   * the time it was saved under, exactly when the report name is plain.
   */
  lemma {:induction false} ScanSurvivesRestart(
      contents: map<string, string>, files: seq<string>, stats: Option<ScanStats>,
      name: string, t: Stamp, h: Header, scan: Files)
    requires RestoredScan(contents, files, stats)
    requires Real(t) && Newest(files, false, name + "_" + FormatTime(t), t)
    requires name + "_" + FormatTime(t) in contents && IsScanReport(contents[name + "_" + FormatTime(t)], h, scan)
    requires OneLine(HeaderLine(h)) && PlainHashes(scan) && forall k :: k in scan ==> OneLine(k)
    ensures stats == Some(ScanStats(name, t, |scan|)) <==> PlainName(name)
  {
    hide TimestampOf, Tokens, FormatTime, NameOf, Latest, NoneDated, Newest, IsScanReport, HeaderLine, NonEmpty;
    hide LaterLines;
    hide PlainName, Matching, Real;
    var file := name + "_" + FormatTime(t);
    NewestPlain(files, false, file, t);
    TimestampRoundTrip(name, t);
    NameRoundTrip(name, t);
    FileCountRestored(contents[file], h, scan);
    if PlainName(name) {
      PlainIsScan(name, t);
      NewestDated(files, false, file, t);
    }
    if stats.Some? {
      var chosen :| Latest(files, false, chosen) && chosen in contents && stats.value ==
        ScanStats(NameOf(chosen, Tokens(chosen)), TimestampOf(Tokens(chosen)), NonEmpty(LaterLines(contents[chosen])));
      NewestChosen(files, false, file, t, chosen);
    }
  }

  lemma {:induction false} NewestPlain(files: seq<string>, compares: bool, file: string, t: Stamp)
    requires Newest(files, compares, file, t)
    ensures t.nanos == 0 && t != ZERO_TIME && file in files
  {
    hide TimestampOf, Tokens, Real;
  }

  lemma {:induction false} PlainIsScan(name: string, t: Stamp)
    requires Real(t) && t.nanos == 0 && t != ZERO_TIME && PlainName(name)
    ensures !("compare__" <= name + "_" + FormatTime(t))
  {
    hide TimestampOf, Tokens, FormatTime, NameOf, PlainName, Real;
    SavedScanMatches(name, t);
  }

  /** A restarted agent reports of its newest saved comparison the time it was saved under and its counts. */
  lemma {:induction false} CompareSurvivesRestart(
      contents: map<string, string>, files: seq<string>, stats: Option<CompareStats>,
      name: string, t: Stamp, oh: Header, nh: Header, cr: CompareReport)
    requires RestoredCompare(contents, files, stats) && "compare__" <= name
    requires Real(t) && Newest(files, true, name + "__" + FormatTime(t), t)
    requires name + "__" + FormatTime(t) in contents && IsCompareFile(contents[name + "__" + FormatTime(t)], oh, nh, cr)
    requires OneLine(HeaderLine(oh)) && OneLine(HeaderLine(nh)) && OneLines(cr)
    ensures stats == Some(CompareStats(t, Stats(|cr.changedFiles|, |cr.newFiles|, |cr.missingFiles|, |cr.movedFiles|)))
  {
    hide TimestampOf, Tokens, FormatTime, Latest, NoneDated, Newest, IsCompareFile, HeaderLine, OneLines, StatsOf;
    hide ScanLines;
    hide Real;
    var file := name + "__" + FormatTime(t);
    NewestPlain(files, true, file, t);
    assert file == (name + "_") + "_" + FormatTime(t);
    assert "compare__" <= file;
    TimestampRoundTrip(name + "_", t);
    CompareCountsRestored(contents[file], oh, nh, cr);
    NewestDated(files, true, file, t);
    var chosen :| Latest(files, true, chosen) && chosen in contents
      && stats.value == CompareStats(TimestampOf(Tokens(chosen)), StatsOf(ScanLines(contents[chosen])));
    NewestChosen(files, true, file, t, chosen);
  }
}
