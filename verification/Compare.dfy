/** The comparison engine: what changed between two scans, and which files moved. */
module Compare {
  import opened Order

  /** The hash of zero bytes; empty files are never paired up as moved. */
  const EMPTY_FILE_MD5 := "d41d8cd98f00b204e9800998ecf8427e"

  /** A scan: the hash of every file, by path. */
  type Files = map<string, string>

  datatype Change = Change(path: string, oldHash: string, newHash: string)

  datatype Move = Move(oldPath: string, newPath: string, hash: string)

  datatype CompareReport = CompareReport(
    newFiles: Files,
    missingFiles: Files,
    changedFiles: seq<Change>,
    movedFiles: seq<Move>)

  // ---------------------------------------------------------------- specification

  /** The files of one scan whose path the other scan does not have. */
  ghost function OnlyIn(a: Files, b: Files, ignored: string -> bool): Files {
    map k | k in a && k !in b && !ignored(k) :: a[k]
  }

  ghost function Changes(was: Files, now: Files, ignored: string -> bool): set<Change> {
    set k | k in was && k in now && was[k] != now[k] && !ignored(k) :: Change(k, was[k], now[k])
  }

  ghost function WithHash(files: Files, hash: string): set<string> {
    set k | k in files && files[k] == hash
  }

  /** Two paths are paired when they hold the same place among the paths with their hash. */
  ghost predicate Paired(missing: Files, added: Files, from: string, to: string) {
    && from in missing && to in added
    && missing[from] == added[to] != EMPTY_FILE_MD5
    && Rank(from, WithHash(missing, missing[from])) == Rank(to, WithHash(added, added[to]))
  }

  /** The paths that have a partner on the other side. */
  ghost function Matched(files: Files, others: Files): set<string> {
    set k | k in files && files[k] != EMPTY_FILE_MD5
            && Rank(k, WithHash(files, files[k])) < |WithHash(others, files[k])|
  }

  ghost predicate AscendingMoves(moves: seq<Move>) {
    forall i, j :: 0 <= i < j < |moves| ==> Less(moves[i].oldPath, moves[j].oldPath)
  }

  /** The moves are exactly the pairs, in ascending order of their old path. */
  ghost predicate AreMoves(missing: Files, added: Files, moves: seq<Move>) {
    && AscendingMoves(moves)
    && forall m: Move :: m in moves <==> Paired(missing, added, m.oldPath, m.newPath) && m.hash == missing[m.oldPath]
  }

  /** What a comparison of two scans must report. */
  ghost predicate IsReport(was: Files, now: Files, ignored: string -> bool, cr: CompareReport) {
    var missing, added := OnlyIn(was, now, ignored), OnlyIn(now, was, ignored);
    && cr.missingFiles == missing - Matched(missing, added)
    && cr.newFiles == added - Matched(added, missing)
    && multiset(cr.changedFiles) == multiset(Changes(was, now, ignored))
    && AreMoves(missing, added, cr.movedFiles)
  }

  // ---------------------------------------------------------------- pairs

  /** A path has a partner exactly when its rank is below the number of candidates. */
  lemma {:induction false} PartnerOf(missing: Files, added: Files, from: string) returns (to: string)
    requires from in Matched(missing, added)
    ensures Paired(missing, added, from, to) && to in Matched(added, missing)
  {
    var hash := missing[from];
    to := RankOnto(WithHash(added, hash), Rank(from, WithHash(missing, hash)));
    RankBelowSize(from, WithHash(missing, hash));
  }

  lemma {:induction false} PairedIsMatched(missing: Files, added: Files, from: string, to: string)
    requires Paired(missing, added, from, to)
    ensures from in Matched(missing, added) && to in Matched(added, missing)
  {
    var hash := missing[from];
    RankBelowSize(from, WithHash(missing, hash));
    RankBelowSize(to, WithHash(added, hash));
  }

  /** Pairing is one-to-one. */
  lemma {:induction false} PairedOnce(
      missing: Files, added: Files, from: string, to: string, from': string, to': string)
    requires Paired(missing, added, from, to) && Paired(missing, added, from', to')
    ensures from == from' <==> to == to'
  {
    var hash := missing[from];
    if from == from' && to != to' {
      RankInjective(to, to', WithHash(added, hash));
    }
    if to == to' && from != from' {
      RankInjective(from, from', WithHash(missing, hash));
    }
  }

  // ---------------------------------------------------------------- the algorithm

  /**
   * The comparison. Go visits maps in an arbitrary order; here every `range` over a map takes an
   * arbitrary remaining key.
   */
  method BuildCompareReport(oldReport: Files, newReport: Files, ignored: string -> bool)
    returns (cr: CompareReport)
    ensures IsReport(oldReport, newReport, ignored, cr)
  {
    var missing, changed, rest := ClassifyOld(oldReport, newReport, ignored);
    var added := KeepUnignored(rest, ignored);
    assert added == OnlyIn(newReport, oldReport, ignored);
    var newByHash := GroupByHash(added);
    newByHash := SortGroups(newByHash, added);
    var missingPaths := KeysOf(missing);
    missingPaths := SortStrings(missingPaths);
    var moved, missingLeft, newLeft := PairMoves(missing, added, missingPaths, newByHash);
    cr := CompareReport(newLeft, missingLeft, changed, moved);
  }

  /** What one step of the loop leaves of both reports. */
  lemma {:induction false} LeftNext(oldReport: Files, newReport: Files, todo: set<string>, k: string)
    requires k in todo && todo <= oldReport.Keys
    ensures var done := oldReport.Keys - todo;
      && k !in done && oldReport.Keys - (todo - {k}) == done + {k}
      && (k in newReport - done <==> k in newReport)
      && (k in newReport ==> newReport - (done + {k}) == newReport - done - {k})
      && (k !in newReport ==> newReport - (done + {k}) == newReport - done)
  {}

  /** The loop over the old report: files found again leave the new report. */
  method ClassifyOld(oldReport: Files, newReport: Files, ignored: string -> bool)
    returns (missing: Files, changed: seq<Change>, rest: Files)
    ensures missing == OnlyIn(oldReport, newReport, ignored)
    ensures multiset(changed) == multiset(Changes(oldReport, newReport, ignored))
    ensures rest == newReport - oldReport.Keys
  {
    hide MissingOn, ChangesOn, OnlyIn, Changes;
    OnNothingOnAll(oldReport, newReport, ignored);
    missing, changed, rest := map[], [], newReport;
    var todo := oldReport.Keys;
    ghost var done := {};
    while todo != {}
      invariant todo <= oldReport.Keys && done == oldReport.Keys - todo
      invariant missing == MissingOn(done, oldReport, newReport, ignored)
      invariant rest == newReport - done
      invariant multiset(changed) == multiset(ChangesOn(done, oldReport, newReport, ignored))
      decreases todo
    {
      var k :| k in todo;
      var v := oldReport[k];
      LeftNext(oldReport, newReport, todo, k);
      ChangesOnNext(done, k, oldReport, newReport, ignored);
      MissingOnNext(done, k, oldReport, newReport, ignored);
      if k in rest {
        if rest[k] != v && !ignored(k) {
          changed := changed + [Change(k, v, rest[k])];
        }
        rest := rest - {k};
      } else if !ignored(k) {
        missing := missing[k := v];
      }
      todo, done := todo - {k}, done + {k};
    }
    assert done == oldReport.Keys;
  }

  lemma {:induction false} OnNothingOnAll(was: Files, now: Files, ignored: string -> bool)
    ensures MissingOn({}, was, now, ignored) == map[] && ChangesOn({}, was, now, ignored) == {}
    ensures MissingOn(was.Keys, was, now, ignored) == OnlyIn(was, now, ignored)
    ensures ChangesOn(was.Keys, was, now, ignored) == Changes(was, now, ignored)
  {}

  /** The missing files and the changes among the paths visited so far. */
  ghost function MissingOn(paths: set<string>, was: Files, now: Files, ignored: string -> bool): Files {
    map k | k in was && k in paths && k !in now && !ignored(k) :: was[k]
  }

  ghost function ChangesOn(paths: set<string>, was: Files, now: Files, ignored: string -> bool): set<Change> {
    set k | k in paths && k in was && k in now && was[k] != now[k] && !ignored(k) :: Change(k, was[k], now[k])
  }

  lemma {:induction false} MissingOnNext(done: set<string>, k: string, was: Files, now: Files, ignored: string -> bool)
    requires k !in done && k in was
    ensures MissingOn(done + {k}, was, now, ignored)
         == var before := MissingOn(done, was, now, ignored);
            if k !in now && !ignored(k) then before[k := was[k]] else before
  {}

  lemma {:induction false} ChangesOnNext(done: set<string>, k: string, was: Files, now: Files, ignored: string -> bool)
    requires k !in done && k in was
    ensures multiset(ChangesOn(done + {k}, was, now, ignored))
         == multiset(ChangesOn(done, was, now, ignored))
            + (if k in now && was[k] != now[k] && !ignored(k) then multiset{Change(k, was[k], now[k])} else multiset{})
  {
    var before, after := ChangesOn(done, was, now, ignored), ChangesOn(done + {k}, was, now, ignored);
    if k in now && was[k] != now[k] && !ignored(k) {
      var c := Change(k, was[k], now[k]);
      assert c !in before;
      assert after == before + {c};
    } else {
      assert after == before;
    }
  }

  method KeepUnignored(files: Files, ignored: string -> bool) returns (kept: Files)
    ensures kept == map k | k in files && !ignored(k) :: files[k]
  {
    kept := map[];
    var todo := files.Keys;
    while todo != {}
      invariant todo <= files.Keys
      invariant kept == map k | k in files && k !in todo && !ignored(k) :: files[k]
      decreases todo
    {
      var k :| k in todo;
      if !ignored(k) {
        kept := kept[k := files[k]];
      }
      todo := todo - {k};
    }
  }

  /** Reading a missing key of a Go map of slices gives the empty slice. */
  function Queue(queues: map<string, seq<string>>, hash: string): seq<string> {
    if hash in queues then queues[hash] else []
  }

  method GroupByHash(added: Files) returns (newByHash: map<string, seq<string>>)
    ensures forall h :: Distinct(Queue(newByHash, h)) && Elements(Queue(newByHash, h)) == WithHash(added, h)
  {
    newByHash := map[];
    var todo := added.Keys;
    while todo != {}
      invariant todo <= added.Keys
      invariant forall h :: Distinct(Queue(newByHash, h)) && Elements(Queue(newByHash, h)) == WithHash(added, h) - todo
      decreases todo
    {
      var k :| k in todo;
      var v := added[k];
      ghost var before := newByHash;
      newByHash := newByHash[v := Queue(newByHash, v) + [k]];
      forall h
        ensures Distinct(Queue(newByHash, h))
        ensures Elements(Queue(newByHash, h)) == WithHash(added, h) - (todo - {k})
      {
        assert k !in Elements(Queue(before, h));
        if h == v {
          assert Elements(Queue(newByHash, h)) == Elements(Queue(before, h)) + {k};
        } else {
          assert Queue(newByHash, h) == Queue(before, h);
        }
      }
      todo := todo - {k};
    }
  }

  method SortGroups(queues: map<string, seq<string>>, ghost added: Files) returns (newByHash: map<string, seq<string>>)
    requires forall h :: Distinct(Queue(queues, h)) && Elements(Queue(queues, h)) == WithHash(added, h)
    ensures forall h :: Lists(Queue(newByHash, h), WithHash(added, h))
  {
    newByHash := queues;
    var todo := queues.Keys;
    while todo != {}
      invariant newByHash.Keys == queues.Keys
      invariant forall h :: h in todo ==> Queue(newByHash, h) == Queue(queues, h)
      invariant forall h :: h !in todo ==> Lists(Queue(newByHash, h), WithHash(added, h))
      decreases todo
    {
      var h :| h in todo;
      assert Queue(newByHash, h) == Queue(queues, h);
      if h in newByHash {
        var sorted := SortStrings(newByHash[h]);
        newByHash := newByHash[h := sorted];
      }
      todo := todo - {h};
    }
  }

  method KeysOf(files: Files) returns (keys: seq<string>)
    ensures Distinct(keys) && Elements(keys) == files.Keys
  {
    keys := [];
    var todo := files.Keys;
    while todo != {}
      invariant todo <= files.Keys
      invariant Distinct(keys) && Elements(keys) == files.Keys - todo
      decreases todo
    {
      var k :| k in todo;
      assert k !in Elements(keys);
      assert Elements(keys + [k]) == Elements(keys) + {k};
      keys := keys + [k];
      todo := todo - {k};
    }
  }

  // ---------------------------------------------------------------- pairing missing and new paths

  ghost function OldPaths(moves: seq<Move>): set<string> {
    set m | m in moves :: m.oldPath
  }

  ghost function NewPaths(moves: seq<Move>): set<string> {
    set m | m in moves :: m.newPath
  }

  /** How many of the first `i` missing paths have a hash. */
  ghost function Visited(missing: Files, visited: seq<string>, hash: string): nat {
    |WithHash(missing, hash) * Elements(visited)|
  }

  /** What remains of a listing when its first `n` elements have been taken. */
  ghost function After(s: seq<string>, n: nat): seq<string> {
    if n <= |s| then s[n..] else []
  }

  /** The moves found once the missing paths in `visited` have been looked at. */
  ghost predicate MovesSoFar(missing: Files, added: Files, visited: seq<string>, moves: seq<Move>) {
    && AscendingMoves(moves)
    && forall m: Move ::
         m in moves <==>
           m.oldPath in visited && Paired(missing, added, m.oldPath, m.newPath) && m.hash == missing[m.oldPath]
  }

  /** Each queue holds the candidates that the visited paths have not taken. */
  ghost predicate QueuesAt(
      missing: Files, visited: seq<string>, queues: map<string, seq<string>>, newByHash: map<string, seq<string>>)
  {
    forall h :: h != EMPTY_FILE_MD5 ==> Queue(newByHash, h) == After(Queue(queues, h), Visited(missing, visited, h))
  }

  method PairMoves(missing: Files, added: Files, missingPaths: seq<string>, queues: map<string, seq<string>>)
    returns (moved: seq<Move>, missingLeft: Files, newLeft: Files)
    requires Lists(missingPaths, missing.Keys)
    requires forall h :: Lists(Queue(queues, h), WithHash(added, h))
    ensures AreMoves(missing, added, moved)
    ensures missingLeft == missing - Matched(missing, added)
    ensures newLeft == added - Matched(added, missing)
  {
    moved, missingLeft, newLeft := [], missing, added;
    var newByHash := queues;
    NothingVisited(missing, added, queues);
    for i := 0 to |missingPaths|
      invariant QueuesAt(missing, missingPaths[..i], queues, newByHash)
      invariant MovesSoFar(missing, added, missingPaths[..i], moved)
      invariant missingLeft == missing - OldPaths(moved)
      invariant newLeft == added - NewPaths(moved)
    {
      var k := missingPaths[i];
      NextIsLeft(missing, added, missingPaths, i, moved);
      var v := missingLeft[k];
      var candidates := Queue(newByHash, v);
      if v == EMPTY_FILE_MD5 || |candidates| == 0 {
        LeaveQueues(missing, added, missingPaths, i, queues, newByHash);
        SkipUnpaired(missing, added, missingPaths, i, moved);
        continue;
      }
      var m := Move(k, candidates[0], v);
      TakeFromQueue(missing, added, missingPaths, i, queues, newByHash);
      TakePair(missing, added, missingPaths, i, moved, m);
      DropOne(missing, OldPaths(moved), m.oldPath);
      DropOne(added, NewPaths(moved), m.newPath);
      newByHash := newByHash[v := candidates[1..]];
      moved := moved + [m];
      missingLeft := missingLeft - {m.oldPath};
      newLeft := newLeft - {m.newPath};
    }
    assert missingPaths[..|missingPaths|] == missingPaths;
    AllVisited(missing, added, missingPaths, moved);
  }

  lemma {:induction false} NothingVisited(missing: Files, added: Files, queues: map<string, seq<string>>)
    ensures QueuesAt(missing, [], queues, queues) && MovesSoFar(missing, added, [], [])
  {
    assert Elements<string>([]) == {};
    forall h ensures Visited(missing, [], h) == 0 {
      assert WithHash(missing, h) * {} == {};
    }
  }

  lemma {:induction false} DropOne(files: Files, gone: set<string>, k: string)
    ensures files - gone - {k} == files - (gone + {k})
  {}

  lemma {:induction false} NextIsLeft(missing: Files, added: Files, paths: seq<string>, i: nat, moved: seq<Move>)
    requires Lists(paths, missing.Keys) && i < |paths|
    requires MovesSoFar(missing, added, paths[..i], moved)
    ensures paths[i] in missing && paths[i] in missing - OldPaths(moved)
    ensures (missing - OldPaths(moved))[paths[i]] == missing[paths[i]]
  {
    assert paths[i] in Elements(paths);
    NotVisited(paths, i);
  }

  lemma {:induction false} TakeFromQueue(
    missing: Files, added: Files, paths: seq<string>, i: nat,
    queues: map<string, seq<string>>, newByHash: map<string, seq<string>>)
    requires Lists(paths, missing.Keys) && i < |paths| && paths[i] in missing
    requires forall h :: Lists(Queue(queues, h), WithHash(added, h))
    requires QueuesAt(missing, paths[..i], queues, newByHash)
    requires missing[paths[i]] != EMPTY_FILE_MD5 && Queue(newByHash, missing[paths[i]]) != []
    ensures Paired(missing, added, paths[i], Queue(newByHash, missing[paths[i]])[0])
    ensures QueuesAt(missing, paths[..i + 1], queues,
      newByHash[missing[paths[i]] := Queue(newByHash, missing[paths[i]])[1..]])
  {
    hide Visited, Lists;
    var k := paths[i];
    var v := missing[k];
    var n := Visited(missing, paths[..i], v);
    VisitedRank(missing, paths, i);
    RankIsIndex(Queue(queues, v), WithHash(added, v), n);
    forall h | h != EMPTY_FILE_MD5
      ensures Queue(newByHash[v := Queue(newByHash, v)[1..]], h)
        == After(Queue(queues, h), Visited(missing, paths[..i + 1], h))
    {
      VisitedNext(missing, paths, i, h);
    }
  }

  lemma {:induction false} LeaveQueues(
    missing: Files, added: Files, paths: seq<string>, i: nat,
    queues: map<string, seq<string>>, newByHash: map<string, seq<string>>)
    requires Lists(paths, missing.Keys) && i < |paths| && paths[i] in missing
    requires forall h :: Lists(Queue(queues, h), WithHash(added, h))
    requires QueuesAt(missing, paths[..i], queues, newByHash)
    requires missing[paths[i]] == EMPTY_FILE_MD5 || Queue(newByHash, missing[paths[i]]) == []
    ensures QueuesAt(missing, paths[..i + 1], queues, newByHash)
    ensures missing[paths[i]] == EMPTY_FILE_MD5
         || |WithHash(added, missing[paths[i]])| <= Rank(paths[i], WithHash(missing, missing[paths[i]]))
  {
    var v := missing[paths[i]];
    VisitedRank(missing, paths, i);
    ListingSize(Queue(queues, v), WithHash(added, v));
    forall h | h != EMPTY_FILE_MD5
      ensures Queue(newByHash, h) == After(Queue(queues, h), Visited(missing, paths[..i + 1], h))
    {
      VisitedNext(missing, paths, i, h);
    }
  }

  lemma {:induction false} NotVisited(paths: seq<string>, i: nat)
    requires Ascending(paths) && i < |paths|
    ensures paths[i] !in paths[..i]
  {
    LessIrreflexive(paths[i]);
  }

  lemma {:induction false} VisitedNext(missing: Files, paths: seq<string>, i: nat, h: string)
    requires Lists(paths, missing.Keys) && i < |paths| && paths[i] in missing
    ensures Visited(missing, paths[..i + 1], h)
         == Visited(missing, paths[..i], h) + if h == missing[paths[i]] then 1 else 0
  {
    var k := paths[i];
    NotVisited(paths, i);
    assert paths[..i + 1] == paths[..i] + [k];
    var before, after := WithHash(missing, h) * Elements(paths[..i]), WithHash(missing, h) * Elements(paths[..i + 1]);
    if h == missing[k] {
      assert after == before + {k};
    } else {
      assert after == before;
    }
  }

  /** The count of visited paths with the hash of the next path is the rank of that path. */
  lemma {:induction false} VisitedRank(missing: Files, paths: seq<string>, i: nat)
    requires Lists(paths, missing.Keys) && i < |paths| && paths[i] in missing
    ensures Visited(missing, paths[..i], missing[paths[i]]) == Rank(paths[i], WithHash(missing, missing[paths[i]]))
  {
    var k := paths[i];
    var same := WithHash(missing, missing[k]);
    assert Below(k, same) == same * Elements(paths[..i]) by {
      forall y | y in Below(k, same) ensures y in Elements(paths[..i]) {
        BelowIsBefore(paths, missing.Keys, i, y);
      }
      forall y | y in same * Elements(paths[..i]) ensures Less(y, k) {
        var j :| 0 <= j < i && paths[..i][j] == y;
      }
    }
  }

  lemma {:induction false} BelowIsBefore(paths: seq<string>, keys: set<string>, i: nat, y: string)
    requires Lists(paths, keys) && i < |paths| && y in keys && Less(y, paths[i])
    ensures y in Elements(paths[..i])
  {
    assert y in Elements(paths);
    var j :| 0 <= j < |paths| && paths[j] == y;
    LessIrreflexive(y);
    if i < j {
      LessTransitive(y, paths[i], y);
    }
    assert paths[..i][j] == y;
  }

  lemma {:induction false} SkipUnpaired(missing: Files, added: Files, paths: seq<string>, i: nat, moved: seq<Move>)
    requires i < |paths| && paths[i] in missing
    requires MovesSoFar(missing, added, paths[..i], moved)
    requires missing[paths[i]] == EMPTY_FILE_MD5
          || |WithHash(added, missing[paths[i]])| <= Rank(paths[i], WithHash(missing, missing[paths[i]]))
    ensures MovesSoFar(missing, added, paths[..i + 1], moved)
  {
    assert paths[..i + 1] == paths[..i] + [paths[i]];
    forall to ensures !Paired(missing, added, paths[i], to) {
      if Paired(missing, added, paths[i], to) {
        PairedIsMatched(missing, added, paths[i], to);
      }
    }
  }

  lemma {:induction false} TakePair(missing: Files, added: Files, paths: seq<string>, i: nat, moved: seq<Move>, m: Move)
    requires Lists(paths, missing.Keys) && i < |paths| && m.oldPath == paths[i]
    requires MovesSoFar(missing, added, paths[..i], moved)
    requires Paired(missing, added, m.oldPath, m.newPath) && m.hash == missing[m.oldPath]
    ensures MovesSoFar(missing, added, paths[..i + 1], moved + [m])
    ensures OldPaths(moved + [m]) == OldPaths(moved) + {m.oldPath}
    ensures NewPaths(moved + [m]) == NewPaths(moved) + {m.newPath}
  {
    var moved' := moved + [m];
    assert paths[..i + 1] == paths[..i] + [paths[i]];
    NotVisited(paths, i);
    forall x: Move | x.oldPath == m.oldPath && Paired(missing, added, x.oldPath, x.newPath)
      ensures x.newPath == m.newPath
    {
      PairedOnce(missing, added, m.oldPath, m.newPath, x.oldPath, x.newPath);
    }
    forall a | 0 <= a < |moved| ensures Less(moved[a].oldPath, m.oldPath) {
      assert moved[a] in moved;
      var j :| 0 <= j < i && paths[..i][j] == moved[a].oldPath;
    }
    assert forall x :: x in moved' <==> x in moved || x == m;
  }

  lemma {:induction false} AllVisited(missing: Files, added: Files, paths: seq<string>, moved: seq<Move>)
    requires Lists(paths, missing.Keys) && MovesSoFar(missing, added, paths, moved)
    ensures AreMoves(missing, added, moved)
    ensures OldPaths(moved) == Matched(missing, added) && NewPaths(moved) == Matched(added, missing)
  {
    assert forall k :: k in missing ==> k in Elements(paths);
    MovePaths(missing, added, moved);
  }

  /** The paths of the moves are the paths that have a partner. */
  lemma {:induction false} MovePaths(missing: Files, added: Files, moved: seq<Move>)
    requires AreMoves(missing, added, moved)
    ensures OldPaths(moved) == Matched(missing, added) && NewPaths(moved) == Matched(added, missing)
  {
    forall m: Move | m in moved ensures m.oldPath in Matched(missing, added) && m.newPath in Matched(added, missing) {
      PairedIsMatched(missing, added, m.oldPath, m.newPath);
    }
    forall k | k in Matched(missing, added) ensures k in OldPaths(moved) {
      var to := PartnerOf(missing, added, k);
      assert Move(k, to, missing[k]) in moved;
    }
    forall k | k in Matched(added, missing) ensures k in NewPaths(moved) {
      var from := PartnerOf(added, missing, k);
      assert Paired(missing, added, from, k);
      assert Move(from, k, missing[from]) in moved;
    }
  }
}
