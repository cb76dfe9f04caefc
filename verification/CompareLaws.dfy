/** What a comparison report means: laws that hold of every report of two scans. */
module CompareLaws {
  import opened Order
  import opened Compare

  // ---------------------------------------------------------------- one result

  /**
   * Two comparisons of the same scans report the same, whatever order Go visited its maps in; the
   * list of moves is even the same list.
   */
  lemma {:induction false} ReportUnique(
      was: Files, now: Files, ignored: string -> bool, a: CompareReport, b: CompareReport)
    requires IsReport(was, now, ignored, a) && IsReport(was, now, ignored, b)
    ensures a.newFiles == b.newFiles && a.missingFiles == b.missingFiles
    ensures multiset(a.changedFiles) == multiset(b.changedFiles)
    ensures a.movedFiles == b.movedFiles
  {
    MovesUnique(OnlyIn(was, now, ignored), OnlyIn(now, was, ignored), a.movedFiles, b.movedFiles);
  }

  lemma {:induction false} MovesUnique(missing: Files, added: Files, a: seq<Move>, b: seq<Move>)
    requires AreMoves(missing, added, a) && AreMoves(missing, added, b)
    ensures a == b
  {
    var pa, pb := OldPathSeq(a), OldPathSeq(b);
    MovePaths(missing, added, a);
    MovePaths(missing, added, b);
    OldPathSeqElements(a);
    OldPathSeqElements(b);
    ListingUnique(pa, pb, Matched(missing, added));
    forall i | 0 <= i < |a| ensures a[i] == b[i] {
      assert a[i] in a && b[i] in b && pa[i] == pb[i];
      PairedOnce(missing, added, a[i].oldPath, a[i].newPath, b[i].oldPath, b[i].newPath);
    }
  }

  ghost function OldPathSeq(moves: seq<Move>): seq<string> {
    seq(|moves|, i requires 0 <= i < |moves| => moves[i].oldPath)
  }

  lemma {:induction false} OldPathSeqElements(moves: seq<Move>)
    ensures Elements(OldPathSeq(moves)) == OldPaths(moves)
  {
    forall m: Move | m in moves ensures m.oldPath in OldPathSeq(moves) {
      var i :| 0 <= i < |moves| && moves[i] == m;
      assert OldPathSeq(moves)[i] == m.oldPath;
    }
  }

  // ---------------------------------------------------------------- comparing backwards

  /** Comparing in the other direction exchanges NEW and MISSING and turns every change and move round. */
  lemma {:induction false} ReportInverse(
      was: Files, now: Files, ignored: string -> bool, forth: CompareReport, back: CompareReport)
    requires IsReport(was, now, ignored, forth) && IsReport(now, was, ignored, back)
    ensures back.newFiles == forth.missingFiles && back.missingFiles == forth.newFiles
    ensures forall p, h, h' ::
      multiset(back.changedFiles)[Change(p, h, h')] == multiset(forth.changedFiles)[Change(p, h', h)]
    ensures forall p, p', h :: Move(p, p', h) in back.movedFiles <==> Move(p', p, h) in forth.movedFiles
  {
    forall p, h, h'
      ensures multiset(back.changedFiles)[Change(p, h, h')] == multiset(forth.changedFiles)[Change(p, h', h)]
    {
      assert Change(p, h, h') in Changes(now, was, ignored) <==> Change(p, h', h) in Changes(was, now, ignored);
    }
  }

  // ---------------------------------------------------------------- moves as a matching

  ghost function MovesWithHash(moves: seq<Move>, hash: string): set<Move> {
    set m | m in moves && m.hash == hash
  }

  /** Every move keeps the content, and no path takes part in two moves. */
  lemma {:induction false} MovesOneToOne(
      was: Files, now: Files, ignored: string -> bool, cr: CompareReport, m: Move, m': Move)
    requires IsReport(was, now, ignored, cr) && m in cr.movedFiles && m' in cr.movedFiles
    ensures m.oldPath in was && m.newPath in now && was[m.oldPath] == now[m.newPath] == m.hash != EMPTY_FILE_MD5
    ensures m.oldPath !in now && m.newPath !in was
    ensures m == m' <==> m.oldPath == m'.oldPath
    ensures m == m' <==> m.newPath == m'.newPath
  {
    PairedOnce(OnlyIn(was, now, ignored), OnlyIn(now, was, ignored), m.oldPath, m.newPath, m'.oldPath, m'.newPath);
  }

  /** As many moves for each content as missing and new paths allow. */
  lemma {:induction false} MovesPerHash(
      was: Files, now: Files, ignored: string -> bool, cr: CompareReport, hash: string)
    requires IsReport(was, now, ignored, cr)
    ensures var gone, come := |WithHash(OnlyIn(was, now, ignored), hash)|, |WithHash(OnlyIn(now, was, ignored), hash)|;
      |MovesWithHash(cr.movedFiles, hash)| == if hash == EMPTY_FILE_MD5 then 0 else if gone <= come then gone else come
  {
    PairsPerHash(OnlyIn(was, now, ignored), OnlyIn(now, was, ignored), cr.movedFiles, hash);
  }

  lemma {:induction false} PairsPerHash(missing: Files, added: Files, moves: seq<Move>, hash: string)
    requires AreMoves(missing, added, moves)
    ensures var gone, come := |WithHash(missing, hash)|, |WithHash(added, hash)|;
      |MovesWithHash(moves, hash)| == if hash == EMPTY_FILE_MD5 then 0 else if gone <= come then gone else come
  {
    var some := MovesWithHash(moves, hash);
    if hash == EMPTY_FILE_MD5 {
      assert some == {};
    } else {
      var gone := WithHash(missing, hash);
      var matched := gone * Matched(missing, added);
      MovePaths(missing, added, moves);
      forall k | k in matched ensures exists m: Move :: m in some && m.oldPath == k {
        assert k in OldPaths(moves);
      }
      forall m: Move, m': Move | m in some && m' in some && m.oldPath == m'.oldPath ensures m == m' {
        PairedOnce(missing, added, m.oldPath, m.newPath, m'.oldPath, m'.newPath);
      }
      ImageSize(some, matched, (m: Move) => m.oldPath);
      LowRanks(gone, matched, |WithHash(added, hash)|);
    }
  }

  /** The elements of low rank are the beginning of the listing. */
  lemma {:induction false} LowRanks(keys: set<string>, low: set<string>, n: nat)
    requires low == set k | k in keys && Rank(k, keys) < n
    ensures |low| == if |keys| <= n then |keys| else n
  {
    var s := Listing(keys);
    ListingSize(s, keys);
    var m := if |keys| <= n then |keys| else n;
    forall k | k in low ensures k in s[..m] {
      RankBelowSize(k, keys);
      assert k in Elements(s);
      var i :| 0 <= i < |s| && s[i] == k;
      RankIsIndex(s, keys, i);
      assert s[..m][i] == k;
    }
    forall k | k in s[..m] ensures k in low {
      var i :| 0 <= i < m && s[..m][i] == k;
      RankIsIndex(s, keys, i);
    }
    assert Elements(s[..m]) == low;
    forall i, j | 0 <= i < j < m ensures s[..m][i] != s[..m][j] {
      LessIrreflexive(s[i]);
    }
    DistinctElements(s[..m]);
  }

  /** After pairing, no content is both missing and new, except that of empty files. */
  lemma {:induction false} NoMoveMissed(
      was: Files, now: Files, ignored: string -> bool, cr: CompareReport, gone: string, come: string)
    requires IsReport(was, now, ignored, cr)
    requires gone in cr.missingFiles && come in cr.newFiles && cr.missingFiles[gone] == cr.newFiles[come]
    ensures cr.missingFiles[gone] == "d41d8cd98f00b204e9800998ecf8427e"
  {
    var missing, added := OnlyIn(was, now, ignored), OnlyIn(now, was, ignored);
    RankBelowSize(gone, WithHash(missing, missing[gone]));
    RankBelowSize(come, WithHash(added, added[come]));
  }

  /**
   * Of the missing paths with one content the smallest are moved: a path that stays missing continues a moved
   * one, or has the greater character where the two first differ.
   */
  lemma {:induction false} SmallestMoved(
      was: Files, now: Files, ignored: string -> bool, cr: CompareReport, m: Move, stays: string)
    requires IsReport(was, now, ignored, cr) && m in cr.movedFiles
    requires stays in cr.missingFiles && cr.missingFiles[stays] == m.hash
    ensures exists n: nat ::
      n <= |m.oldPath| && n < |stays| && m.oldPath[..n] == stays[..n] && (n == |m.oldPath| || m.oldPath[n] < stays[n])
  {
    var missing, added := OnlyIn(was, now, ignored), OnlyIn(now, was, ignored);
    PairedIsMatched(missing, added, m.oldPath, m.newPath);
    LowRankFirst(missing, added, m.oldPath, stays);
    LessExactly(m.oldPath, stays);
  }

  /** The same of the new paths. */
  lemma {:induction false} SmallestTaken(
      was: Files, now: Files, ignored: string -> bool, cr: CompareReport, m: Move, stays: string)
    requires IsReport(was, now, ignored, cr) && m in cr.movedFiles
    requires stays in cr.newFiles && cr.newFiles[stays] == m.hash
    ensures exists n: nat ::
      n <= |m.newPath| && n < |stays| && m.newPath[..n] == stays[..n] && (n == |m.newPath| || m.newPath[n] < stays[n])
  {
    var missing, added := OnlyIn(was, now, ignored), OnlyIn(now, was, ignored);
    PairedIsMatched(missing, added, m.oldPath, m.newPath);
    LowRankFirst(added, missing, m.newPath, stays);
    LessExactly(m.newPath, stays);
  }

  lemma {:induction false} LowRankFirst(files: Files, others: Files, k: string, stays: string)
    requires k in files && stays in files && files[k] == files[stays] != EMPTY_FILE_MD5
    requires k in Matched(files, others) && stays !in Matched(files, others)
    ensures Less(k, stays)
  {
    if k != stays && !Less(k, stays) {
      LessConnected(k, stays);
      RankMonotone(stays, k, WithHash(files, files[k]));
    }
  }

  /** Moves come in the order of their old paths, and those of one content in the order of their new paths too. */
  lemma {:induction false} MovesInOrder(
      was: Files, now: Files, ignored: string -> bool, cr: CompareReport, i: nat, j: nat)
    requires IsReport(was, now, ignored, cr) && i < j < |cr.movedFiles|
    ensures var a, b := cr.movedFiles[i], cr.movedFiles[j];
      && (exists n: nat ::
            n <= |a.oldPath| && n < |b.oldPath| && a.oldPath[..n] == b.oldPath[..n]
            && (n == |a.oldPath| || a.oldPath[n] < b.oldPath[n]))
      && (a.hash == b.hash ==>
            exists n: nat ::
              n <= |a.newPath| && n < |b.newPath| && a.newPath[..n] == b.newPath[..n]
              && (n == |a.newPath| || a.newPath[n] < b.newPath[n]))
  {
    hide WithHash, Matched;
    var a, b := cr.movedFiles[i], cr.movedFiles[j];
    var missing, added := OnlyIn(was, now, ignored), OnlyIn(now, was, ignored);
    LessExactly(a.oldPath, b.oldPath);
    if a.hash == b.hash {
      SameHashInOrder(missing, added, a, b);
      LessExactly(a.newPath, b.newPath);
    }
  }

  lemma {:induction false} SameHashInOrder(missing: Files, added: Files, a: Move, b: Move)
    requires Paired(missing, added, a.oldPath, a.newPath) && Paired(missing, added, b.oldPath, b.newPath)
    requires missing[a.oldPath] == missing[b.oldPath] && Less(a.oldPath, b.oldPath)
    ensures Less(a.newPath, b.newPath)
  {
    var hash := missing[a.oldPath];
    RankMonotone(a.oldPath, b.oldPath, WithHash(missing, hash));
    if a.newPath != b.newPath && !Less(a.newPath, b.newPath) {
      LessConnected(a.newPath, b.newPath);
      RankMonotone(b.newPath, a.newPath, WithHash(added, hash));
    }
  }

  /** Any way to pair missing with new paths of equal non-empty content, each used at most once. */
  ghost predicate ValidPairing(was: Files, now: Files, ignored: string -> bool, pairs: set<(string, string)>) {
    && (forall p :: p in pairs ==>
          && p.0 in was && p.0 !in now && !ignored(p.0)
          && p.1 in now && p.1 !in was && !ignored(p.1)
          && was[p.0] == now[p.1] != EMPTY_FILE_MD5)
    && forall p, q :: p in pairs && q in pairs && (p.0 == q.0 || p.1 == q.1) ==> p == q
  }

  /** No valid pairing has more pairs than the report has moves. */
  lemma {:induction false} MovesMaximum(
      was: Files, now: Files, ignored: string -> bool, cr: CompareReport, pairs: set<(string, string)>)
    requires IsReport(was, now, ignored, cr) && ValidPairing(was, now, ignored, pairs)
    ensures |pairs| <= |cr.movedFiles|
  {
    var missing, added := OnlyIn(was, now, ignored), OnlyIn(now, was, ignored);
    MovePaths(missing, added, cr.movedFiles);
    var moves := Elements(cr.movedFiles);
    forall p | p in pairs ensures exists m: Move :: StandsFor(was, now, ignored, cr.movedFiles, p, m) {
      var m := StandIn(missing, added, cr.movedFiles, p);
      assert StandsFor(was, now, ignored, cr.movedFiles, p, m);
    }
    var f := p requires p in pairs =>
      var m: Move :| StandsFor(was, now, ignored, cr.movedFiles, p, m); m;
    ImageSize(pairs, moves, f);
    forall i, j | 0 <= i < j < |cr.movedFiles| ensures cr.movedFiles[i] != cr.movedFiles[j] {
      LessIrreflexive(cr.movedFiles[i].oldPath);
    }
    DistinctElements(cr.movedFiles);
  }

  /**
   * The move that stands for a pair: the move of its missing path where all missing paths with
   * that content are moved, and the move of its new path otherwise.
   */
  ghost predicate StandsFor(
      was: Files, now: Files, ignored: string -> bool, moves: seq<Move>, p: (string, string), m: Move)
  {
    var missing, added := OnlyIn(was, now, ignored), OnlyIn(now, was, ignored);
    && m in moves
    && p.0 in missing && p.1 in added && missing[p.0] == added[p.1] == m.hash
    && if |WithHash(missing, m.hash)| <= |WithHash(added, m.hash)| then m.oldPath == p.0 else m.newPath == p.1
  }

  lemma {:induction false} StandIn(
      missing: Files, added: Files, moves: seq<Move>, p: (string, string))
    returns (m: Move)
    requires AreMoves(missing, added, moves)
    requires p.0 in missing && p.1 in added && missing[p.0] == added[p.1] != EMPTY_FILE_MD5
    ensures m in moves && m.hash == missing[p.0]
    ensures if |WithHash(missing, m.hash)| <= |WithHash(added, m.hash)| then m.oldPath == p.0 else m.newPath == p.1
  {
    var hash := missing[p.0];
    if |WithHash(missing, hash)| <= |WithHash(added, hash)| {
      RankBelowSize(p.0, WithHash(missing, hash));
      var to := PartnerOf(missing, added, p.0);
      m := Move(p.0, to, hash);
    } else {
      RankBelowSize(p.1, WithHash(added, hash));
      var from := PartnerOf(added, missing, p.1);
      assert Paired(missing, added, from, p.1);
      m := Move(from, p.1, hash);
    }
  }

  // ---------------------------------------------------------------- the report as a patch

  ghost function Rewrite(files: Files, changes: seq<Change>): Files {
    if changes == [] then files
    else
      var last := changes[|changes| - 1];
      Rewrite(files, changes[..|changes| - 1])[last.path := last.newHash]
  }

  ghost function Land(files: Files, moves: seq<Move>): Files {
    if moves == [] then files
    else
      var last := moves[|moves| - 1];
      Land(files, moves[..|moves| - 1])[last.newPath := last.hash]
  }

  /** Carry out a report: take away missing and moved-from paths, rewrite, then add moved-to and new paths. */
  ghost function Patch(files: Files, cr: CompareReport): Files {
    var kept := files - cr.missingFiles.Keys - OldPaths(cr.movedFiles);
    Land(Rewrite(kept, cr.changedFiles), cr.movedFiles) + cr.newFiles
  }

  ghost function ChangedPaths(changes: seq<Change>): set<string> {
    set c | c in changes :: c.path
  }

  lemma {:induction false} RewriteAt(files: Files, changes: seq<Change>, now: Files)
    requires forall c: Change :: c in changes ==> c.path in now && c.newHash == now[c.path]
    ensures var r := Rewrite(files, changes);
      && r.Keys == files.Keys + ChangedPaths(changes)
      && forall k :: k in r ==> if k in ChangedPaths(changes) then k in now && r[k] == now[k] else r[k] == files[k]
  {
    if changes != [] {
      var init, last := changes[..|changes| - 1], changes[|changes| - 1];
      assert last in changes;
      RewriteAt(files, init, now);
      assert changes == init + [last];
      assert ChangedPaths(changes) == ChangedPaths(init) + {last.path};
    }
  }

  lemma {:induction false} LandAt(files: Files, moves: seq<Move>, now: Files)
    requires forall m: Move :: m in moves ==> m.newPath in now && m.hash == now[m.newPath]
    ensures var r := Land(files, moves);
      && r.Keys == files.Keys + NewPaths(moves)
      && forall k :: k in r ==> if k in NewPaths(moves) then k in now && r[k] == now[k] else r[k] == files[k]
  {
    if moves != [] {
      var init, last := moves[..|moves| - 1], moves[|moves| - 1];
      assert last in moves;
      LandAt(files, init, now);
      assert moves == init + [last];
      assert NewPaths(moves) == NewPaths(init) + {last.newPath};
    }
  }

  ghost function Visible(files: Files, ignored: string -> bool): Files {
    map k | k in files && !ignored(k) :: files[k]
  }

  /** Which paths stand in which category, as sets. */
  ghost predicate Accounted(
    was: Files, now: Files, ignored: string -> bool,
    missing: set<string>, added: set<string>, changed: set<string>, movedFrom: set<string>, movedTo: set<string>)
  {
    && missing !! movedFrom && missing + movedFrom == OnlyIn(was, now, ignored).Keys
    && added !! movedTo && added + movedTo == OnlyIn(now, was, ignored).Keys
    && changed == set k | k in was && k in now && was[k] != now[k] && !ignored(k)
  }

  lemma {:induction false} Account(was: Files, now: Files, ignored: string -> bool, cr: CompareReport)
    requires IsReport(was, now, ignored, cr)
    ensures Accounted(was, now, ignored, cr.missingFiles.Keys, cr.newFiles.Keys,
                      ChangedPaths(cr.changedFiles), OldPaths(cr.movedFiles), NewPaths(cr.movedFiles))
    ensures |cr.movedFiles| == |OldPaths(cr.movedFiles)| == |NewPaths(cr.movedFiles)|
    ensures |cr.changedFiles| == |ChangedPaths(cr.changedFiles)|
  {
    var missing, added := OnlyIn(was, now, ignored), OnlyIn(now, was, ignored);
    PathCategories(missing, added, cr);
    ChangesListed(was, now, ignored, cr.changedFiles);
  }

  /** The missing and new paths of a report together with the paths of its moves. */
  lemma {:induction false} PathCategories(missing: Files, added: Files, cr: CompareReport)
    requires AreMoves(missing, added, cr.movedFiles)
    requires cr.missingFiles == missing - Matched(missing, added) && cr.newFiles == added - Matched(added, missing)
    ensures cr.missingFiles.Keys !! OldPaths(cr.movedFiles) && cr.newFiles.Keys !! NewPaths(cr.movedFiles)
    ensures cr.missingFiles.Keys + OldPaths(cr.movedFiles) == missing.Keys
    ensures cr.newFiles.Keys + NewPaths(cr.movedFiles) == added.Keys
    ensures |cr.movedFiles| == |OldPaths(cr.movedFiles)| == |NewPaths(cr.movedFiles)|
  {
    MovePaths(missing, added, cr.movedFiles);
    MovesListed(missing, added, cr.movedFiles);
    Without(missing, Matched(missing, added));
    Without(added, Matched(added, missing));
  }

  lemma {:induction false} Without(files: Files, gone: set<string>)
    requires gone <= files.Keys
    ensures (files - gone).Keys !! gone && (files - gone).Keys + gone == files.Keys
  {}

  /** The changes of a report. */
  lemma {:induction false} ChangesListed(was: Files, now: Files, ignored: string -> bool, changes: seq<Change>)
    requires multiset(changes) == multiset(Changes(was, now, ignored))
    ensures ChangedPaths(changes) == set k | k in was && k in now && was[k] != now[k] && !ignored(k)
    ensures forall c: Change :: c in changes <==> c in Changes(was, now, ignored)
    ensures |changes| == |ChangedPaths(changes)|
  {
    var all := Changes(was, now, ignored);
    assert forall c: Change :: c in changes <==> c in multiset(changes);
    forall k | k in was && k in now && was[k] != now[k] && !ignored(k) ensures k in ChangedPaths(changes) {
      assert Change(k, was[k], now[k]) in all;
    }
    assert |changes| == |multiset(changes)| == |all|;
    ImageSize(all, ChangedPaths(changes), (c: Change) => c.path);
  }

  lemma {:induction false} MovesListed(missing: Files, added: Files, moves: seq<Move>)
    requires AreMoves(missing, added, moves)
    ensures |moves| == |OldPaths(moves)| == |NewPaths(moves)|
  {
    OldPathSeqElements(moves);
    NewPathSeqElements(moves);
    var olds, news := OldPathSeq(moves), NewPathSeq(moves);
    forall i, j | 0 <= i < j < |moves| ensures olds[i] != olds[j] && news[i] != news[j] {
      LessIrreflexive(moves[i].oldPath);
      assert moves[i] in moves && moves[j] in moves;
      PairedOnce(missing, added, moves[i].oldPath, moves[i].newPath, moves[j].oldPath, moves[j].newPath);
    }
    DistinctElements(olds);
    DistinctElements(news);
  }

  ghost function NewPathSeq(moves: seq<Move>): seq<string> {
    seq(|moves|, i requires 0 <= i < |moves| => moves[i].newPath)
  }

  lemma {:induction false} NewPathSeqElements(moves: seq<Move>)
    ensures Elements(NewPathSeq(moves)) == NewPaths(moves)
  {
    forall m: Move | m in moves ensures m.newPath in NewPathSeq(moves) {
      var i :| 0 <= i < |moves| && moves[i] == m;
      assert NewPathSeq(moves)[i] == m.newPath;
    }
  }

  /** Every hash reported for a path of the new scan is its hash there. */
  lemma {:induction false} ReportedHashes(was: Files, now: Files, ignored: string -> bool, cr: CompareReport)
    requires IsReport(was, now, ignored, cr)
    ensures forall c: Change :: c in cr.changedFiles ==> c.path in now && c.newHash == now[c.path]
    ensures forall m: Move :: m in cr.movedFiles ==> m.newPath in now && m.hash == now[m.newPath]
    ensures forall k :: k in cr.newFiles ==> k in now && cr.newFiles[k] == now[k]
  {
    ChangesListed(was, now, ignored, cr.changedFiles);
    forall m: Move | m in cr.movedFiles ensures m.newPath in now && m.hash == now[m.newPath] {
      MovesOneToOne(was, now, ignored, cr, m, m);
    }
  }

  /** The patch path by path: what was rewritten, landed or added has its new content. */
  lemma {:induction false} PatchAt(was: Files, now: Files, cr: CompareReport)
    requires forall c: Change :: c in cr.changedFiles ==> c.path in now && c.newHash == now[c.path]
    requires forall m: Move :: m in cr.movedFiles ==> m.newPath in now && m.hash == now[m.newPath]
    requires forall k :: k in cr.newFiles ==> k in now && cr.newFiles[k] == now[k]
    ensures var arrived := ChangedPaths(cr.changedFiles) + NewPaths(cr.movedFiles) + cr.newFiles.Keys;
      && Patch(was, cr).Keys == (was.Keys - (cr.missingFiles.Keys + OldPaths(cr.movedFiles))) + arrived
      && forall k :: k in Patch(was, cr) ==>
           if k in arrived then k in now && Patch(was, cr)[k] == now[k] else k in was && Patch(was, cr)[k] == was[k]
  {
    var kept := was - cr.missingFiles.Keys - OldPaths(cr.movedFiles);
    RewriteAt(kept, cr.changedFiles, now);
    LandAt(Rewrite(kept, cr.changedFiles), cr.movedFiles, now);
  }

  /** The report is a correct patch: applied to the old scan it gives the new one, ignored paths left alone. */
  lemma {:induction false} PatchCorrect(was: Files, now: Files, ignored: string -> bool, cr: CompareReport)
    requires IsReport(was, now, ignored, cr)
    ensures Patch(was, cr) == Visible(now, ignored) + Visible(was, p => !ignored(p))
  {
    Account(was, now, ignored, cr);
    ReportedHashes(was, now, ignored, cr);
    PatchAt(was, now, cr);
    PatchSum(was, now, ignored, cr.missingFiles.Keys, cr.newFiles.Keys,
             ChangedPaths(cr.changedFiles), OldPaths(cr.movedFiles), NewPaths(cr.movedFiles), Patch(was, cr));
  }

  lemma {:induction false} PatchSum(
    was: Files, now: Files, ignored: string -> bool,
    missing: set<string>, added: set<string>, changed: set<string>, movedFrom: set<string>, movedTo: set<string>,
    patched: Files)
    requires Accounted(was, now, ignored, missing, added, changed, movedFrom, movedTo)
    requires patched.Keys == (was.Keys - (missing + movedFrom)) + (changed + movedTo + added)
    requires forall k :: k in patched ==>
      if k in changed + movedTo + added then k in now && patched[k] == now[k] else k in was && patched[k] == was[k]
    ensures patched == Visible(now, ignored) + Visible(was, p => !ignored(p))
  {
    var come := OnlyIn(now, was, ignored).Keys;
    assert changed + movedTo + added == changed + come;
    var want := Visible(now, ignored) + Visible(was, p => !ignored(p));
    forall k ensures k in patched <==> k in want {}
    forall k | k in patched ensures patched[k] == want[k] {}
  }

  ghost predicate Differs(was: Files, now: Files, k: string) {
    (k in was) != (k in now) || (k in was && k in now && was[k] != now[k])
  }

  /** A path that differs and is not ignored stands in exactly one category; no other path in any. */
  lemma {:induction false} OneCategory(was: Files, now: Files, ignored: string -> bool, cr: CompareReport, k: string)
    requires IsReport(was, now, ignored, cr)
    ensures One(k in cr.newFiles) + One(k in cr.missingFiles) + One(k in ChangedPaths(cr.changedFiles))
          + One(k in OldPaths(cr.movedFiles)) + One(k in NewPaths(cr.movedFiles))
         == One(Differs(was, now, k) && !ignored(k))
  {
    Account(was, now, ignored, cr);
    OneOfSets(was, now, ignored, cr.missingFiles.Keys, cr.newFiles.Keys,
              ChangedPaths(cr.changedFiles), OldPaths(cr.movedFiles), NewPaths(cr.movedFiles), k);
  }

  lemma {:induction false} OneOfSets(
    was: Files, now: Files, ignored: string -> bool,
    missing: set<string>, added: set<string>, changed: set<string>, movedFrom: set<string>, movedTo: set<string>,
    k: string)
    requires Accounted(was, now, ignored, missing, added, changed, movedFrom, movedTo)
    ensures One(k in added) + One(k in missing) + One(k in changed) + One(k in movedFrom) + One(k in movedTo)
         == One(Differs(was, now, k) && !ignored(k))
  {
    assert k in missing + movedFrom <==> k in OnlyIn(was, now, ignored);
    assert k in added + movedTo <==> k in OnlyIn(now, was, ignored);
  }

  ghost function Unchanged(was: Files, now: Files, ignored: string -> bool): set<string> {
    set k | k in was && k in now && was[k] == now[k] && !ignored(k)
  }

  /** Every file of either scan is accounted for. */
  lemma {:induction false} CountEquations(was: Files, now: Files, ignored: string -> bool, cr: CompareReport)
    requires IsReport(was, now, ignored, cr)
    ensures var same := |Unchanged(was, now, ignored)| + |cr.changedFiles| + |cr.movedFiles|;
      |Visible(was, ignored)| == same + |cr.missingFiles| && |Visible(now, ignored)| == same + |cr.newFiles|
  {
    Account(was, now, ignored, cr);
    CountSets(was, now, ignored, cr.missingFiles.Keys, cr.newFiles.Keys,
              ChangedPaths(cr.changedFiles), OldPaths(cr.movedFiles), NewPaths(cr.movedFiles));
  }

  lemma {:induction false} CountSets(
    was: Files, now: Files, ignored: string -> bool,
    missing: set<string>, added: set<string>, changed: set<string>, movedFrom: set<string>, movedTo: set<string>)
    requires Accounted(was, now, ignored, missing, added, changed, movedFrom, movedTo)
    ensures |Visible(was, ignored)| == |Unchanged(was, now, ignored)| + |changed| + |missing| + |movedFrom|
    ensures |Visible(now, ignored)| == |Unchanged(was, now, ignored)| + |changed| + |added| + |movedTo|
  {
    var same := Unchanged(was, now, ignored);
    VisibleSplits(was, now, ignored);
    assert |Visible(was, ignored)| == |Visible(was, ignored).Keys|;
    assert |Visible(now, ignored)| == |Visible(now, ignored).Keys|;
  }

  lemma {:induction false} VisibleSplits(was: Files, now: Files, ignored: string -> bool)
    ensures
      var same := Unchanged(was, now, ignored);
      var changed := set k | k in was && k in now && was[k] != now[k] && !ignored(k);
      && same !! changed
      && (same + changed) !! OnlyIn(was, now, ignored).Keys
      && (same + changed) !! OnlyIn(now, was, ignored).Keys
      && Visible(was, ignored).Keys == (same + changed) + OnlyIn(was, now, ignored).Keys
      && Visible(now, ignored).Keys == (same + changed) + OnlyIn(now, was, ignored).Keys
  {}

  /** Nothing to report exactly when the scans agree on every path that is not ignored. */
  lemma {:induction false} EmptyReport(was: Files, now: Files, ignored: string -> bool, cr: CompareReport)
    requires IsReport(was, now, ignored, cr)
    ensures cr == CompareReport(map[], map[], [], []) <==> Visible(was, ignored) == Visible(now, ignored)
  {
    Account(was, now, ignored, cr);
    EmptyFields(cr);
    EmptySets(was, now, ignored, cr.missingFiles.Keys, cr.newFiles.Keys,
              ChangedPaths(cr.changedFiles), OldPaths(cr.movedFiles), NewPaths(cr.movedFiles));
  }

  ghost predicate AllEmpty(a: set<string>, b: set<string>, c: set<string>, d: set<string>, e: set<string>) {
    forall k :: !(k in a || k in b || k in c || k in d || k in e)
  }

  lemma {:induction false} EmptyFields(cr: CompareReport)
    ensures cr == CompareReport(map[], map[], [], []) <==>
      AllEmpty(cr.missingFiles.Keys, cr.newFiles.Keys, ChangedPaths(cr.changedFiles), OldPaths(cr.movedFiles),
               NewPaths(cr.movedFiles))
  {
    assert cr.missingFiles.Keys == {} <==> cr.missingFiles == map[];
    assert cr.newFiles.Keys == {} <==> cr.newFiles == map[];
    assert cr.changedFiles != [] ==> cr.changedFiles[0].path in ChangedPaths(cr.changedFiles);
    assert cr.movedFiles != [] ==> cr.movedFiles[0].oldPath in OldPaths(cr.movedFiles);
  }

  lemma {:induction false} EmptySets(
    was: Files, now: Files, ignored: string -> bool,
    missing: set<string>, added: set<string>, changed: set<string>, movedFrom: set<string>, movedTo: set<string>)
    requires Accounted(was, now, ignored, missing, added, changed, movedFrom, movedTo)
    ensures AllEmpty(missing, added, changed, movedFrom, movedTo) <==> Visible(was, ignored) == Visible(now, ignored)
  {
    forall k ensures Differs(was, now, k) && !ignored(k)
                <==> k in missing || k in added || k in changed || k in movedFrom || k in movedTo {
      OneOfSets(was, now, ignored, missing, added, changed, movedFrom, movedTo, k);
    }
    SameVisible(was, now, ignored);
  }

  lemma {:induction false} SameVisible(was: Files, now: Files, ignored: string -> bool)
    ensures Visible(was, ignored) == Visible(now, ignored) <==> forall k :: !(Differs(was, now, k) && !ignored(k))
  {
    if Visible(was, ignored) == Visible(now, ignored) {
      forall k ensures !(Differs(was, now, k) && !ignored(k)) {
        assert k in Visible(was, ignored) <==> k in Visible(now, ignored);
        assert k in Visible(was, ignored) ==> Visible(was, ignored)[k] == Visible(now, ignored)[k];
      }
    }
  }
}
