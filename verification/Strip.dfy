/** Removing the base path of a scan from every path of its report, in place. */
module Strip {
  import opened Order
  import opened Compare
  import opened Reports

  /** strings.ReplaceAll(s, base, ""). */
  function RemoveAll(s: string, base: string): string
    decreases |s|
  {
    if base == "" || |s| < |base| then s
    else if base <= s then RemoveAll(s[|base|..], base)
    else [s[0]] + RemoveAll(s[1..], base)
  }

  predicate Occurs(base: string, s: string) {
    base <= s || (s != "" && Occurs(base, s[1..]))
  }

  lemma {:induction false} RemoveAbsent(s: string, base: string)
    requires base != "" && !Occurs(base, s)
    ensures RemoveAll(s, base) == s
  {
    if |s| >= |base| {
      RemoveAbsent(s[1..], base);
      assert s == [s[0]] + s[1..];
    }
  }

  lemma {:induction false} RemoveShortens(s: string, base: string)
    ensures |RemoveAll(s, base)| <= |s|
    ensures base != "" && Occurs(base, s) ==> |RemoveAll(s, base)| < |s|
    decreases |s|
  {
    if base != "" && |s| >= |base| {
      if base <= s {
        RemoveShortens(s[|base|..], base);
      } else {
        RemoveShortens(s[1..], base);
      }
    } else if Occurs(base, s) {
      OccursLength(base, s);
    }
  }

  lemma {:induction false} OccursLength(base: string, s: string)
    requires Occurs(base, s)
    ensures |base| <= |s|
  {
    if !(base <= s) {
      OccursLength(base, s[1..]);
    }
  }

  /** Below its base, a path is left exactly when the base does not occur in it again. */
  lemma {:induction false} StripsToRest(base: string, rest: string)
    requires base != ""
    ensures RemoveAll(base + rest, base) == rest <==> !Occurs(base, rest)
  {
    assert (base + rest)[|base|..] == rest;
    if Occurs(base, rest) {
      RemoveShortens(rest, base);
    } else {
      RemoveAbsent(rest, base);
    }
  }

  /** Reading a missing key of a Go map of strings gives the empty string. */
  function Get(m: Files, k: string): string {
    if k in m then m[k] else ""
  }

  function StripOne(m: Files, k: string, base: string): Files {
    (m - {k})[RemoveAll(k, base) := Get(m, k)]
  }

  /** The effect of the loop for one order of the keys. */
  function StripAll(m: Files, order: seq<string>, base: string): Files {
    if order == [] then m
    else StripOne(StripAll(m, order[..|order| - 1], base), order[|order| - 1], base)
  }

  method StripBasePath(m: FileTable, base: string)
    modifies m
    ensures exists order :: OrderOf(order, old(m.v.Keys)) && m.v == StripAll(old(m.v), order, base)
  {
    var keys := KeysOf(m.v);
    for i := 0 to |keys|
      invariant m.v == StripAll(old(m.v), keys[..i], base)
    {
      var k := keys[i];
      assert keys[..i + 1][..i] == keys[..i];
      var v := Get(m.v, k);
      var k2 := RemoveAll(k, base);
      m.v := m.v - {k};
      m.v := m.v[k2 := v];
    }
    assert keys[..|keys|] == keys;
  }

  // ---------------------------------------------------------------- order does not matter

  /** Paths below a base that the rest of the path does not contain again. */
  ghost predicate UnderBase(base: string, keys: set<string>) {
    base != "" && forall k :: k in keys ==> base <= k && !Occurs(base, k[|base|..])
  }

  ghost predicate AllBegin(base: string, keys: set<string>) {
    forall k :: k in keys ==> base <= k
  }

  ghost function Rests(base: string, keys: set<string>): set<string>
    requires AllBegin(base, keys)
  {
    set k | k in keys :: k[|base|..]
  }

  /** What a report should become: every path without its base. */
  ghost function Stripped(m: Files, base: string): Files
    requires AllBegin(base, m.Keys)
  {
    map r | r in Rests(base, m.Keys) && base + r in m :: m[base + r]
  }

  lemma {:induction false} RestOf(base: string, keys: set<string>, k: string)
    requires UnderBase(base, keys) && k in keys
    ensures k == base + k[|base|..] && RemoveAll(k, base) == k[|base|..]
    ensures k[|base|..] !in keys && k !in Rests(base, keys)
  {
    StripsToRest(base, k[|base|..]);
    assert k == base + k[|base|..];
    assert Occurs(base, k);
  }

  /** Halfway through: the visited paths have lost their base, the others are untouched. */
  ghost function Part(m: Files, base: string, done: set<string>): Files
    requires UnderBase(base, m.Keys) && done <= m.Keys
  {
    (m - done) + Landed(m, base, done)
  }

  ghost function Landed(m: Files, base: string, done: set<string>): Files
    requires UnderBase(base, m.Keys) && done <= m.Keys
  {
    map r | r in Rests(base, done) && base + r in m :: m[base + r]
  }

  lemma {:induction false} PartNext(m: Files, base: string, done: set<string>, k: string)
    requires UnderBase(base, m.Keys) && done <= m.Keys && k in m && k !in done
    ensures StripOne(Part(m, base, done), k, base) == Part(m, base, done + {k})
  {
    RestOf(base, m.Keys, k);
    var r := k[|base|..];
    assert k !in Landed(m, base, done) by {
      assert Rests(base, done) <= Rests(base, m.Keys);
    }
    assert Rests(base, done + {k}) == Rests(base, done) + {r};
    assert Landed(m, base, done + {k}) == Landed(m, base, done)[r := m[k]];
    assert Get(Part(m, base, done), k) == m[k];
    MoveKey(m - done, Landed(m, base, done), k, r, m[k]);
    assert m - done - {k} == m - (done + {k});
  }

  lemma {:induction false} MoveKey(a: Files, b: Files, k: string, r: string, v: string)
    requires k !in b
    ensures ((a + b) - {k})[r := v] == (a - {k}) + b[r := v]
  {}

  lemma {:induction false} RestsBack(m: Files, base: string, done: set<string>)
    requires UnderBase(base, m.Keys) && done <= m.Keys
    ensures forall r :: r in Rests(base, done) ==> base + r in m
  {
    forall r | r in Rests(base, done) ensures base + r in m {
      var k :| k in done && k[|base|..] == r;
      RestOf(base, m.Keys, k);
    }
  }

  lemma {:induction false} StripPart(m: Files, base: string, order: seq<string>)
    requires UnderBase(base, m.Keys) && Distinct(order) && Elements(order) <= m.Keys
    ensures StripAll(m, order, base) == Part(m, base, Elements(order))
  {
    if order == [] {
      assert Part(m, base, {}) == m;
    } else {
      var init, k := order[..|order| - 1], order[|order| - 1];
      assert order == init + [k] && k !in init;
      assert Elements(order) == Elements(init) + {k};
      StripPart(m, base, init);
      PartNext(m, base, Elements(init), k);
    }
  }

  /** In-place stripping gives every path without its base, in whatever order the keys are visited. */
  lemma {:induction false} StripAnyOrder(m: Files, base: string, order: seq<string>)
    requires UnderBase(base, m.Keys) && OrderOf(order, m.Keys)
    ensures StripAll(m, order, base) == Stripped(m, base)
  {
    StripPart(m, base, order);
    assert m - m.Keys == map[];
  }

  /** No two paths are confused, and every hash is kept. */
  lemma {:induction false} StripInjective(m: Files, base: string, k: string, k': string)
    requires UnderBase(base, m.Keys) && k in m && k' in m
    ensures RemoveAll(k, base) in Stripped(m, base) && Stripped(m, base)[RemoveAll(k, base)] == m[k]
    ensures RemoveAll(k, base) == RemoveAll(k', base) <==> k == k'
  {
    RestOf(base, m.Keys, k);
    RestOf(base, m.Keys, k');
    RestsBack(m, base, m.Keys);
  }

  /** No path is lost. */
  lemma {:induction false} StripKeepsCount(m: Files, base: string)
    requires UnderBase(base, m.Keys)
    ensures |Stripped(m, base)| == |m|
  {
    forall k | k in m ensures RemoveAll(k, base) == k[|base|..] && k == base + RemoveAll(k, base) {
      RestOf(base, m.Keys, k);
    }
    RestsBack(m, base, m.Keys);
    var stripped := Stripped(m, base);
    assert stripped.Keys == Rests(base, m.Keys);
    forall r | r in Rests(base, m.Keys) ensures exists k :: k in m.Keys && RemoveAll(k, base) == r {
      var k :| k in m.Keys && k[|base|..] == r;
    }
    hide RemoveAll, Stripped, Rests;
    ImageSize(m.Keys, stripped.Keys, k => RemoveAll(k, base));
  }

  /** Without a base path nothing changes. */
  lemma {:induction false} StripNothing(m: Files, order: seq<string>)
    requires Elements(order) <= m.Keys
    ensures StripAll(m, order, "") == m
  {
    if order != [] {
      var init, k := order[..|order| - 1], order[|order| - 1];
      assert order == init + [k] && k in Elements(order);
      assert Elements(init) <= Elements(order);
      StripNothing(m, init);
    }
  }

  // ---------------------------------------------------------------- exactly when paths lose just their base

  ghost function Images(keys: set<string>, base: string): set<string> {
    set k | k in keys :: RemoveAll(k, base)
  }

  /** Whatever the order, a path of the result is an untouched key or the image of a visited one. */
  lemma {:induction false} StripLands(m: Files, base: string, order: seq<string>)
    requires Elements(order) <= m.Keys
    ensures StripAll(m, order, base).Keys <= (m.Keys - Elements(order)) + Images(Elements(order), base)
  {
    hide RemoveAll;
    if order != [] {
      var init, k := order[..|order| - 1], order[|order| - 1];
      assert order == init + [k] && k in Elements(order);
      assert Elements(order) == Elements(init) + {k};
      StripLands(m, base, init);
    }
  }

  /**
   * Remainders cannot all be images of remainders if the base occurs in one of them: their lengths would grow
   * without end.
   */
  lemma {:induction false} NoEndlessGrowth(rests: set<string>, base: string, r: string)
    requires base != "" && rests <= Images(rests, base)
    requires r in rests && Occurs(base, r)
    ensures false
    decreases |Longer(rests, r)|
  {
    assert r in Images(rests, base);
    var r' :| r' in rests && RemoveAll(r', base) == r;
    RemoveShortens(r, base);
    RemoveShortens(r', base);
    assert Occurs(base, r') by {
      if !Occurs(base, r') {
        RemoveAbsent(r', base);
      }
    }
    assert |r'| > |r|;
    assert r' in Longer(rests, r) && r' !in Longer(rests, r');
    SmallerSubset(Longer(rests, r'), Longer(rests, r), r');
    NoEndlessGrowth(rests, base, r');
  }

  ghost function Longer(rests: set<string>, r: string): set<string> {
    set x | x in rests && |x| > |r|
  }

  lemma {:induction false} SmallerSubset(a: set<string>, b: set<string>, x: string)
    requires a <= b && x in b && x !in a
    ensures |a| < |b|
  {
    SubsetSize(a, b - {x});
  }

  /**
   * Stripping a base that starts every path, in any order of the keys, leaves each path its remainder and its
   * hash exactly when the base occurs in no remainder.
   */
  lemma {:induction false} StripExactly(m: Files, base: string, order: seq<string>)
    requires base != "" && AllBegin(base, m.Keys) && OrderOf(order, m.Keys)
    ensures StripAll(m, order, base) == Stripped(m, base) <==> UnderBase(base, m.Keys)
  {
    if UnderBase(base, m.Keys) {
      StripAnyOrder(m, base, order);
    } else if StripAll(m, order, base) == Stripped(m, base) {
      StripLands(m, base, order);
      RestsAreImages(m, base);
      var k :| k in m.Keys && Occurs(base, k[|base|..]);
      NoEndlessGrowth(Rests(base, m.Keys), base, k[|base|..]);
    }
  }

  lemma {:induction false} RestsAreImages(m: Files, base: string)
    requires base != "" && AllBegin(base, m.Keys)
    ensures Stripped(m, base).Keys == Rests(base, m.Keys)
    ensures Images(m.Keys, base) == Images(Rests(base, m.Keys), base)
  {
    forall k | k in m ensures RemoveAll(k, base) == RemoveAll(k[|base|..], base) && k == base + k[|base|..] {
      assert k == base + k[|base|..];
    }
    hide RemoveAll;
    var rests := Rests(base, m.Keys);
    forall k | k in m ensures RemoveAll(k, base) in Images(rests, base) {
      assert k[|base|..] in rests;
    }
    forall r | r in rests ensures base + r in m && RemoveAll(r, base) in Images(m.Keys, base) {
      var k :| k in m.Keys && k[|base|..] == r;
    }
  }

  // ---------------------------------------------------------------- exactly when the order does not matter

  predicate Moves(k: string, base: string) {
    RemoveAll(k, base) != k
  }

  /** No path moves to the place of another that moves, and paths that move to one place carry one hash. */
  ghost predicate OrderFree(m: Files, base: string) {
    && (forall k :: k in m && Moves(k, base) && RemoveAll(k, base) in m ==> !Moves(RemoveAll(k, base), base))
    && (forall k, k' ::
          k in m && k' in m && Moves(k, base) && Moves(k', base) && RemoveAll(k, base) == RemoveAll(k', base)
          ==> m[k] == m[k'])
  }

  ghost function Movers(m: Files, base: string, done: set<string>): set<string> {
    set k | k in m && k in done && Moves(k, base)
  }

  /** The map once some keys have moved, if the order does not matter. */
  ghost predicate SettledBy(m: Files, base: string, movers: set<string>, now: Files) {
    && now.Keys == (m.Keys - movers) + Images(movers, base)
    && (forall k :: k in movers ==> k in m && RemoveAll(k, base) in now && now[RemoveAll(k, base)] == m[k])
    && (forall r :: r in m && r !in movers && r !in Images(movers, base) ==> now[r] == m[r])
  }

  /** The map once some keys have been visited. */
  ghost predicate Settled(m: Files, base: string, done: set<string>, now: Files) {
    SettledBy(m, base, Movers(m, base, done), now)
  }

  lemma {:induction false} OneMoves(m: Files, base: string, movers: set<string>, now: Files, k: string)
    requires SettledBy(m, base, movers, now) && k in m && Moves(k, base) && k !in movers && k !in Images(movers, base)
    requires RemoveAll(k, base) !in movers
    requires forall other :: other in movers && RemoveAll(other, base) == RemoveAll(k, base) ==> m[other] == m[k]
    ensures SettledBy(m, base, movers + {k}, StripOne(now, k, base))
  {
    hide RemoveAll;
    var to := RemoveAll(k, base);
    assert Images(movers + {k}, base) == Images(movers, base) + {to};
    assert k in now && now[k] == m[k];
    assert to != k;
    assert StripOne(now, k, base) == (now - {k})[to := m[k]];
  }

  lemma {:induction false} OneStays(m: Files, base: string, movers: set<string>, now: Files, k: string)
    requires SettledBy(m, base, movers, now) && k in m && !Moves(k, base) && k !in movers
    ensures StripOne(now, k, base) == now
  {
    assert k in now;
  }

  lemma {:induction false} SettledNext(m: Files, base: string, done: set<string>, now: Files, k: string)
    requires OrderFree(m, base) && Settled(m, base, done, now) && k in m && k !in done
    ensures Settled(m, base, done + {k}, StripOne(now, k, base))
  {
    hide RemoveAll, SettledBy;
    var movers, after := Movers(m, base, done), Movers(m, base, done + {k});
    if Moves(k, base) {
      assert after == movers + {k};
      OneMoves(m, base, movers, now, k);
    } else {
      assert after == movers;
      OneStays(m, base, movers, now, k);
    }
  }

  lemma {:induction false} StripSettles(m: Files, base: string, order: seq<string>)
    requires OrderFree(m, base) && Distinct(order) && Elements(order) <= m.Keys
    ensures Settled(m, base, Elements(order), StripAll(m, order, base))
  {
    hide RemoveAll, OrderFree;
    if order == [] {
      assert Movers(m, base, {}) == {} && Images({}, base) == {};
    } else {
      var init, k := order[..|order| - 1], order[|order| - 1];
      assert order == init + [k] && k in Elements(order);
      assert k !in Elements(init);
      assert Elements(order) == Elements(init) + {k};
      StripSettles(m, base, init);
      SettledNext(m, base, Elements(init), StripAll(m, init, base), k);
    }
  }

  lemma {:induction false} SettledUnique(m: Files, base: string, done: set<string>, a: Files, b: Files)
    requires Settled(m, base, done, a) && Settled(m, base, done, b)
    ensures a == b
  {
    hide RemoveAll;
    forall r | r in a.Keys ensures a[r] == b[r] {
      if r in Images(Movers(m, base, done), base) {
        var k :| k in Movers(m, base, done) && RemoveAll(k, base) == r;
      }
    }
  }

  /** All keys in some order, a given one last. */
  ghost function LastOf(keys: set<string>, k: string): (order: seq<string>)
    requires k in keys
    ensures OrderOf(order, keys) && order != [] && order[|order| - 1] == k
    ensures OrderOf(order[..|order| - 1], keys - {k})
  {
    var init := Listing(keys - {k});
    AscendingDistinct(init);
    assert (init + [k])[..|init|] == init;
    assert Distinct(init + [k]) by {
      assert k !in Elements(init);
    }
    assert Elements(init + [k]) == Elements(init) + {k};
    init + [k]
  }

  lemma {:induction false} AscendingDistinct(s: seq<string>)
    requires Ascending(s)
    ensures Distinct(s)
  {
    forall i, j | 0 <= i < j < |s| ensures s[i] != s[j] {
      LessIrreflexive(s[i]);
    }
  }

  /** A key no visited key moves to still has its hash. */
  lemma {:induction false} StillThere(m: Files, base: string, order: seq<string>, k: string)
    requires k in m && k !in order
    requires forall x :: x in order ==> RemoveAll(x, base) != k
    ensures k in StripAll(m, order, base) && StripAll(m, order, base)[k] == m[k]
  {
    hide RemoveAll;
    if order != [] {
      var init, last := order[..|order| - 1], order[|order| - 1];
      assert last in order;
      StillThere(m, base, init, k);
    }
  }

  /**
   * Every order of the keys gives the same map exactly when no path moves to the place of another that moves,
   * and paths that move to one place carry one hash.
   */
  lemma {:induction false} OrderMatters(m: Files, base: string)
    ensures (forall a, b :: OrderOf(a, m.Keys) && OrderOf(b, m.Keys) ==> StripAll(m, a, base) == StripAll(m, b, base))
       <==> OrderFree(m, base)
  {
    hide RemoveAll, StripAll;
    if OrderFree(m, base) {
      forall a, b | OrderOf(a, m.Keys) && OrderOf(b, m.Keys) ensures StripAll(m, a, base) == StripAll(m, b, base) {
        StripSettles(m, base, a);
        StripSettles(m, base, b);
        SettledUnique(m, base, m.Keys, StripAll(m, a, base), StripAll(m, b, base));
      }
    } else {
      var a, b := OrdersDiffer(m, base);
    }
  }

  lemma {:induction false} OrdersDiffer(m: Files, base: string) returns (a: seq<string>, b: seq<string>)
    requires !OrderFree(m, base)
    ensures OrderOf(a, m.Keys) && OrderOf(b, m.Keys) && StripAll(m, a, base) != StripAll(m, b, base)
  {
    hide RemoveAll;
    if k :| k in m && Moves(k, base) && RemoveAll(k, base) in m && Moves(RemoveAll(k, base), base) {
      var k' := RemoveAll(k, base);
      a, b := LastOf(m.Keys, k), LastOf(m.Keys, k');
      assert k' in StripAll(m, a, base) && k' !in StripAll(m, b, base);
    } else {
      var k, k' :| k in m && k' in m && Moves(k, base) && Moves(k', base)
                   && RemoveAll(k, base) == RemoveAll(k', base) && m[k] != m[k'];
      a, b := LastOf(m.Keys, k), LastOf(m.Keys, k');
      LastWins(m, base, k);
      LastWins(m, base, k');
      assert StripAll(m, a, base)[RemoveAll(k, base)] == m[k];
    }
  }

  lemma {:induction false} LastWins(m: Files, base: string, k: string)
    requires k in m && Moves(k, base)
    requires forall x :: x in m && Moves(x, base) && RemoveAll(x, base) in m ==> !Moves(RemoveAll(x, base), base)
    ensures var r := RemoveAll(k, base);
      var now := StripAll(m, LastOf(m.Keys, k), base);
      r in now && now[r] == m[k]
  {
    hide RemoveAll;
    var order := LastOf(m.Keys, k);
    var init := order[..|order| - 1];
    forall x | x in init ensures RemoveAll(x, base) != k {
      assert x in Elements(init);
    }
    assert k !in init by {
      assert k !in Elements(init);
    }
    StillThere(m, base, init, k);
  }

  /** Two rewritings of keys that the base does not separate: the order decides which hash stays. */
  lemma {:induction false} StripCollision(h: string, h': string)
    requires h != h'
    ensures var m := map["/a/b/a/c" := h, "/a/b/c" := h'];
      StripAll(m, ["/a/b/a/c", "/a/b/c"], "/a") == map["/b/c" := h']
      && StripAll(m, ["/a/b/c", "/a/b/a/c"], "/a") == map["/b/c" := h]
  {
    var base, deep, flat := "/a", "/a/b/a/c", "/a/b/c";
    StripsBoth();
    var m := map[deep := h, flat := h'];
    StripTwo(m, deep, flat, base);
    StripTwo(m, flat, deep, base);
    assert StripOne(m, deep, base) == map[flat := h', "/b/c" := h];
    assert StripOne(m, flat, base) == map[deep := h, "/b/c" := h'];
    assert StripOne(map[flat := h', "/b/c" := h], flat, base) == map["/b/c" := h'];
    assert StripOne(map[deep := h, "/b/c" := h'], deep, base) == map["/b/c" := h];
  }

  lemma {:induction false} StripTwo(m: Files, a: string, b: string, base: string)
    ensures StripAll(m, [a, b], base) == StripOne(StripOne(m, a, base), b, base)
  {
    assert [a, b][..1] == [a] && [a][..0] == [];
    assert StripAll(m, [a], base) == StripOne(StripAll(m, [], base), a, base);
  }

  lemma {:induction false} NoBaseThere()
    ensures forall i :: 0 <= i < 2 ==> !("/a" <= ("/b" + "/a" + "/c")[i..])
    ensures !Occurs("/a", "/c") && !Occurs("/a", "/b/c")
  {
    assert ("/b" + "/a" + "/c")[1..][0] == 'b' && ("/b" + "/a" + "/c")[0..][1] == 'b';
  }

  lemma {:induction false} StripsBoth()
    ensures RemoveAll("/a/b/a/c", "/a") == "/b/c" == RemoveAll("/a/b/c", "/a")
  {
    hide RemoveAll, Occurs;
    NoBaseThere();
    RemoveFirst("", "/a", "/b/a/c");
    RemoveFirst("/b", "/a", "/c");
    RemoveFirst("", "/a", "/b/c");
    RemoveAbsent("/c", "/a");
    RemoveAbsent("/b/c", "/a");
    assert "/a/b/a/c" == "" + "/a" + "/b/a/c" && "/b/a/c" == "/b" + "/a" + "/c" && "/a/b/c" == "" + "/a" + "/b/c";
  }

  lemma {:induction false} RemoveFirst(front: string, base: string, rest: string)
    requires base != "" && forall i :: 0 <= i < |front| ==> !(base <= (front + base + rest)[i..])
    ensures RemoveAll(front + base + rest, base) == front + RemoveAll(rest, base)
  {
    var s := front + base + rest;
    if front == "" {
      assert s == base + rest && s[|base|..] == rest;
    } else {
      assert s[1..] == front[1..] + base + rest;
      forall i | 0 <= i < |front[1..]| ensures !(base <= (front[1..] + base + rest)[i..]) {
        assert s[1..][i..] == s[i + 1..];
      }
      assert s[0..] == s;
      RemoveFirst(front[1..], base, rest);
    }
  }

  // ---------------------------------------------------------------- one tree, two places

  /** A tree scanned below a base path. */
  ghost function Relocate(tree: Files, base: string): Files {
    map k | k in (set r | r in tree :: base + r) && k[|base|..] in tree :: tree[k[|base|..]]
  }

  ghost predicate Avoids(base: string, tree: Files) {
    base != "" && forall r :: r in tree ==> !Occurs(base, r)
  }

  lemma {:induction false} RelocateStripped(tree: Files, base: string)
    requires Avoids(base, tree)
    ensures UnderBase(base, Relocate(tree, base).Keys) && Stripped(Relocate(tree, base), base) == tree
  {
    var m := Relocate(tree, base);
    forall r | r in tree ensures base + r in m && (base + r)[|base|..] == r && m[base + r] == tree[r] {
      assert (base + r)[|base|..] == r;
    }
    assert UnderBase(base, m.Keys);
    forall r | r in tree ensures r in Rests(base, m.Keys) {
      assert base + r in m;
    }
    forall r | r in Rests(base, m.Keys) ensures r in tree {
      var k :| k in m.Keys && k[|base|..] == r;
    }
  }
}
