/** The order of Go strings, sorted listings of string sets, and ranks within them. */
module Order {

  /** `a < b` on strings: lexicographic. */
  predicate Less(a: string, b: string) {
    if b == "" then false
    else if a == "" then true
    else if a[0] != b[0] then a[0] < b[0]
    else Less(a[1..], b[1..])
  }

  lemma {:induction false} LessTransitive(a: string, b: string, c: string)
    requires Less(a, b) && Less(b, c)
    ensures Less(a, c)
  {
    if a != "" && a[0] == b[0] == c[0] {
      LessTransitive(a[1..], b[1..], c[1..]);
    }
  }

  lemma {:induction false} LessIrreflexive(a: string)
    ensures !Less(a, a)
  {
    if a != "" {
      LessIrreflexive(a[1..]);
    }
  }

  lemma {:induction false} LessConnected(a: string, b: string)
    requires a != b
    ensures Less(a, b) || Less(b, a)
  {
    if a != "" && b != "" && a[0] == b[0] {
      assert a == [a[0]] + a[1..] && b == [b[0]] + b[1..];
      LessConnected(a[1..], b[1..]);
    }
  }

  /** Which of two strings comes first is decided by the characters at their first difference. */
  lemma {:induction false} LessAtDifference(p: string, c: char, x: string, d: char, y: string)
    requires c != d
    ensures Less(p + [c] + x, p + [d] + y) <==> c < d
  {
    var a, b := p + [c] + x, p + [d] + y;
    if p != "" {
      LessAtDifference(p[1..], c, x, d, y);
      assert a[1..] == p[1..] + [c] + x && b[1..] == p[1..] + [d] + y;
    }
  }

  /** A string comes before its continuations. */
  lemma {:induction false} LessPrefix(p: string, c: char, x: string)
    ensures Less(p, p + [c] + x) && !Less(p + [c] + x, p)
  {
    if p != "" {
      LessPrefix(p[1..], c, x);
      assert (p + [c] + x)[1..] == p[1..] + [c] + x;
    }
  }

  /** The order in full: a common beginning, and then the end of the first string or the smaller character. */
  lemma {:induction false} LessExactly(a: string, b: string)
    ensures Less(a, b)
       <==> exists n: nat :: n <= |a| && n < |b| && a[..n] == b[..n] && (n == |a| || a[n] < b[n])
  {
    if Less(a, b) {
      var n := Difference(a, b);
    }
    forall n: nat | n <= |a| && n < |b| && a[..n] == b[..n] && (n == |a| || a[n] < b[n]) ensures Less(a, b) {
      DifferenceDecides(a, b, n);
    }
  }

  lemma {:induction false} DifferenceDecides(a: string, b: string, n: nat)
    requires n <= |a| && n < |b| && a[..n] == b[..n] && (n == |a| || a[n] < b[n])
    ensures Less(a, b)
  {
    if n > 0 {
      assert a[0] == a[..n][0] == b[..n][0] == b[0];
      assert a[1..][..n - 1] == a[..n][1..] && b[1..][..n - 1] == b[..n][1..];
      DifferenceDecides(a[1..], b[1..], n - 1);
    }
  }

  lemma {:induction false} Difference(a: string, b: string) returns (n: nat)
    requires Less(a, b)
    ensures n <= |a| && n < |b| && a[..n] == b[..n] && (n == |a| || a[n] < b[n])
  {
    if a == "" || a[0] != b[0] {
      n := 0;
    } else {
      n := Difference(a[1..], b[1..]);
      n := n + 1;
      assert a[..n] == [a[0]] + a[1..][..n - 1] && b[..n] == [b[0]] + b[1..][..n - 1];
    }
  }

  ghost predicate Ascending(s: seq<string>) {
    forall i, j :: 0 <= i < j < |s| ==> Less(s[i], s[j])
  }

  function Elements<T>(s: seq<T>): set<T> {
    set x | x in s
  }

  function One(b: bool): nat {
    if b then 1 else 0
  }

  ghost predicate Distinct<T>(s: seq<T>) {
    forall i, j :: 0 <= i < j < |s| ==> s[i] != s[j]
  }

  /** A listing of a set in ascending order, as `sort.Strings` over its keys leaves it. */
  ghost predicate Lists(s: seq<string>, keys: set<string>) {
    Ascending(s) && Elements(s) == keys
  }

  /** How many elements of a set come before a string. */
  ghost function Rank(x: string, keys: set<string>): nat {
    |Below(x, keys)|
  }

  ghost function Below(x: string, keys: set<string>): set<string> {
    set y | y in keys && Less(y, x)
  }

  // ---------------------------------------------------------------- counting

  lemma {:induction false} DistinctElements<T>(s: seq<T>)
    requires Distinct(s)
    ensures |Elements(s)| == |s|
  {
    if s != [] {
      var init, last := s[..|s| - 1], s[|s| - 1];
      DistinctElements(init);
      assert Elements(s) == Elements(init) + {last};
      assert last !in init;
    }
  }

  lemma {:induction false} DistinctAppend<T>(a: seq<T>, b: seq<T>)
    requires Distinct(a) && Distinct(b) && forall p :: p in a ==> p !in b
    ensures Distinct(a + b)
  {
    forall i, j | 0 <= i < j < |a + b| ensures (a + b)[i] != (a + b)[j] {
      if i < |a| <= j {
        assert a[i] in a && b[j - |a|] in b;
      }
    }
  }

  lemma {:induction false} DistinctCount<T>(s: seq<T>, p: T)
    requires Distinct(s)
    ensures multiset(s)[p] == if p in s then 1 else 0
  {
    if s != [] {
      var init, last := s[..|s| - 1], s[|s| - 1];
      DistinctCount(init, p);
      assert s == init + [last];
      assert last !in init;
    }
  }

  /** An injective image has as many elements as its source. */
  lemma {:induction false} ImageSize<S, T>(source: set<S>, image: set<T>, f: S --> T)
    requires forall x :: x in source ==> f.requires(x)
    requires forall x, y :: x in source && y in source && f(x) == f(y) ==> x == y
    requires forall x :: x in source ==> f(x) in image
    ensures |source| <= |image|
    ensures (forall y :: y in image ==> exists x :: x in source && f(x) == y) ==> |source| == |image|
    decreases |source|
  {
    var onto := forall y :: y in image ==> exists x :: x in source && f(x) == y;
    if source == {} {
      assert onto ==> image == {};
    } else {
      var x :| x in source;
      var source', image' := source - {x}, image - {f(x)};
      ImageSize(source', image', f);
      if onto {
        forall y | y in image' ensures exists x' :: x' in source' && f(x') == y {
          var x' :| x' in source && f(x') == y;
          assert x' in source';
        }
      }
    }
  }

  lemma {:induction false} SubsetSize<T>(a: set<T>, b: set<T>)
    requires a <= b
    ensures |a| <= |b|
    ensures |a| == |b| ==> a == b
  {
    assert |b| == |a| + |b - a| by {
      assert b == a + (b - a);
    }
    assert |b - a| == 0 ==> b - a == {};
  }

  // ---------------------------------------------------------------- listings

  lemma {:induction false} ListingSize(s: seq<string>, keys: set<string>)
    requires Lists(s, keys)
    ensures |s| == |keys|
  {
    forall i, j | 0 <= i < j < |s| ensures s[i] != s[j] {
      LessIrreflexive(s[i]);
    }
    DistinctElements(s);
  }

  /** In a listing, an element stands at the index that is its rank. */
  lemma {:induction false} RankIsIndex(s: seq<string>, keys: set<string>, i: nat)
    requires Lists(s, keys) && i < |s|
    ensures s[i] in keys && Rank(s[i], keys) == i
  {
    var before := s[..i];
    assert s[i] in Elements(s);
    assert Below(s[i], keys) == Elements(before) by {
      forall y | y in Below(s[i], keys) ensures y in Elements(before) {
        assert y in Elements(s);
        var j :| 0 <= j < |s| && s[j] == y;
        if j >= i {
          if j == i {
            LessIrreflexive(s[i]);
          } else {
            LessTransitive(s[i], s[j], s[i]);
            LessIrreflexive(s[i]);
          }
        }
        assert before[j] == y;
      }
      forall y | y in Elements(before) ensures y in Below(s[i], keys) {
        var j :| 0 <= j < i && before[j] == y;
        assert s[j] in Elements(s);
      }
    }
    forall j, k | 0 <= j < k < i ensures before[j] != before[k] {
      LessIrreflexive(s[j]);
    }
    DistinctElements(before);
  }

  lemma {:induction false} RankBelowSize(x: string, keys: set<string>)
    requires x in keys
    ensures Rank(x, keys) < |keys|
  {
    LessIrreflexive(x);
    assert x !in Below(x, keys);
    SubsetSize(Below(x, keys), keys - {x});
  }

  /** Ranks within a set tell its elements apart. */
  lemma {:induction false} RankInjective(x: string, y: string, keys: set<string>)
    requires x in keys && y in keys && x != y
    ensures Less(x, y) ==> Rank(x, keys) < Rank(y, keys)
    ensures Rank(x, keys) != Rank(y, keys)
  {
    LessConnected(x, y);
    if Less(x, y) {
      RankMonotone(x, y, keys);
    } else {
      RankMonotone(y, x, keys);
    }
  }

  lemma {:induction false} RankMonotone(x: string, y: string, keys: set<string>)
    requires x in keys && Less(x, y)
    ensures Rank(x, keys) < Rank(y, keys)
  {
    forall z | z in Below(x, keys) ensures z in Below(y, keys) {
      LessTransitive(z, x, y);
    }
    LessIrreflexive(x);
    assert x in Below(y, keys) && x !in Below(x, keys);
    SubsetSize(Below(x, keys), Below(y, keys) - {x});
  }

  /** A set has one listing only. */
  lemma {:induction false} ListingUnique(s: seq<string>, t: seq<string>, keys: set<string>)
    requires Lists(s, keys) && Lists(t, keys)
    ensures s == t
  {
    ListingSize(s, keys);
    ListingSize(t, keys);
    forall i | 0 <= i < |s| ensures s[i] == t[i] {
      RankIsIndex(s, keys, i);
      assert s[i] in Elements(t);
      var j :| 0 <= j < |t| && t[j] == s[i];
      RankIsIndex(t, keys, j);
    }
  }

  /** Every rank below the size of a set belongs to one of its elements. */
  lemma {:induction false} RankOnto(keys: set<string>, i: nat) returns (x: string)
    requires i < |keys|
    ensures x in keys && Rank(x, keys) == i
  {
    var s := Listing(keys);
    ListingSize(s, keys);
    RankIsIndex(s, keys, i);
    x := s[i];
  }

  /** The listing of a set. */
  ghost function Listing(keys: set<string>): (s: seq<string>)
    ensures Lists(s, keys)
    decreases |keys|
  {
    if keys == {} then []
    else
      LeastExists(keys);
      var x :| x in keys && Below(x, keys) == {};
      var rest := Listing(keys - {x});
      LeastFirst(x, keys, rest);
      [x] + rest
  }

  lemma {:induction false} LeastFirst(x: string, keys: set<string>, rest: seq<string>)
    requires x in keys && Below(x, keys) == {} && Lists(rest, keys - {x})
    ensures Lists([x] + rest, keys)
  {
    var s := [x] + rest;
    assert Elements(s) == {x} + Elements(rest);
    forall i, j | 0 <= i < j < |s| ensures Less(s[i], s[j]) {
      if i == 0 {
        assert rest[j - 1] in Elements(rest);
        LessConnected(x, rest[j - 1]);
        assert rest[j - 1] !in Below(x, keys);
      }
    }
  }

  lemma {:induction false} LeastExists(keys: set<string>)
    requires keys != {}
    ensures exists x :: x in keys && Below(x, keys) == {}
    decreases |keys|
  {
    var x :| x in keys;
    if Below(x, keys) != {} {
      var lower := Below(x, keys);
      LessIrreflexive(x);
      assert x !in lower;
      SubsetSize(lower, keys - {x});
      LeastExists(lower);
      var y :| y in lower && Below(y, lower) == {};
      forall z | z in keys ensures !Less(z, y) {
        assert z !in Below(y, lower);
        if Less(z, y) {
          LessTransitive(z, y, x);
        }
      }
      assert Below(y, keys) == {};
    }
  }

  /** What comes later has the greater character at the first difference, or goes on where the other ends. */
  lemma {:induction false} ListingByCharacters(s: seq<string>, keys: set<string>, i: nat, j: nat)
    requires Lists(s, keys) && i < j < |s|
    ensures exists n: nat ::
      n <= |s[i]| && n < |s[j]| && s[i][..n] == s[j][..n] && (n == |s[i]| || s[i][n] < s[j][n])
  {
    LessExactly(s[i], s[j]);
  }

  // ---------------------------------------------------------------- sorting

  /** sort.Strings on a sequence without repetitions. */
  method SortStrings(names: seq<string>) returns (sorted: seq<string>)
    requires Distinct(names)
    ensures Lists(sorted, Elements(names))
  {
    sorted := [];
    for i := 0 to |names|
      invariant Lists(sorted, Elements(names[..i]))
    {
      assert Elements(names[..i + 1]) == Elements(names[..i]) + {names[i]};
      sorted := Insert(sorted, names[i], Elements(names[..i]));
    }
    assert names[..|names|] == names;
  }

  method Insert(sorted: seq<string>, x: string, ghost keys: set<string>) returns (r: seq<string>)
    requires Lists(sorted, keys) && x !in keys
    ensures Lists(r, keys + {x})
  {
    var p := 0;
    while p < |sorted| && Less(sorted[p], x)
      invariant 0 <= p <= |sorted|
      invariant forall i :: 0 <= i < p ==> Less(sorted[i], x)
    {
      p := p + 1;
    }
    InsertAt(sorted, x, keys, p);
    r := sorted[..p] + [x] + sorted[p..];
  }

  lemma {:induction false} InsertAt(sorted: seq<string>, x: string, keys: set<string>, p: nat)
    requires Lists(sorted, keys) && x !in keys && p <= |sorted|
    requires forall i :: 0 <= i < p ==> Less(sorted[i], x)
    requires p < |sorted| ==> !Less(sorted[p], x)
    ensures Lists(sorted[..p] + [x] + sorted[p..], keys + {x})
  {
    var r := sorted[..p] + [x] + sorted[p..];
    forall i | p <= i < |sorted| ensures Less(x, sorted[i]) {
      assert sorted[p] in Elements(sorted);
      LessConnected(x, sorted[p]);
      if p < i {
        LessTransitive(x, sorted[p], sorted[i]);
      }
    }
    assert Elements(r) == keys + {x} by {
      assert sorted == sorted[..p] + sorted[p..];
    }
  }
}
