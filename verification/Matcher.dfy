/**
 * A direct matcher for the two table patterns: a sequence of items tried in the order of a
 * backtracking matcher (the leftmost-first rule of Go's regexp package), anchored at both ends.
 */
module Matcher {
  import opened Text

  // ---------------------------------------------------------------- patterns

  datatype Class = Blank | NonBlank | AnyChar

  datatype Item =
    | Run(kind: Class, min: nat, greedy: bool)
    | Stamp          // \d{4}-\d{2}-\d{2} \d{2}:\d{2}:\d{2}
    | StampOrDash

  /** `\s`, which is narrower than unicode.IsSpace. */
  predicate ReSpace(c: char) {
    c == '\t' || c == '\n' || c == '\U{0C}' || c == '\r' || c == ' '
  }

  predicate InClass(c: char, kind: Class) {
    match kind
    case Blank => ReSpace(c)
    case NonBlank => !ReSpace(c)
    case AnyChar => c != '\n'
  }

  predicate AllIn(s: string, kind: Class) {
    forall i :: 0 <= i < |s| ==> InClass(s[i], kind)
  }

  predicate IsStamp(s: string) {
    && |s| == 19
    && IsDigit(s[0]) && IsDigit(s[1]) && IsDigit(s[2]) && IsDigit(s[3]) && s[4] == '-'
    && IsDigit(s[5]) && IsDigit(s[6]) && s[7] == '-' && IsDigit(s[8]) && IsDigit(s[9]) && s[10] == ' '
    && IsDigit(s[11]) && IsDigit(s[12]) && s[13] == ':' && IsDigit(s[14]) && IsDigit(s[15]) && s[16] == ':'
    && IsDigit(s[17]) && IsDigit(s[18])
  }

  /** `\d{4}-\d{2}-\d{2} \d{2}:\d{2}:\d{2}`, place by place. */
  lemma {:induction false} StampByPlaces(s: string)
    ensures IsStamp(s) <==> |s| == 19 && forall i :: 0 <= i < 19 ==>
      if i == 4 || i == 7 then s[i] == '-'
      else if i == 10 then s[i] == ' '
      else if i == 13 || i == 16 then s[i] == ':'
      else IsDigit(s[i])
  {}

  predicate StampOrDashText(s: string) {
    IsStamp(s) || s == "-"
  }

  // ---------------------------------------------------------------- matching

  /** The length of the longest beginning in a class. */
  function RunLength(s: string, kind: Class): (n: nat)
    ensures n <= |s| && AllIn(s[..n], kind)
    ensures n < |s| ==> !InClass(s[n], kind)
  {
    if s == "" || !InClass(s[0], kind) then 0
    else
      assert s == [s[0]] + s[1..];
      1 + RunLength(s[1..], kind)
  }

  /** The pieces of the first match in the order of preference, or None. */
  function Match(items: seq<Item>, s: string): Option<seq<string>>
    decreases |items|, 0, 0
  {
    if items == [] then (if s == "" then Some([]) else None)
    else
      match items[0]
      case Run(kind, min, greedy) =>
        var max := RunLength(s, kind);
        if greedy then Down(items, s, min, max) else Up(items, s, min, max)
      case Stamp => if |s| >= 19 && IsStamp(s[..19]) then Take(items, s, 19) else None
      case StampOrDash =>
        var first := if |s| >= 19 && IsStamp(s[..19]) then Take(items, s, 19) else None;
        if first.Some? then first else if "-" <= s then Take(items, s, 1) else None
  }

  /** The first item takes `n` characters. */
  function Take(items: seq<Item>, s: string, n: nat): Option<seq<string>>
    requires items != [] && n <= |s|
    decreases |items| - 1, 1, 0
  {
    match Match(items[1..], s[n..])
    case Some(rest) => Some([s[..n]] + rest)
    case None => None
  }

  /** Greedy: the longest run first. */
  function Down(items: seq<Item>, s: string, min: nat, n: nat): Option<seq<string>>
    requires items != [] && n <= |s|
    decreases |items| - 1, 2, n
  {
    if n < min then None
    else
      var r := Take(items, s, n);
      if r.Some? || n == 0 then r else Down(items, s, min, n - 1)
  }

  /** Lazy: the shortest run first. */
  function Up(items: seq<Item>, s: string, n: nat, max: nat): Option<seq<string>>
    requires items != [] && max <= |s|
    decreases |items| - 1, 2, if n <= max then max - n + 1 else 0
  {
    if n > max then None
    else
      var r := Take(items, s, n);
      if r.Some? then r else Up(items, s, n + 1, max)
  }

  // ---------------------------------------------------------------- what a match is

  predicate Fits(item: Item, piece: string) {
    match item
    case Run(kind, min, _) => |piece| >= min && AllIn(piece, kind)
    case Stamp => IsStamp(piece)
    case StampOrDash => StampOrDashText(piece)
  }

  function Glue(pieces: seq<string>): string {
    if pieces == [] then "" else pieces[0] + Glue(pieces[1..])
  }

  ghost predicate Decomposes(items: seq<Item>, s: string, pieces: seq<string>) {
    && |pieces| == |items| && s == Glue(pieces)
    && forall i :: 0 <= i < |items| ==> Fits(items[i], pieces[i])
  }

  /** A match cuts the whole text into pieces that fit the items. */
  lemma {:induction false} MatchSound(items: seq<Item>, s: string)
    requires Match(items, s).Some?
    ensures Decomposes(items, s, Match(items, s).value)
    decreases |items|
  {
    if items != [] {
      var pieces := Match(items, s).value;
      var n := FirstTaken(items, s);
      MatchSound(items[1..], s[n..]);
      var rest := Match(items[1..], s[n..]).value;
      assert pieces == [s[..n]] + rest && pieces[1..] == rest;
      assert s == s[..n] + s[n..];
      forall i | 0 <= i < |items| ensures Fits(items[i], pieces[i]) {
        if i > 0 {
          assert items[i] == items[1..][i - 1] && pieces[i] == rest[i - 1];
        }
      }
    }
  }

  /** How much the first item took. */
  lemma {:induction false} FirstTaken(items: seq<Item>, s: string) returns (n: nat)
    requires items != [] && Match(items, s).Some?
    ensures n <= |s| && Fits(items[0], s[..n]) && Match(items, s) == Take(items, s, n)
  {
    match items[0] {
      case Run(kind, min, greedy) =>
        var max := RunLength(s, kind);
        if greedy {
          n := DownTaken(items, s, min, max);
        } else {
          n := UpTaken(items, s, min, max);
        }
        assert s[..n] == s[..max][..n];
      case Stamp => n := 19;
      case StampOrDash =>
        if |s| >= 19 && IsStamp(s[..19]) && Take(items, s, 19).Some? {
          n := 19;
        } else {
          n := 1;
          assert s[..1] == "-";
        }
    }
  }

  lemma {:induction false} DownTaken(items: seq<Item>, s: string, min: nat, max: nat) returns (n: nat)
    requires items != [] && max <= |s| && Down(items, s, min, max).Some?
    ensures min <= n <= max && Down(items, s, min, max) == Take(items, s, n)
    decreases max
  {
    if Take(items, s, max).Some? || max == 0 {
      n := max;
    } else {
      n := DownTaken(items, s, min, max - 1);
    }
  }

  lemma {:induction false} UpTaken(items: seq<Item>, s: string, from: nat, max: nat) returns (n: nat)
    requires items != [] && max <= |s| && Up(items, s, from, max).Some?
    ensures from <= n <= max && Up(items, s, from, max) == Take(items, s, n)
    decreases max - from
  {
    if Take(items, s, from).Some? {
      n := from;
    } else {
      n := UpTaken(items, s, from + 1, max);
    }
  }

  /** What follows the first piece is itself a match of the remaining items. */
  lemma {:induction false} MatchRest(items: seq<Item>, s: string)
    requires items != [] && Match(items, s).Some?
    ensures var m := Match(items, s).value; m != [] && Match(items[1..], Glue(m[1..])) == Some(m[1..])
  {
    var n := FirstTaken(items, s);
    MatchSound(items[1..], s[n..]);
    var rest := Match(items[1..], s[n..]).value;
    assert ([s[..n]] + rest)[1..] == rest;
  }

  lemma {:induction false} UpFinds(items: seq<Item>, s: string, from: nat, n: nat, max: nat)
    requires items != [] && from <= n <= max <= |s| && Take(items, s, n).Some?
    ensures Up(items, s, from, max).Some?
    decreases n - from
  {
    if Take(items, s, from).None? {
      UpFinds(items, s, from + 1, n, max);
    }
  }

  // ---------------------------------------------------------------- finding a match

  lemma {:induction false} RunLengthOf(x: string, y: string, kind: Class)
    requires AllIn(x, kind) && (y == "" || !InClass(y[0], kind))
    ensures RunLength(x + y, kind) == |x|
  {
    if x == "" {
      assert x + y == y;
    } else {
      assert (x + y)[1..] == x[1..] + y;
      RunLengthOf(x[1..], y, kind);
    }
  }

  lemma {:induction false} TakeFront(item: Item, rest: seq<Item>, x: string, y: string)
    ensures Take([item] + rest, x + y, |x|)
         == match Match(rest, y) { case Some(r) => Some([x] + r) case None => None }
  {
    assert ([item] + rest)[1..] == rest && (x + y)[..|x|] == x && (x + y)[|x|..] == y;
  }

  /** A greedy run takes all it can if the rest then matches. */
  lemma {:induction false} GreedyTakes(kind: Class, min: nat, rest: seq<Item>, x: string, y: string)
    requires AllIn(x, kind) && |x| >= min && (y == "" || !InClass(y[0], kind))
    requires Match(rest, y).Some?
    ensures Match([Run(kind, min, true)] + rest, x + y) == Some([x] + Match(rest, y).value)
  {
    RunLengthOf(x, y, kind);
    TakeFront(Run(kind, min, true), rest, x, y);
  }

  /** A lazy run takes no more than it must. */
  lemma {:induction false} LazyTakes(kind: Class, min: nat, rest: seq<Item>, x: string, y: string)
    requires AllIn(x, kind) && |x| >= min
    requires forall n :: min <= n < |x| ==> Match(rest, x[n..] + y) == None
    requires Match(rest, y).Some?
    ensures Match([Run(kind, min, false)] + rest, x + y) == Some([x] + Match(rest, y).value)
  {
    var items, s := [Run(kind, min, false)] + rest, x + y;
    var max := RunLength(s, kind);
    assert |x| <= max by {
      assert forall i :: 0 <= i < |x| ==> s[i] == x[i];
    }
    UpTo(items, s, min, |x|, max, x, y);
    TakeFront(Run(kind, min, false), rest, x, y);
  }

  lemma {:induction false} UpTo(items: seq<Item>, s: string, from: nat, n: nat, max: nat, x: string, y: string)
    requires items != [] && s == x + y && from <= n == |x| <= max <= |s|
    requires forall k :: from <= k < n ==> Match(items[1..], x[k..] + y) == None
    requires Match(items[1..], y).Some?
    ensures Up(items, s, from, max) == Take(items, s, n)
    decreases n - from
  {
    if from < n {
      assert s[from..] == x[from..] + y;
      UpTo(items, s, from + 1, n, max, x, y);
    } else {
      assert s[n..] == y;
    }
  }

  lemma {:induction false} StampTakes(rest: seq<Item>, x: string, y: string)
    requires IsStamp(x) && Match(rest, y).Some?
    ensures Match([Stamp] + rest, x + y) == Some([x] + Match(rest, y).value)
    ensures Match([StampOrDash] + rest, x + y) == Some([x] + Match(rest, y).value)
  {
    assert (x + y)[..19] == x;
    TakeFront(Stamp, rest, x, y);
    TakeFront(StampOrDash, rest, x, y);
  }

  /** Nothing is left for a final `\s*`. */
  lemma {:induction false} NothingLeft()
    ensures Match([Run(Blank, 0, true)], "") == Some([""])
  {
    GreedyTakes(Blank, 0, [], "", "");
    assert [Run(Blank, 0, true)] + [] == [Run(Blank, 0, true)] && "" + "" == "";
    assert [""] + [] == [""];
  }

  // ---------------------------------------------------------------- one way to cut a text

  /** Two cuts of a text before a final run of one class agree. */
  lemma {:induction false} SameCut(a: string, v: string, b: string, w: string, kind: Class)
    requires a + v == b + w && AllIn(v, kind) && AllIn(w, kind)
    requires a == "" || !InClass(a[|a| - 1], kind)
    requires b == "" || !InClass(b[|b| - 1], kind)
    ensures a == b && v == w
  {
    CutNotLater(a, v, b, w, kind);
    CutNotLater(b, w, a, v, kind);
    var s := a + v;
    assert a == s[..|a|] && b == s[..|b|] && v == s[|a|..] && w == s[|b|..];
  }

  lemma {:induction false} CutNotLater(a: string, v: string, b: string, w: string, kind: Class)
    requires a + v == b + w && AllIn(v, kind)
    requires b == "" || !InClass(b[|b| - 1], kind)
    ensures |b| <= |a|
  {
    var s := a + v;
    assert forall i :: |a| <= i < |s| ==> s[i] == v[i - |a|];
    assert forall i :: 0 <= i < |b| ==> s[i] == b[i];
  }

  /** A time stamp and a dash cannot end the same text. */
  lemma {:induction false} SameEnd(a: string, x: string, b: string, y: string)
    requires a + x == b + y && StampOrDashText(x) && StampOrDashText(y)
    ensures a == b && x == y
  {
    var s := a + x;
    assert s[|s| - 1] == x[|x| - 1] == y[|y| - 1];
    assert |x| == |y|;
    assert a == s[..|a|] && b == s[..|b|] && x == s[|a|..] && y == s[|b|..];
  }
}
