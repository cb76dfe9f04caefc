/** Strings as the Go packages `strings`, `bufio` and `unicode` treat them. */
module Text {

  datatype Option<+T> = None | Some(value: T)

  /** Words the model does not choose: Go's quoted strings and numbers, and the messages of calls that fail. */
  datatype Wording = Wording(
    quote: string -> string,       // the %q verb
    number: nat -> string,
    openError: string -> string,   // why a report cannot be opened
    dirError: string,              // why the report directory cannot be read
    hashError: string,
    cronError: string -> string)

  /** The reply to a command that fails. */
  function ErrorLine(msg: string): string {
    "ERROR - " + msg + "\n"
  }

  lemma {:induction false} AppendAssoc<T>(a: seq<T>, b: seq<T>, c: seq<T>)
    ensures a + b + c == a + (b + c)
  {}

  // ---------------------------------------------------------------- white space

  /** unicode.IsSpace. */
  predicate IsSpace(c: char) {
    || '\t' <= c <= '\r' || c == ' '
    || c == '\U{85}' || c == '\U{A0}' || c == '\U{1680}' || '\U{2000}' <= c <= '\U{200A}'
    || c == '\U{2028}' || c == '\U{2029}' || c == '\U{202F}' || c == '\U{205F}' || c == '\U{3000}'
  }

  predicate IsDigit(c: char) {
    '0' <= c <= '9'
  }

  predicate AllSpace(s: string) {
    forall c :: c in s ==> IsSpace(c)
  }

  predicate NoSpace(s: string) {
    forall c :: c in s ==> !IsSpace(c)
  }

  /** A non-empty run of characters that are not white space: what `\S+` matches. */
  predicate Word(s: string) {
    s != "" && NoSpace(s)
  }

  predicate StartsTrimmed(s: string) {
    s != "" ==> !IsSpace(s[0])
  }

  predicate EndsTrimmed(s: string) {
    s != "" ==> !IsSpace(s[|s| - 1])
  }

  predicate Trimmed(s: string) {
    StartsTrimmed(s) && EndsTrimmed(s)
  }

  function TrimLeft(s: string): string {
    if s != "" && IsSpace(s[0]) then TrimLeft(s[1..]) else s
  }

  function TrimRight(s: string): string {
    if s != "" && IsSpace(s[|s| - 1]) then TrimRight(s[..|s| - 1]) else s
  }

  /** strings.TrimSpace. */
  function TrimSpace(s: string): string {
    TrimRight(TrimLeft(s))
  }

  lemma {:induction false} TrimLeftSplits(s: string) returns (ws: string)
    ensures AllSpace(ws) && s == ws + TrimLeft(s) && StartsTrimmed(TrimLeft(s))
  {
    if s != "" && IsSpace(s[0]) {
      var rest := TrimLeftSplits(s[1..]);
      ws := [s[0]] + rest;
      assert s == [s[0]] + s[1..];
      AppendAssoc([s[0]], rest, TrimLeft(s[1..]));
    } else {
      ws := "";
    }
  }

  lemma {:induction false} TrimRightSplits(s: string) returns (ws: string)
    ensures AllSpace(ws) && s == TrimRight(s) + ws && EndsTrimmed(TrimRight(s))
  {
    if s != "" && IsSpace(s[|s| - 1]) {
      var rest := TrimRightSplits(s[..|s| - 1]);
      ws := rest + [s[|s| - 1]];
      assert s == s[..|s| - 1] + [s[|s| - 1]];
      AppendAssoc(TrimRight(s[..|s| - 1]), rest, [s[|s| - 1]]);
    } else {
      ws := "";
    }
  }

  /** TrimSpace removes white space at both ends and nothing else. */
  lemma TrimSpaceSplits(s: string) returns (left: string, right: string)
    ensures AllSpace(left) && AllSpace(right)
    ensures s == left + TrimSpace(s) + right
    ensures Trimmed(TrimSpace(s))
  {
    left := TrimLeftSplits(s);
    right := TrimRightSplits(TrimLeft(s));
    assert s == left + (TrimSpace(s) + right);
    assert TrimSpace(s) != "" ==> TrimSpace(s)[0] == TrimLeft(s)[0];
  }

  /** A string trimmed at both ends is what TrimSpace finds inside any padding. */
  lemma {:induction false} TrimSpaceOfPadded(left: string, x: string, right: string)
    requires AllSpace(left) && AllSpace(right) && Trimmed(x)
    ensures TrimSpace(left + x + right) == x
  {
    var s := left + x + right;
    if x == "" {
      TrimLeftOf(s, "");
      assert s + "" == s;
    } else {
      TrimLeftOf(left, x + right);
      TrimRightOf(x, right);
      assert s == left + (x + right);
    }
  }

  lemma {:induction false} TrimSelf(s: string)
    requires Trimmed(s)
    ensures TrimSpace(s) == s
  {
    TrimSpaceOfPadded("", s, "");
    assert "" + s + "" == s;
  }

  lemma {:induction false} TrimLeftOf(left: string, x: string)
    requires AllSpace(left) && StartsTrimmed(x)
    ensures TrimLeft(left + x) == x
  {
    if left == "" {
      assert left + x == x;
    } else {
      assert (left + x)[1..] == left[1..] + x;
      TrimLeftOf(left[1..], x);
    }
  }

  lemma {:induction false} TrimRightOf(x: string, right: string)
    requires AllSpace(right) && EndsTrimmed(x)
    ensures TrimRight(x + right) == x
  {
    if right == "" {
      assert x + right == x;
    } else {
      assert (x + right)[..|x + right| - 1] == x + right[..|right| - 1];
      TrimRightOf(x, right[..|right| - 1]);
    }
  }

  // ---------------------------------------------------------------- splitting and joining

  /** strings.Split for a one-character separator: always at least one piece. */
  function Split(s: string, sep: char): (parts: seq<string>)
    ensures |parts| > 0
  {
    if s == "" then [""]
    else
      var rest := Split(s[1..], sep);
      if s[0] == sep then [""] + rest else [[s[0]] + rest[0]] + rest[1..]
  }

  lemma {:induction false} SplitPieces(s: string, sep: char)
    ensures forall p :: p in Split(s, sep) ==> sep !in p
  {
    if s != "" {
      SplitPieces(s[1..], sep);
      assert Split(s[1..], sep)[0] in Split(s[1..], sep);
    }
  }

  /** strings.Join for a one-character separator. */
  function Join(parts: seq<string>, sep: char): string {
    if parts == [] then ""
    else if |parts| == 1 then parts[0]
    else parts[0] + [sep] + Join(parts[1..], sep)
  }

  lemma {:induction false} SplitWhole(s: string, sep: char)
    requires sep !in s
    ensures Split(s, sep) == [s]
  {
    if s != "" {
      SplitWhole(s[1..], sep);
      assert [s[0]] + s[1..] == s;
    }
  }

  lemma {:induction false} SplitFirst(a: string, sep: char, b: string)
    requires sep !in a
    ensures Split(a + [sep] + b, sep) == [a] + Split(b, sep)
  {
    var s := a + [sep] + b;
    if a == "" {
      assert s[1..] == b;
    } else {
      assert s[1..] == a[1..] + [sep] + b;
      SplitFirst(a[1..], sep, b);
      assert [a[0]] + a[1..] == a;
    }
  }

  lemma {:induction false} SplitOfJoin(parts: seq<string>, sep: char)
    requires parts != [] && forall p :: p in parts ==> sep !in p
    ensures Split(Join(parts, sep), sep) == parts
  {
    if |parts| == 1 {
      SplitWhole(parts[0], sep);
    } else {
      SplitOfJoin(parts[1..], sep);
      SplitFirst(parts[0], sep, Join(parts[1..], sep));
      assert parts == [parts[0]] + parts[1..];
    }
  }

  lemma {:induction false} JoinOfSplit(s: string, sep: char)
    ensures Join(Split(s, sep), sep) == s
  {
    if s != "" {
      JoinOfSplit(s[1..], sep);
      var rest := Split(s[1..], sep);
      var parts := Split(s, sep);
      assert s == [s[0]] + s[1..];
      if s[0] == sep {
        assert parts[1..] == rest;
      } else if |rest| > 1 {
        assert parts[1..] == rest[1..];
        assert Join(parts, sep) == [s[0]] + (rest[0] + [sep] + Join(rest[1..], sep));
      }
    }
  }

  lemma {:induction false} SplitNothing(sep: char)
    ensures Split("", sep) == [""]
  {}

  lemma {:induction false} SplitCons(c: char, s: string, sep: char)
    ensures Split([c] + s, sep)
         == if c == sep then [""] + Split(s, sep) else [[c] + Split(s, sep)[0]] + Split(s, sep)[1..]
  {
    assert ([c] + s)[1..] == s;
  }

  lemma {:induction false} HeadsAppend(c: char, sep: char, ra: seq<string>, rb: seq<string>)
    requires ra != []
    ensures (if c == sep then [""] + (ra + rb) else [[c] + (ra + rb)[0]] + (ra + rb)[1..])
         == (if c == sep then [""] + ra else [[c] + ra[0]] + ra[1..]) + rb
  {
    assert (ra + rb)[1..] == ra[1..] + rb;
  }

  /** Splitting distributes over a separator, wherever it stands. */
  lemma {:induction false} SplitAppend(a: string, sep: char, b: string)
    ensures Split(a + [sep] + b, sep) == Split(a, sep) + Split(b, sep)
  {
    hide *;
    if a == "" {
      SplitNothing(sep);
      SplitCons(sep, b, sep);
      assert a + [sep] + b == [sep] + b;
    } else {
      SplitAppend(a[1..], sep, b);
      SplitCons(a[0], a[1..] + [sep] + b, sep);
      SplitCons(a[0], a[1..], sep);
      assert a == [a[0]] + a[1..] && a + [sep] + b == [a[0]] + (a[1..] + [sep] + b);
      HeadsAppend(a[0], sep, Split(a[1..], sep), Split(b, sep));
    }
  }

  /** The pieces before and after the first separator, if there is one (strings.SplitN with n = 2). */
  function Cut(s: string, sep: char): (r: Option<(string, string)>)
    ensures r.None? <==> sep !in s
    ensures r.Some? ==> sep !in r.value.0 && s == r.value.0 + [sep] + r.value.1
  {
    if s == "" then None
    else if s[0] == sep then Some(("", s[1..]))
    else
      match Cut(s[1..], sep)
      case None => None
      case Some(pair) =>
        assert s == [s[0]] + s[1..];
        Some(([s[0]] + pair.0, pair.1))
  }

  lemma {:induction false} CutAt(a: string, sep: char, b: string)
    requires sep !in a
    ensures Cut(a + [sep] + b, sep) == Some((a, b))
  {
    var s := a + [sep] + b;
    if a == "" {
      assert s[1..] == b;
    } else {
      assert s[1..] == a[1..] + [sep] + b;
      CutAt(a[1..], sep, b);
      assert [a[0]] + a[1..] == a;
    }
  }

  // ---------------------------------------------------------------- lines

  /** All strings one after the other: the content of a strings.Builder. */
  function Concat(ss: seq<string>): string {
    if ss == [] then "" else Concat(ss[..|ss| - 1]) + ss[|ss| - 1]
  }

  lemma {:induction false} ConcatAppend(a: seq<string>, b: seq<string>)
    ensures Concat(a + b) == Concat(a) + Concat(b)
  {
    if b == [] {
      assert a + b == a;
    } else {
      var b' := b[..|b| - 1];
      assert (a + b)[..|a + b| - 1] == a + b';
      ConcatAppend(a, b');
    }
  }

  /** Every line followed by a newline. */
  function Unlines(lines: seq<string>): string {
    if lines == [] then "" else lines[0] + "\n" + Unlines(lines[1..])
  }

  lemma {:induction false} UnlinesOfNone()
    ensures Unlines([]) == ""
  {}

  lemma {:induction false} UnlinesAppend(a: seq<string>, b: seq<string>)
    ensures Unlines(a + b) == Unlines(a) + Unlines(b)
  {
    if a == [] {
      assert a + b == b;
    } else {
      assert (a + b)[1..] == a[1..] + b;
      UnlinesAppend(a[1..], b);
    }
  }

  lemma UnlinesSnoc(a: seq<string>, x: string)
    ensures Unlines(a + [x]) == Unlines(a) + x + "\n"
  {
    UnlinesAppend(a, [x]);
  }

  /** Empty, or ending in a newline. */
  predicate Terminated(s: string) {
    s == "" || s[|s| - 1] == '\n'
  }

  lemma {:induction false} UnlinesTerminated(lines: seq<string>)
    ensures Terminated(Unlines(lines))
  {
    if lines != [] {
      var init := lines[..|lines| - 1];
      UnlinesSnoc(init, lines[|lines| - 1]);
      assert lines == init + [lines[|lines| - 1]];
    }
  }

  predicate OneLine(s: string) {
    '\n' !in s
  }

  function DropCR(s: string): string {
    if s != "" && s[|s| - 1] == '\r' then s[..|s| - 1] else s
  }

  /** One line a bufio.Scanner gives back unchanged. */
  predicate ScanSafe(s: string) {
    OneLine(s) && DropCR(s) == s
  }

  function DropCRs(ss: seq<string>): (r: seq<string>)
    ensures |r| == |ss| && forall i :: 0 <= i < |ss| ==> r[i] == DropCR(ss[i])
  {
    seq(|ss|, i requires 0 <= i < |ss| => DropCR(ss[i]))
  }

  /** The pieces of a file between newlines; no piece after the last newline if nothing follows it. */
  function RawLines(content: string): seq<string> {
    var parts := Split(content, '\n');
    if parts[|parts| - 1] == "" then parts[..|parts| - 1] else parts
  }

  /** The lines a bufio.Scanner delivers: one carriage return before each newline is dropped. */
  function ScanLines(content: string): seq<string> {
    DropCRs(RawLines(content))
  }

  /** Lines with a newline each are delivered one by one, and so is what follows the last newline, if anything does. */
  lemma {:induction false} RawLinesWithTail(lines: seq<string>, tail: string)
    requires (forall l :: l in lines ==> OneLine(l)) && OneLine(tail)
    ensures RawLines(Unlines(lines) + tail) == lines + if tail == "" then [] else [tail]
  {
    hide Split;
    SplitOfUnlines(lines, tail);
    SplitWhole(tail, '\n');
    var parts := lines + [tail];
    assert parts[..|parts| - 1] == lines && lines + [] == lines;
  }

  /** Every delivered line is a line. */
  lemma ScanLinesOneLine(content: string)
    ensures forall l :: l in ScanLines(content) ==> OneLine(l)
  {
    SplitPieces(content, '\n');
    forall l | l in ScanLines(content) ensures OneLine(l) {
      var i :| 0 <= i < |ScanLines(content)| && ScanLines(content)[i] == l;
      assert RawLines(content)[i] in Split(content, '\n');
    }
  }

  lemma {:induction false} SplitOfUnlines(lines: seq<string>, tail: string)
    requires forall l :: l in lines ==> OneLine(l)
    ensures Split(Unlines(lines) + tail, '\n') == lines + Split(tail, '\n')
  {
    hide Split;
    if lines == [] {
      assert Unlines(lines) + tail == tail;
    } else {
      var rest := lines[1..];
      assert lines[0] in lines && lines == [lines[0]] + rest;
      AppendAssoc([lines[0]], rest, Split(tail, '\n'));
      AppendAssoc(lines[0] + ['\n'], Unlines(rest), tail);
      SplitFirst(lines[0], '\n', Unlines(rest) + tail);
      SplitOfUnlines(rest, tail);
    }
  }

  /** Writing lines and scanning them back. */
  lemma RawLinesOfUnlines(lines: seq<string>)
    requires forall l :: l in lines ==> OneLine(l)
    ensures RawLines(Unlines(lines)) == lines
  {
    SplitOfUnlines(lines, "");
    assert Unlines(lines) + "" == Unlines(lines);
    assert (lines + [""])[..|lines|] == lines;
  }

  lemma ScanLinesOfUnlines(lines: seq<string>)
    requires forall l :: l in lines ==> ScanSafe(l)
    ensures ScanLines(Unlines(lines)) == lines
  {
    RawLinesOfUnlines(lines);
    assert DropCRs(lines) == lines by {
      forall i | 0 <= i < |lines| ensures DropCR(lines[i]) == lines[i] {
        assert lines[i] in lines;
      }
    }
  }

  // ---------------------------------------------------------------- fields

  /** The length of the leading run of characters that are not white space. */
  function WordLength(s: string): (n: nat)
    ensures n <= |s| && NoSpace(s[..n])
    ensures n < |s| ==> IsSpace(s[n])
  {
    if s == "" || IsSpace(s[0]) then 0
    else
      assert s == [s[0]] + s[1..];
      1 + WordLength(s[1..])
  }

  /** strings.Fields. */
  function Fields(s: string): seq<string>
    decreases |s|
  {
    if s == "" then []
    else if IsSpace(s[0]) then Fields(s[1..])
    else
      var n := WordLength(s);
      [s[..n]] + Fields(s[n..])
  }

  lemma {:induction false} FieldsAreWords(s: string)
    ensures forall f :: f in Fields(s) ==> Word(f)
    decreases |s|
  {
    if s != "" {
      FieldsAreWords(s[if IsSpace(s[0]) then 1 else WordLength(s)..]);
    }
  }

  lemma {:induction false} WordLengthOf(w: string, rest: string)
    requires NoSpace(w) && (rest != "" ==> IsSpace(rest[0]))
    ensures WordLength(w + rest) == |w|
  {
    if w == "" {
      assert w + rest == rest;
    } else {
      assert (w + rest)[1..] == w[1..] + rest;
      WordLengthOf(w[1..], rest);
    }
  }

  lemma FieldsOfWord(w: string, rest: string)
    requires Word(w) && (rest != "" ==> IsSpace(rest[0]))
    ensures Fields(w + rest) == [w] + Fields(rest)
  {
    WordLengthOf(w, rest);
    assert (w + rest)[..|w|] == w && (w + rest)[|w|..] == rest;
  }

  lemma {:induction false} FieldsSkip(ws: string, rest: string)
    requires AllSpace(ws)
    ensures Fields(ws + rest) == Fields(rest)
  {
    if ws == "" {
      assert ws + rest == rest;
    } else {
      assert (ws + rest)[1..] == ws[1..] + rest;
      FieldsSkip(ws[1..], rest);
    }
  }

  /** The first step of Fields: one blank, or one whole word. */
  lemma {:induction false} FieldsStep(s: string) returns (head: string, rest: string)
    requires s != ""
    ensures s == head + rest && head != ""
    ensures (|head| == 1 && IsSpace(head[0])) || (Word(head) && (rest != "" ==> IsSpace(rest[0])))
    ensures rest == "" && Word(head) ==> !IsSpace(s[|s| - 1])
    ensures rest != "" ==> s[|s| - 1] == rest[|rest| - 1]
  {
    var n := if IsSpace(s[0]) then 1 else WordLength(s);
    head, rest := s[..n], s[n..];
    assert rest == "" ==> s[|s| - 1] in head;
  }

  lemma {:induction false} FieldsOfNothing()
    ensures Fields("") == []
  {}

  lemma {:induction false} FieldsHead(head: string, rest: string)
    requires (|head| == 1 && IsSpace(head[0])) || (Word(head) && (rest != "" ==> IsSpace(rest[0])))
    ensures Fields(head + rest) == (if Word(head) then [head] else []) + Fields(rest)
  {
    if Word(head) {
      FieldsOfWord(head, rest);
    } else {
      FieldsSkip(head, rest);
    }
  }

  /** Fields of two texts with white space between them. */
  lemma {:induction false} FieldsAppend(a: string, b: string)
    requires a == "" || b == "" || IsSpace(a[|a| - 1]) || IsSpace(b[0])
    ensures Fields(a + b) == Fields(a) + Fields(b)
    decreases |a|
  {
    hide *;
    if a == "" {
      FieldsOfNothing();
      assert a + b == b && [] + Fields(b) == Fields(b);
    } else {
      var head, rest := FieldsStep(a);
      FieldsAppend(rest, b);
      FieldsHeads(head, rest, b);
      AppendAssoc(head, rest, b);
      AppendAssoc(if Word(head) then [head] else [], Fields(rest), Fields(b));
    }
  }

  lemma {:induction false} FieldsHeads(head: string, rest: string, b: string)
    requires (|head| == 1 && IsSpace(head[0])) || (Word(head) && (rest != "" ==> IsSpace(rest[0])))
    requires rest == "" && Word(head) ==> b == "" || IsSpace(b[0])
    ensures Fields(head + rest) == (if Word(head) then [head] else []) + Fields(rest)
    ensures Fields(head + (rest + b)) == (if Word(head) then [head] else []) + Fields(rest + b)
  {
    hide *;
    FieldsHead(head, rest);
    assert rest == "" ==> rest + b == b;
    assert rest != "" ==> (rest + b)[0] == rest[0];
    FieldsHead(head, rest + b);
  }

  /** The last word of a text, if the text does not end in white space, and what comes before it. */
  lemma {:induction false} SplitLastWord(a: string) returns (front: string, word: string)
    ensures a == front + word && NoSpace(word) && (front != "" ==> IsSpace(front[|front| - 1]))
    ensures Fields(a) == Fields(front) + if word == "" then [] else [word]
  {
    hide Fields;
    var n := |a|;
    while n > 0 && !IsSpace(a[n - 1])
      invariant 0 <= n <= |a| && NoSpace(a[n..])
    {
      n := n - 1;
      assert a[n..] == [a[n]] + a[n + 1..];
    }
    front, word := a[..n], a[n..];
    FieldsAppend(front, word);
    if word == "" {
      FieldsOfNothing();
    } else {
      FieldsOfWord(word, "");
      FieldsOfNothing();
      assert word + "" == word;
    }
  }

  lemma {:induction false} SplitFirstWord(b: string) returns (word: string, back: string)
    ensures b == word + back && NoSpace(word) && (back != "" ==> IsSpace(back[0]))
    ensures Fields(b) == (if word == "" then [] else [word]) + Fields(back)
  {
    var n := WordLength(b);
    word, back := b[..n], b[n..];
    if word != "" {
      FieldsOfWord(word, back);
    } else {
      assert b == back;
    }
  }

  lemma {:induction false} FieldsOfJoin(args: seq<string>)
    requires forall a :: a in args ==> Word(a)
    ensures Fields(Join(args, ' ')) == args
  {
    if |args| == 1 {
      FieldsOfWord(args[0], "");
      assert args[0] + "" == args[0];
    } else if |args| > 1 {
      var rest := Join(args[1..], ' ');
      FieldsOfJoin(args[1..]);
      FieldsOfWord(args[0], " " + rest);
      FieldsSkip(" ", rest);
      assert args[0] + [' '] + rest == args[0] + (" " + rest);
    }
  }

  lemma {:induction false} JoinPlain(args: seq<string>)
    requires forall a :: a in args ==> Word(a)
    ensures OneLine(Join(args, ' ')) && Trimmed(Join(args, ' '))
  {
    if args != [] {
      var rest := Join(args[1..], ' ');
      JoinPlain(args[1..]);
      assert Word(args[0]);
      if |args| > 1 {
        assert rest != "" by {
          assert Word(args[1]);
        }
      }
    }
  }

  /** A line has no fields exactly when it is blank. */
  lemma {:induction false} FieldsEmpty(s: string)
    ensures Fields(s) == [] <==> AllSpace(s)
    ensures AllSpace(s) <==> TrimSpace(s) == ""
  {
    var l, r := TrimSpaceSplits(s);
    if AllSpace(s) {
      FieldsSkip(s, "");
      assert s + "" == s;
      TrimSpaceOfPadded(s, "", "");
      assert s + "" + "" == s;
    } else {
      var t := TrimSpace(s);
      assert t == "" ==> s == l + r;
      FieldsSkip(l, t + r);
      assert s == l + (t + r);
      assert (t + r)[0] == t[0];
    }
  }

  lemma {:induction false} FieldsDropCR(line: string)
    ensures Fields(DropCR(line)) == Fields(line)
  {
    if DropCR(line) != line {
      var front := line[..|line| - 1];
      assert line == front + "\r";
      FieldsAppend(front, "\r");
      FieldsSkip("\r", "");
      assert "\r" + "" == "\r";
    }
  }

  /** White space at the ends makes no difference to the fields. */
  lemma {:induction false} FieldsTrim(s: string)
    ensures Fields(TrimSpace(s)) == Fields(s)
  {
    hide Fields, TrimSpace;
    var left, right := TrimSpaceSplits(s);
    var t := TrimSpace(s);
    assert s == left + (t + right);
    FieldsSkip(left, t + right);
    FieldsAppend(t, right);
    FieldsSkip(right, "");
    FieldsOfNothing();
    assert right + "" == right;
  }

  // ---------------------------------------------------------------- padding

  function Repeat(c: char, n: nat): (s: string)
    ensures |s| == n && forall x :: x in s ==> x == c
  {
    seq(n, _ => c)
  }

  /** The `%-Ns` verb. */
  function PadRight(s: string, n: nat): string {
    if |s| < n then s + Repeat(' ', n - |s|) else s
  }
}
