/** The known_agents file: which certificate fingerprint an agent address must present. */
module KnownAgents {
  import opened Text

  // ---------------------------------------------------------------- looking up

  /** A line that pins an address: at least two fields, not a comment. */
  predicate Pins(line: string, addr: string) {
    var fields := Fields(line);
    |fields| >= 2 && !("#" <= fields[0]) && fields[0] == addr
  }

  /** The fingerprint of the first line that pins the address. */
  function LookupLines(lines: seq<string>, addr: string): Option<string> {
    if lines == [] then None
    else if Pins(lines[0], addr) then Some(Fields(lines[0])[1])
    else LookupLines(lines[1..], addr)
  }

  /** lookupKnownAgent on the content of the file; a missing file pins nothing. */
  function Lookup(content: string, addr: string): Option<string> {
    LookupLines(ScanLines(content), addr)
  }

  method LookupKnownAgent(content: string, addr: string) returns (fp: Option<string>)
    ensures fp == Lookup(content, addr)
  {
    hide Fields, ScanLines;
    var lines := ScanLines(content);
    for i := 0 to |lines|
      invariant LookupLines(lines, addr) == LookupLines(lines[i..], addr)
    {
      assert lines[i..][1..] == lines[i + 1..];
      var fields := Fields(lines[i]);
      if |fields| >= 2 && !("#" <= fields[0]) && fields[0] == addr {
        return Some(fields[1]);
      }
    }
    fp := None;
  }

  /** The fingerprint found is the second field of the first line that pins the address. */
  lemma {:induction false} LookupFirst(content: string, addr: string, fp: string)
    ensures Lookup(content, addr) == Some(fp) <==> exists i ::
      && 0 <= i < |ScanLines(content)| && Pins(ScanLines(content)[i], addr)
      && Fields(ScanLines(content)[i])[1] == fp
      && forall j :: 0 <= j < i ==> !Pins(ScanLines(content)[j], addr)
  {
    hide Fields, ScanLines;
    FirstPinning(ScanLines(content), addr, fp);
  }

  lemma {:induction false} FirstPinning(lines: seq<string>, addr: string, fp: string)
    ensures LookupLines(lines, addr) == Some(fp) <==> exists i ::
      && 0 <= i < |lines| && Pins(lines[i], addr) && Fields(lines[i])[1] == fp
      && forall j :: 0 <= j < i ==> !Pins(lines[j], addr)
  {
    hide Fields;
    if lines != [] && !Pins(lines[0], addr) {
      FirstPinning(lines[1..], addr, fp);
      if LookupLines(lines, addr) == Some(fp) {
        var i :| 0 <= i < |lines[1..]| && Pins(lines[1..][i], addr) && Fields(lines[1..][i])[1] == fp
          && forall j :: 0 <= j < i ==> !Pins(lines[1..][j], addr);
        assert lines[i + 1] == lines[1..][i];
        assert forall j :: 0 < j < i + 1 ==> lines[j] == lines[1..][j - 1];
      }
      if i :| && 0 <= i < |lines| && Pins(lines[i], addr) && Fields(lines[i])[1] == fp
              && forall j :: 0 <= j < i ==> !Pins(lines[j], addr)
      {
        assert i > 0 && lines[1..][i - 1] == lines[i];
        assert forall j :: 0 <= j < i - 1 ==> lines[1..][j] == lines[j + 1];
      }
    } else if lines != [] {
      assert Pins(lines[0], addr);
    }
  }

  // ---------------------------------------------------------------- carriage returns do not matter

  lemma {:induction false} LookupRaw(lines: seq<string>, addr: string)
    ensures LookupLines(DropCRs(lines), addr) == LookupLines(lines, addr)
  {
    if lines != [] {
      FieldsDropCR(lines[0]);
      LookupRaw(lines[1..], addr);
      assert DropCRs(lines)[1..] == DropCRs(lines[1..]);
    }
  }

  lemma {:induction false} LookupAppend(a: seq<string>, b: seq<string>, addr: string)
    ensures LookupLines(a + b, addr)
      == if LookupLines(a, addr).Some? then LookupLines(a, addr) else LookupLines(b, addr)
  {
    if a == [] {
      assert a + b == b;
    } else {
      assert (a + b)[1..] == a[1..] + b;
      LookupAppend(a[1..], b, addr);
    }
  }

  lemma {:induction false} LookupNone(lines: seq<string>, addr: string)
    requires forall l :: l in lines ==> !Pins(l, addr)
    ensures LookupLines(lines, addr) == None
  {
    if lines != [] {
      assert lines[0] in lines;
      LookupNone(lines[1..], addr);
    }
  }

  /** The lookup in the pieces of a file between newlines. */
  lemma {:induction false} LookupSplit(content: string, addr: string)
    ensures Lookup(content, addr) == LookupLines(Split(content, '\n'), addr)
  {
    var parts := Split(content, '\n');
    LookupRaw(RawLines(content), addr);
    if parts[|parts| - 1] == "" {
      var init := parts[..|parts| - 1];
      assert parts == init + [""];
      LookupAppend(init, [""], addr);
      assert LookupLines([""], addr) == LookupLines([], addr);
    }
  }

  // ---------------------------------------------------------------- remembering and pinning

  function PinLine(addr: string, fp: string): string {
    addr + " " + fp
  }

  /** rememberAgent appends a line. */
  function Remember(content: string, addr: string, fp: string): string {
    content + PinLine(addr, fp) + "\n"
  }

  predicate StartsWithField(line: string, addr: string) {
    Fields(line) != [] && Fields(line)[0] == addr
  }

  /** The lines pinKnownAgent keeps: neither about the address nor blank. */
  function KeptLines(lines: seq<string>, addr: string): seq<string> {
    if lines == [] then []
    else
      var last := lines[|lines| - 1];
      KeptLines(lines[..|lines| - 1], addr)
      + if !StartsWithField(last, addr) && TrimSpace(last) != "" then [last] else []
  }

  function Pin(content: string, addr: string, fp: string): string {
    Join(KeptLines(Split(content, '\n'), addr) + [PinLine(addr, fp)], '\n') + "\n"
  }

  /** The file on disk; a missing file is as an empty one. */
  class KnownAgentsFile {
    var content: string

    constructor (content: string)
      ensures this.content == content
    {
      this.content := content;
    }

    method RememberAgent(addr: string, fp: string)
      modifies this
      ensures content == Remember(old(content), addr, fp)
    {
      content := content + (addr + " " + fp) + "\n";
    }

    method PinKnownAgent(addr: string, fp: string)
      modifies this
      ensures content == Pin(old(content), addr, fp)
    {
      hide Fields, TrimSpace, Split, Join;
      var pieces := Split(content, '\n');
      var lines: seq<string> := [];
      for i := 0 to |pieces|
        invariant content == old(content)
        invariant lines == KeptLines(pieces[..i], addr)
      {
        assert pieces[..i + 1][..i] == pieces[..i];
        var line := pieces[i];
        var fields := Fields(line);
        if |fields| >= 1 && fields[0] == addr {
          continue;
        }
        if TrimSpace(line) != "" {
          lines := lines + [line];
        }
      }
      assert pieces[..|pieces|] == pieces;
      lines := lines + [addr + " " + fp];
      content := Join(lines, '\n') + "\n";
    }

    /**
     * The certificate check of dialAgent: a pinned address must present its fingerprint, an
     * unknown one is accepted and remembered if new agents are trusted.
     */
    method VerifyPeer(addr: string, fp: string, trustNewAgents: bool) returns (accepted: bool)
      modifies this
      ensures accepted == Accepts(old(content), addr, fp, trustNewAgents)
      ensures content
        == if Lookup(old(content), addr).None? && trustNewAgents then Remember(old(content), addr, fp) else old(content)
    {
      var known := LookupKnownAgent(content, addr);
      if known.Some? {
        return known.value == fp;
      }
      if !trustNewAgents {
        return false;
      }
      RememberAgent(addr, fp);
      accepted := true;
    }
  }

  predicate Accepts(content: string, addr: string, fp: string, trustNewAgents: bool) {
    match Lookup(content, addr)
    case Some(known) => known == fp
    case None => trustNewAgents
  }

  // ---------------------------------------------------------------- the effect of remembering

  lemma {:induction false} FieldsOfPin(addr: string, fp: string)
    requires Word(addr) && Word(fp)
    ensures Fields(PinLine(addr, fp)) == [addr, fp] && OneLine(PinLine(addr, fp))
  {
    FieldsOfWord(addr, " " + fp);
    FieldsSkip(" ", fp);
    FieldsOfWord(fp, "");
    assert fp + "" == fp && addr + (" " + fp) == PinLine(addr, fp);
    assert IsSpace('\n');
  }

  /** An address that can be pinned: no white space, and not the beginning of a comment. */
  predicate Pinnable(addr: string) {
    Word(addr) && addr[0] != '#'
  }

  lemma {:induction false} PinLineLookup(addr: string, fp: string, other: string)
    requires Word(addr) && Word(fp)
    ensures LookupLines([PinLine(addr, fp)], other) == if other == addr && addr[0] != '#' then Some(fp) else None
  {
    FieldsOfPin(addr, fp);
    assert "#" <= addr <==> addr[0] == '#';
    assert [PinLine(addr, fp)][1..] == [];
  }

  /** The text after the last newline. */
  function LastPiece(content: string): string {
    var parts := Split(content, '\n');
    parts[|parts| - 1]
  }

  lemma {:induction false} RememberLines(content: string, addr: string, fp: string)
    requires Word(addr) && Word(fp)
    ensures var parts := Split(content, '\n');
      Split(Remember(content, addr, fp), '\n') == parts[..|parts| - 1] + [LastPiece(content) + PinLine(addr, fp)] + [""]
  {
    FieldsOfPin(addr, fp);
    var parts := Split(content, '\n');
    var init, last := parts[..|parts| - 1], parts[|parts| - 1];
    assert parts == init + [last];
    SplitPieces(content, '\n');
    JoinOfSplit(content, '\n');
    JoinGlue(init, last, PinLine(addr, fp));
    assert last in parts;
    SplitOfJoin(init + [last + PinLine(addr, fp)], '\n');
    SplitAppend(content + PinLine(addr, fp), '\n', "");
    assert Remember(content, addr, fp) == content + PinLine(addr, fp) + "\n" + "";
  }

  lemma {:induction false} JoinGlue(init: seq<string>, last: string, more: string)
    ensures Join(init + [last], '\n') + more == Join(init + [last + more], '\n')
  {
    if init != [] {
      assert (init + [last])[1..] == init[1..] + [last];
      assert (init + [last + more])[1..] == init[1..] + [last + more];
      JoinGlue(init[1..], last, more);
    }
  }

  function FirstPieces(content: string): seq<string> {
    var parts := Split(content, '\n');
    parts[..|parts| - 1]
  }

  function OrElse(a: Option<string>, b: Option<string>): Option<string> {
    if a.Some? then a else b
  }

  /** The lookup before and after a line has been appended. */
  lemma {:induction false} LookupAround(content: string, addr: string, fp: string, other: string)
    requires Word(addr) && Word(fp)
    ensures Lookup(content, other)
         == OrElse(LookupLines(FirstPieces(content), other), LookupLines([LastPiece(content)], other))
    ensures Lookup(Remember(content, addr, fp), other)
         == OrElse(LookupLines(FirstPieces(content), other),
                   LookupLines([LastPiece(content) + PinLine(addr, fp)], other))
  {
    var init, last := FirstPieces(content), LastPiece(content);
    var line := last + PinLine(addr, fp);
    assert Split(content, '\n') == init + [last];
    RememberLines(content, addr, fp);
    LookupSplit(content, other);
    LookupSplit(Remember(content, addr, fp), other);
    LookupAppend(init, [last], other);
    LookupAppend(init + [line], [""], other);
    LookupAppend(init, [line], other);
    assert LookupLines([""], other).None?;
  }

  /** In a file whose last piece is blank, remembering pins a new address and leaves the others as they are. */
  lemma {:induction false} RememberEffect(content: string, addr: string, fp: string, other: string)
    requires Word(addr) && Word(fp) && AllSpace(LastPiece(content))
    requires Lookup(content, addr).None?
    ensures Lookup(Remember(content, addr, fp), other)
         == if other == addr && addr[0] != '#' then Some(fp) else Lookup(content, other)
  {
    LookupAround(content, addr, fp, other);
    LookupAround(content, addr, fp, addr);
    BlankThenPin(LastPiece(content), addr, fp, other);
  }

  lemma {:induction false} BlankThenPin(blank: string, addr: string, fp: string, other: string)
    requires Word(addr) && Word(fp) && AllSpace(blank)
    ensures LookupLines([blank], other) == None
    ensures LookupLines([blank + PinLine(addr, fp)], other)
         == if other == addr && addr[0] != '#' then Some(fp) else None
  {
    FieldsEmpty(blank);
    FieldsSkip(blank, PinLine(addr, fp));
    PinLineLookup(addr, fp, other);
    assert [blank][1..] == [];
  }

  /**
   * The appended line counts exactly when it starts a line of its own: what the file holds after
   * its last newline must be blank. A file edited by hand may end otherwise.
   */
  lemma {:induction false} RememberedExactly(content: string, addr: string, fp: string)
    requires Pinnable(addr) && Word(fp) && fp != addr && Lookup(content, addr).None?
    ensures Lookup(Remember(content, addr, fp), addr) == Some(fp) <==> AllSpace(LastPiece(content))
  {
    if AllSpace(LastPiece(content)) {
      RememberEffect(content, addr, fp, addr);
    } else {
      RememberGlued(content, addr, fp);
    }
  }

  lemma {:induction false} RememberGlued(content: string, addr: string, fp: string)
    requires Pinnable(addr) && Word(fp) && fp != addr && Lookup(content, addr).None?
    requires !AllSpace(LastPiece(content))
    ensures Lookup(Remember(content, addr, fp), addr) != Some(fp)
  {
    var last := LastPiece(content);
    LookupAround(content, addr, fp, addr);
    assert [last][1..] == [] && [last + PinLine(addr, fp)][1..] == [];
    assert !Pins(last, addr);
    GluedFields(last, addr, fp);
  }

  /** A line that had something on it does not come to pin the address to the fingerprint. */
  lemma {:induction false} GluedFields(last: string, addr: string, fp: string)
    requires Pinnable(addr) && Word(fp) && fp != addr && !AllSpace(last) && !Pins(last, addr)
    ensures var line := last + PinLine(addr, fp); !(Pins(line, addr) && Fields(line)[1] == fp)
  {
    var line := last + PinLine(addr, fp);
    FieldsEmpty(last);
    if IsSpace(last[|last| - 1]) {
      FieldsOfPin(addr, fp);
      FieldsAppend(last, PinLine(addr, fp));
      assert Fields(line) == Fields(last) + [addr, fp];
    } else {
      var front, word := GluedWord(last, addr, fp);
      assert |word + addr| > |addr|;
    }
  }

  lemma {:induction false} GluedPin(word: string, addr: string, fp: string)
    ensures word + PinLine(addr, fp) == PinLine(word + addr, fp)
  {
    AppendAssoc(word, addr + " ", fp);
    AppendAssoc(word, addr, " ");
  }

  lemma {:induction false} GluedWord(last: string, addr: string, fp: string) returns (front: string, word: string)
    requires Word(addr) && Word(fp) && last != "" && !IsSpace(last[|last| - 1])
    ensures word != ""
    ensures Fields(last) == Fields(front) + [word]
    ensures Fields(last + PinLine(addr, fp)) == Fields(front) + [word + addr, fp]
  {
    hide Fields;
    front, word := SplitLastWord(last);
    assert word == "" ==> last == front;
    GluedPin(word, addr, fp);
    FieldsOfPin(word + addr, fp);
    FieldsAppend(front, PinLine(word + addr, fp));
    AppendAssoc(front, word, PinLine(addr, fp));
  }

  // ---------------------------------------------------------------- the effect of pinning

  lemma {:induction false} KeptLookup(lines: seq<string>, addr: string, other: string)
    ensures other != addr ==> LookupLines(KeptLines(lines, addr), other) == LookupLines(lines, other)
    ensures forall l :: l in KeptLines(lines, addr) ==> l in lines && !StartsWithField(l, addr)
  {
    if lines != [] {
      var init, last := lines[..|lines| - 1], lines[|lines| - 1];
      assert lines == init + [last];
      KeptLookup(init, addr, other);
      LookupAppend(init, [last], other);
      var kept := if !StartsWithField(last, addr) && TrimSpace(last) != "" then [last] else [];
      LookupAppend(KeptLines(init, addr), kept, other);
      FieldsEmpty(last);
      assert [last][1..] == [];
    }
  }

  lemma {:induction false} PinSplit(content: string, addr: string, fp: string)
    requires Word(addr) && Word(fp)
    ensures Split(Pin(content, addr, fp), '\n') == KeptLines(Split(content, '\n'), addr) + [PinLine(addr, fp)] + [""]
  {
    var kept := KeptLines(Split(content, '\n'), addr);
    FieldsOfPin(addr, fp);
    SplitPieces(content, '\n');
    KeptLookup(Split(content, '\n'), addr, addr);
    SplitOfJoin(kept + [PinLine(addr, fp)], '\n');
    SplitAppend(Join(kept + [PinLine(addr, fp)], '\n'), '\n', "");
    assert Pin(content, addr, fp) == Join(kept + [PinLine(addr, fp)], '\n') + "\n" + "";
  }

  function CountLines(lines: seq<string>, addr: string): nat {
    if lines == [] then 0
    else CountLines(lines[..|lines| - 1], addr) + if StartsWithField(lines[|lines| - 1], addr) then 1 else 0
  }

  lemma {:induction false} CountNone(lines: seq<string>, addr: string)
    requires forall l :: l in lines ==> !StartsWithField(l, addr)
    ensures CountLines(lines, addr) == 0
  {
    if lines != [] {
      CountNone(lines[..|lines| - 1], addr);
    }
  }

  lemma {:induction false} PinLookup(content: string, addr: string, fp: string, other: string)
    requires Word(addr) && Word(fp)
    ensures Lookup(Pin(content, addr, fp), other)
         == OrElse(LookupLines(KeptLines(Split(content, '\n'), addr), other), LookupLines([PinLine(addr, fp)], other))
  {
    hide Split, KeptLines, Lookup, LookupLines, Pin, PinLine;
    var kept := KeptLines(Split(content, '\n'), addr);
    PinSplit(content, addr, fp);
    LookupSplit(Pin(content, addr, fp), other);
    LookupAppend(kept + [PinLine(addr, fp)], [""], other);
    LookupAppend(kept, [PinLine(addr, fp)], other);
    NothingPinned(other);
  }

  lemma {:induction false} NothingPinned(addr: string)
    ensures LookupLines([""], addr) == None
  {}

  lemma {:induction false} PinCount(content: string, addr: string, fp: string)
    requires Word(addr) && Word(fp)
    ensures CountLines(Split(Pin(content, addr, fp), '\n'), addr) == 1
  {
    var kept := KeptLines(Split(content, '\n'), addr);
    PinSplit(content, addr, fp);
    KeptLookup(Split(content, '\n'), addr, addr);
    CountKeptAndPin(kept, addr, fp);
  }

  lemma {:induction false} CountKeptAndPin(kept: seq<string>, addr: string, fp: string)
    requires Word(addr) && Word(fp) && forall l :: l in kept ==> !StartsWithField(l, addr)
    ensures CountLines(kept + [PinLine(addr, fp)] + [""], addr) == 1
  {
    CountNone(kept, addr);
    FieldsOfPin(addr, fp);
  }

  /** Pinning leaves exactly one line for the address, and no lookup of another address changes. */
  lemma {:induction false} PinEffect(content: string, addr: string, fp: string, other: string)
    requires Word(addr) && Word(fp)
    ensures CountLines(Split(Pin(content, addr, fp), '\n'), addr) == 1
    ensures other != addr ==> Lookup(Pin(content, addr, fp), other) == Lookup(content, other)
    ensures Lookup(Pin(content, addr, fp), addr) == if addr[0] != '#' then Some(fp) else None
    ensures Terminated(Pin(content, addr, fp))
  {
    PinCount(content, addr, fp);
    PinLookup(content, addr, fp, other);
    PinLookup(content, addr, fp, addr);
    KeptLookup(Split(content, '\n'), addr, other);
    LookupNone(KeptLines(Split(content, '\n'), addr), addr);
    LookupSplit(content, other);
    PinLineLookup(addr, fp, other);
    PinLineLookup(addr, fp, addr);
  }

  // ---------------------------------------------------------------- whole histories

  /** Dials and pins, each taken under the lock of the file. */
  datatype Event =
    | Dial(addr: string, fp: string, trustNewAgents: bool)
    | PinTo(addr: string, fp: string)

  predicate WellFormed(e: Event) {
    Pinnable(e.addr) && Word(e.fp)
  }

  function Step(content: string, e: Event): string {
    match e
    case Dial(addr, fp, trust) => if Lookup(content, addr).None? && trust then Remember(content, addr, fp) else content
    case PinTo(addr, fp) => Pin(content, addr, fp)
  }

  function Replay(content: string, events: seq<Event>): string {
    if events == [] then content else Step(Replay(content, events[..|events| - 1]), events[|events| - 1])
  }

  /** What an address is bound to: the last pin, or else what was known, or else the first dial that trusted it. */
  function Bound(start: Option<string>, events: seq<Event>, addr: string): Option<string> {
    if events == [] then start
    else
      var before := Bound(start, events[..|events| - 1], addr);
      var e := events[|events| - 1];
      if e.addr != addr then before
      else
        match e
        case PinTo(_, fp) => Some(fp)
        case Dial(_, fp, trust) => if before.None? && trust then Some(fp) else before
  }

  /** Whatever the file was, what is written to it ends in a newline. */
  lemma {:induction false} WrittenEnds(content: string, addr: string, fp: string)
    requires Word(addr) && Word(fp)
    ensures AllSpace(LastPiece(Remember(content, addr, fp)))
    ensures AllSpace(LastPiece(Pin(content, addr, fp)))
  {
    hide Fields, Split, KeptLines;
    RememberLines(content, addr, fp);
    PinSplit(content, addr, fp);
  }

  lemma {:induction false} ReplayAppend(content: string, a: seq<Event>, b: seq<Event>)
    ensures Replay(content, a + b) == Replay(Replay(content, a), b)
  {
    if b == [] {
      assert a + b == a;
    } else {
      assert (a + b)[..|a + b| - 1] == a + b[..|b| - 1];
      ReplayAppend(content, a, b[..|b| - 1]);
    }
  }

  lemma {:induction false} BoundAppend(start: Option<string>, a: seq<Event>, b: seq<Event>, addr: string)
    ensures Bound(start, a + b, addr) == Bound(Bound(start, a, addr), b, addr)
  {
    if b == [] {
      assert a + b == a;
    } else {
      assert (a + b)[..|a + b| - 1] == a + b[..|b| - 1];
      BoundAppend(start, a, b[..|b| - 1], addr);
    }
  }

  /** One event binds as the history says, if the file ends in a blank piece or the event is a pin. */
  lemma {:induction false} StepBinds(content: string, e: Event, addr: string)
    requires WellFormed(e) && (e.PinTo? || AllSpace(LastPiece(content)))
    ensures Lookup(Step(content, e), addr) == Bound(Lookup(content, addr), [e], addr)
    ensures AllSpace(LastPiece(content)) || e.PinTo? ==> AllSpace(LastPiece(Step(content, e)))
  {
    hide Lookup, Remember, Pin, LastPiece, AllSpace;
    assert [e][..0] == [];
    WrittenEnds(content, e.addr, e.fp);
    match e {
      case Dial(a, fp, trust) =>
        if Lookup(content, a).None? && trust {
          RememberEffect(content, a, fp, addr);
        }
      case PinTo(a, fp) =>
        PinEffect(content, a, fp, addr);
    }
  }

  lemma {:induction false} BlankBinds(content: string, events: seq<Event>, addr: string)
    requires AllSpace(LastPiece(content)) && forall e :: e in events ==> WellFormed(e)
    ensures AllSpace(LastPiece(Replay(content, events)))
    ensures Lookup(Replay(content, events), addr) == Bound(Lookup(content, addr), events, addr)
  {
    hide Step, Lookup, LastPiece, AllSpace, WellFormed;
    if events != [] {
      var init, e := events[..|events| - 1], events[|events| - 1];
      assert events == init + [e];
      BlankBinds(content, init, addr);
      StepBinds(Replay(content, init), e, addr);
      BoundAppend(Lookup(content, addr), init, [e], addr);
    }
  }

  /** An event that changes the file. */
  predicate Writes(content: string, e: Event) {
    e.PinTo? || (Lookup(content, e.addr).None? && e.trustNewAgents)
  }

  ghost predicate FirstWrite(content: string, events: seq<Event>, n: nat) {
    n < |events| && Writes(content, events[n]) && forall i :: 0 <= i < n ==> !Writes(content, events[i])
  }

  /** The first event that changes the file is a pin, or finds nothing after the last newline. */
  ghost predicate Lands(content: string, events: seq<Event>) {
    forall n: nat :: FirstWrite(content, events, n) ==> events[n].PinTo? || AllSpace(LastPiece(content))
  }

  lemma {:induction false} QuietReplay(content: string, events: seq<Event>, addr: string)
    requires forall e :: e in events ==> !Writes(content, e)
    ensures Replay(content, events) == content
    ensures Bound(Lookup(content, addr), events, addr) == Lookup(content, addr)
  {
    hide Lookup;
    if events != [] {
      var init, e := events[..|events| - 1], events[|events| - 1];
      assert forall x :: x in init ==> x in events;
      QuietReplay(content, init, addr);
      assert e in events && !Writes(content, e);
    }
  }

  lemma {:induction false} FirstWriteExists(content: string, events: seq<Event>)
    ensures (forall e :: e in events ==> !Writes(content, e)) || exists n: nat :: FirstWrite(content, events, n)
  {
    hide Writes;
    if events != [] {
      var init := events[..|events| - 1];
      FirstWriteExists(content, init);
      assert events == init + [events[|events| - 1]];
      if n: nat :| FirstWrite(content, init, n) {
        assert FirstWrite(content, events, n);
      } else if Writes(content, events[|events| - 1]) {
        assert FirstWrite(content, events, |events| - 1);
      }
    }
  }

  /**
   * In every history of every file: from the first event that changes the file on, the file binds each address
   * as the history says; what that event makes of the file is the only question.
   */
  lemma {:induction false} BindsAfterFirst(content: string, events: seq<Event>, n: nat, addr: string)
    requires (forall e :: e in events ==> WellFormed(e)) && FirstWrite(content, events, n)
    ensures Replay(content, events[..n]) == content
    ensures Lookup(Replay(content, events), addr)
      == Bound(Lookup(Step(content, events[n]), addr), events[n + 1..], addr)
    ensures Bound(Lookup(content, addr), events, addr)
         == Bound(Bound(Lookup(content, addr), [events[n]], addr), events[n + 1..], addr)
  {
    hide Lookup, Step, Replay, Bound, Writes, LastPiece, AllSpace, Remember, Pin;
    var before, e, after := events[..n], events[n], events[n + 1..];
    assert events == before + ([e] + after);
    QuietReplay(content, before, addr);
    ReplayAppend(content, before, [e] + after);
    ReplayAppend(content, [e], after);
    ReplayOne(content, e);
    BoundAppend(Lookup(content, addr), before, [e] + after, addr);
    BoundAppend(Lookup(content, addr), [e], after, addr);
    WriteEnds(content, e);
    BlankBinds(Step(content, e), after, addr);
  }

  lemma {:induction false} ReplayOne(content: string, e: Event)
    ensures Replay(content, [e]) == Step(content, e)
  {
    assert [e][..0] == [];
  }

  lemma {:induction false} WriteEnds(content: string, e: Event)
    requires WellFormed(e) && Writes(content, e)
    ensures AllSpace(LastPiece(Step(content, e)))
  {
    hide Lookup, Remember, Pin, LastPiece, AllSpace;
    WrittenEnds(content, e.addr, e.fp);
  }

  /** The file binds each address as the history says, if the first change of the file lands on a line of its own. */
  lemma {:induction false} ReplayBinds(content: string, events: seq<Event>, addr: string)
    requires (forall e :: e in events ==> WellFormed(e)) && Lands(content, events)
    ensures Lookup(Replay(content, events), addr) == Bound(Lookup(content, addr), events, addr)
  {
    hide Lookup, Step, Replay, Bound, Writes, LastPiece, AllSpace, WellFormed;
    FirstWriteExists(content, events);
    if n: nat :| FirstWrite(content, events, n) {
      BindsAfterFirst(content, events, n, addr);
      StepBinds(content, events[n], addr);
    } else {
      QuietReplay(content, events, addr);
    }
  }

  /** Exactly then it does so all along. A fingerprint is told from an address by its form. */
  lemma {:induction false} BindsExactly(content: string, events: seq<Event>)
    requires forall e :: e in events ==> WellFormed(e) && e.fp != e.addr
    ensures (forall n: nat, addr :: n <= |events| ==>
        Lookup(Replay(content, events[..n]), addr) == Bound(Lookup(content, addr), events[..n], addr))
      <==> Lands(content, events)
  {
    hide Lookup, Step, Replay, Bound, Writes, LastPiece, AllSpace, WellFormed;
    if Lands(content, events) {
      forall n: nat, addr | n <= |events|
        ensures Lookup(Replay(content, events[..n]), addr) == Bound(Lookup(content, addr), events[..n], addr)
      {
        forall m: nat | FirstWrite(content, events[..n], m) ensures FirstWrite(content, events, m) {}
        ReplayBinds(content, events[..n], addr);
      }
    } else {
      var n: nat :| FirstWrite(content, events, n) && !(events[n].PinTo? || AllSpace(LastPiece(content)));
      MissesAt(content, events, n);
      assert n + 1 <= |events|;
    }
  }

  lemma {:induction false} MissesAt(content: string, events: seq<Event>, n: nat)
    requires FirstWrite(content, events, n) && events[n].Dial? && !AllSpace(LastPiece(content))
    requires WellFormed(events[n]) && events[n].fp != events[n].addr
    ensures var addr := events[n].addr;
      Lookup(Replay(content, events[..n + 1]), addr) != Bound(Lookup(content, addr), events[..n + 1], addr)
  {
    hide Lookup, LastPiece, AllSpace, Remember, Pin;
    var e := events[n];
    assert events[..n + 1][..n] == events[..n];
    QuietReplay(content, events[..n], e.addr);
    RememberGlued(content, e.addr, e.fp);
  }

  /**
   * Every accepted connection presents the fingerprint its address is bound to, or is the one
   * that binds it; a bound address is bound to what was pinned or remembered for it.
   */
  lemma {:induction false} AcceptedPresentsBound(
      content: string, events: seq<Event>, addr: string, fp: string, trust: bool)
    requires (forall e :: e in events ==> WellFormed(e)) && Lands(content, events)
    requires Pinnable(addr) && Word(fp)
    ensures var bound := Bound(Lookup(content, addr), events, addr);
      && (Accepts(Replay(content, events), addr, fp, trust) <==> bound == Some(fp) || (bound.None? && trust))
      && (Accepts(Replay(content, events), addr, fp, trust) ==>
            Bound(Lookup(content, addr), events + [Dial(addr, fp, trust)], addr) == Some(fp))
  {
    hide Lookup, Replay, Lands;
    ReplayBinds(content, events, addr);
    assert (events + [Dial(addr, fp, trust)])[..|events|] == events;
  }
}
