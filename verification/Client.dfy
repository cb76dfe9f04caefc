  /** The client: how its line reaches the agent, and what it makes of the agent's reply. */
module Client {
  import opened Text
  import opened Replies
  import opened Protocol

  // ---------------------------------------------------------------- reading a reply

  /** The read loop of runRemoteCommandToString over everything the agent sends. */
  function ClientRead(stream: string): string
    decreases |stream|
  {
    match Cut(stream, '\n')
    case None => if TrimSpace(stream) == DONE then "" else stream
    case Some((line, rest)) => if TrimSpace(line + "\n") == DONE then "" else line + "\n" + ClientRead(rest)
  }

  method RunRemoteCommandToString(stream: string) returns (sb: string)
    ensures sb == ClientRead(stream)
  {
    sb := "";
    var rest := stream;
    while true
      invariant ClientRead(stream) == sb + ClientRead(rest)
      decreases |rest|
    {
      var cut := Cut(rest, '\n');
      var line := if cut.Some? then cut.value.0 + "\n" else rest;
      var done := TrimSpace(line) == DONE;
      if line != "" && !done {
        sb := sb + line;
      }
      if cut.None? || done {
        break;
      }
      rest := cut.value.1;
    }
  }

  predicate IsSentinel(line: string) {
    TrimSpace(line) == DONE
  }

  lemma {:induction false} TrimNewline(line: string)
    ensures TrimSpace(line + "\n") == TrimSpace(line)
  {
    var left, right := TrimSpaceSplits(line);
    TrimSpaceOfPadded(left, TrimSpace(line), right + "\n");
    assert line + "\n" == left + TrimSpace(line) + (right + "\n");
  }

  lemma {:induction false} ClientStep(line: string, rest: string)
    requires OneLine(line)
    ensures ClientRead(line + "\n" + rest) == if IsSentinel(line) then "" else line + "\n" + ClientRead(rest)
  {
    CutAt(line, '\n', rest);
    TrimNewline(line);
  }

  /** The client stops at the first line that trims to the sentinel. */
  lemma {:induction false} ClientStops(lines: seq<string>, rest: string) returns (k: nat)
    requires forall l :: l in lines ==> OneLine(l)
    ensures k <= |lines| && (forall i :: 0 <= i < k ==> !IsSentinel(lines[i])) && (k < |lines| ==> IsSentinel(lines[k]))
    ensures ClientRead(Unlines(lines) + (DONE + "\n" + rest)) == Unlines(lines[..k])
  {
    hide IsSentinel, ClientRead;
    var tail := DONE + "\n" + rest;
    if lines == [] {
      k := 0;
      DoneIsSentinel();
      ClientStep(DONE, rest);
      assert Unlines(lines) + tail == tail;
    } else {
      var after := Unlines(lines[1..]) + tail;
      assert Unlines(lines) + tail == lines[0] + "\n" + after;
      ClientStep(lines[0], after);
      if IsSentinel(lines[0]) {
        k := 0;
      } else {
        k := ClientStops(lines[1..], rest);
        k := k + 1;
        assert lines[..k][1..] == lines[1..][..k - 1];
      }
    }
  }

  /**
   * If the agent goes away before any sentinel, the client returns all it has received, down to the last piece of a
   * line.
   */
  lemma {:induction false} ClientWithoutSentinel(stream: string)
    requires forall l :: l in RawLines(stream) ==> !IsSentinel(l)
    ensures ClientRead(stream) == stream
    decreases |stream|
  {
    hide IsSentinel;
    match Cut(stream, '\n') {
      case None =>
        SplitWhole(stream, '\n');
        if stream != "" {
          assert stream in RawLines(stream);
          NotTheSentinel(stream);
        }
      case Some(pair) =>
        SplitFirst(pair.0, '\n', pair.1);
        assert stream == pair.0 + ['\n'] + pair.1;
        PiecesAfter(stream, pair.0, pair.1);
        TrimNewline(pair.0);
        NotTheSentinel(pair.0);
        ClientWithoutSentinel(pair.1);
    }
  }

  lemma {:induction false} NotTheSentinel(line: string)
    requires !IsSentinel(line)
    ensures TrimSpace(line) != DONE
  {}

  lemma {:induction false} PiecesAfter(stream: string, line: string, rest: string)
    requires Split(stream, '\n') == [line] + Split(rest, '\n')
    ensures line in RawLines(stream) && forall l :: l in RawLines(rest) ==> l in RawLines(stream)
  {
    var parts := Split(rest, '\n');
    assert ([line] + parts)[..|parts|] == [line] + parts[..|parts| - 1];
  }

  lemma {:induction false} DoneIsSentinel()
    ensures OneLine(DONE) && IsSentinel(DONE)
  {
    TrimSelf(DONE);
  }

  lemma {:induction false} UnlinesShorter(lines: seq<string>, k: nat)
    requires k < |lines|
    ensures Unlines(lines[..k]) != Unlines(lines)
  {
    assert lines == lines[..k] + lines[k..];
    UnlinesAppend(lines[..k], lines[k..]);
    assert Unlines(lines[k..]) != "";
  }

  /** A terminated text is its lines. */
  lemma {:induction false} TerminatedLines(s: string)
    requires Terminated(s)
    ensures s == Unlines(RawLines(s)) && forall l :: l in RawLines(s) ==> OneLine(l)
  {
    var lines := LinesOf(s);
    RawLinesOfUnlines(lines);
  }

  lemma {:induction false} LinesOf(s: string) returns (lines: seq<string>)
    requires Terminated(s)
    ensures s == Unlines(lines) && forall l :: l in lines ==> OneLine(l)
    decreases |s|
  {
    if s == "" {
      lines := [];
    } else {
      var pair := Cut(s, '\n').value;
      assert s == pair.0 + ['\n'] + pair.1;
      assert pair.1 != "" ==> pair.1[|pair.1| - 1] == s[|s| - 1];
      lines := LinesOf(pair.1);
      lines := [pair.0] + lines;
    }
  }

  /** The client gets exactly the payload, if and only if no line of it trims to the sentinel. */
  lemma {:induction false} ClientGetsPayload(payload: string, rest: string)
    requires Terminated(payload)
    ensures ClientRead(payload + (DONE + "\n" + rest)) == payload
      <==> forall l :: l in RawLines(payload) ==> !IsSentinel(l)
  {
    hide IsSentinel, ClientRead, RawLines;
    TerminatedLines(payload);
    var lines := RawLines(payload);
    var k := ClientStops(lines, rest);
    if k < |lines| {
      UnlinesShorter(lines, k);
    } else {
      assert lines[..k] == lines;
    }
  }

  // ---------------------------------------------------------------- from the client to the agent and back

  /** The line the client sends. */
  function ClientLine(args: seq<string>): string {
    Join(args, ' ') + "\n"
  }

  /** The first line of what arrives, as bufio.Scanner delivers it. */
  function ReceivedLine(stream: string): string {
    match Cut(stream, '\n')
    case Some((line, _)) => DropCR(line)
    case None => DropCR(stream)
  }

  function ServerParts(line: string): seq<string> {
    Fields(TrimSpace(line))
  }

  /** The agent takes a command apart into the client's arguments exactly when each of them is a word. */
  lemma {:induction false} CommandReceived(args: seq<string>, later: string)
    ensures ServerParts(ReceivedLine(ClientLine(args) + later)) == args <==> forall a :: a in args ==> Word(a)
  {
    var stream := ClientLine(args) + later;
    FieldsAreWords(TrimSpace(ReceivedLine(stream)));
    if forall a :: a in args ==> Word(a) {
      var line := Join(args, ' ');
      JoinPlain(args);
      FieldsOfJoin(args);
      assert stream == line + ['\n'] + later;
      CutAt(line, '\n', later);
      TrimSelf(line);
      assert DropCR(line) == line;
    }
  }

  /** "auth <user> <password>", the only first line the agent accepts. */
  function ParseAuth(line: string): Option<(string, string)> {
    match Cut(TrimSpace(line), ' ')
    case None => None
    case Some((word, rest)) => if word == "auth" then Cut(rest, ' ') else None
  }

  function AuthLine(user: string, password: string): string {
    "auth " + user + " " + password + "\n"
  }

  /** The agent reads back the client's credentials exactly for these. */
  predicate Sendable(user: string, password: string) {
    ' ' !in user && OneLine(user) && password != "" && OneLine(password) && EndsTrimmed(password)
  }

  lemma {:induction false} AuthReceived(user: string, password: string, later: string)
    ensures ParseAuth(ReceivedLine(AuthLine(user, password) + later)) == Some((user, password))
      <==> Sendable(user, password)
  {
    var stream := AuthLine(user, password) + later;
    if Sendable(user, password) {
      AuthSent(user, password, later);
    } else {
      var line := ReceivedLine(stream);
      assert OneLine(line);
      if ParseAuth(line).Some? {
        AuthSendable(line);
      }
    }
  }

  lemma {:induction false} AuthSent(user: string, password: string, later: string)
    requires Sendable(user, password)
    ensures ParseAuth(ReceivedLine(AuthLine(user, password) + later)) == Some((user, password))
  {
    var line := "auth" + [' '] + (user + [' '] + password);
    assert AuthLine(user, password) + later == line + ['\n'] + later;
    assert OneLine("auth") && ' ' !in "auth";
    CutAt(line, '\n', later);
    assert line[0] == 'a' && line[|line| - 1] == password[|password| - 1];
    assert DropCR(line) == line;
    TrimSelf(line);
    CutAt("auth", ' ', user + [' '] + password);
    CutAt(user, ' ', password);
  }

  /** Whatever line is read as credentials, they could have been sent. */
  lemma {:induction false} AuthSendable(line: string)
    requires OneLine(line) && ParseAuth(line).Some?
    ensures Sendable(ParseAuth(line).value.0, ParseAuth(line).value.1)
  {
    var t := TrimSpace(line);
    var left, right := TrimSpaceSplits(line);
    assert OneLine(t);
    var (word, rest) := Cut(t, ' ').value;
    var (user, password) := Cut(rest, ' ').value;
    assert t == word + [' '] + rest && rest == user + [' '] + password;
    assert forall c :: c in rest ==> c in t;
    assert t[|t| - 1] == rest[|rest| - 1];
    assert rest[|rest| - 1] == if password == "" then ' ' else password[|password| - 1];
  }

  function Greeting(user: string, role: string): string {
    "OK - authenticated as " + user + " (" + role + ")\n"
  }

  const AUTH_REQUIRED := "ERROR - authentication required: " + "first line must be 'auth <user> <password>'\n"
  const AUTH_FAILED := "ERROR - authentication failed\n"

  /** The start of handleConnection; `check` gives the role of a user with the right password. */
  method Authenticate(cc: ClientConn, line: string, check: (string, string) -> Option<string>)
    returns (session: Option<(string, string)>)
    modifies cc
    ensures session == match ParseAuth(line) {
      case Some((user, password)) =>
        (match check(user, password) { case Some(role) => Some((user, role)) case None => None })
      case None => None
    }
    ensures session.Some? ==> cc.out == old(cc.out) + [Say(Greeting(session.value.0, session.value.1))]
    ensures session.None? ==>
      cc.out == old(cc.out) + [Say(if ParseAuth(line).None? then AUTH_REQUIRED else AUTH_FAILED)]
  {
    var parts := ParseAuth(line);
    if parts.None? {
      cc.Write(AUTH_REQUIRED);
      return None;
    }
    var role := check(parts.value.0, parts.value.1);
    if role.None? {
      cc.Write(AUTH_FAILED);
      return None;
    }
    cc.Write(Greeting(parts.value.0, role.value));
    session := Some((parts.value.0, role.value));
  }

  /** openAgentSession: what is left to read, if the first line says OK. */
  function OpenSession(stream: string): Option<string> {
    match Cut(stream, '\n')
    case None => None
    case Some((reply, rest)) => if "OK" <= reply then Some(rest) else None
  }

  /** The client takes the greeting, and only the greeting, off the stream. */
  lemma {:induction false} SessionOpens(user: string, role: string, rest: string)
    requires OneLine(user) && OneLine(role)
    ensures OpenSession(Greeting(user, role) + rest) == Some(rest)
  {
    var line := "OK - authenticated as " + user + " (" + role + ")";
    assert OneLine("OK - authenticated as ") && OneLine(" (") && OneLine(")");
    assert Greeting(user, role) + rest == line + ['\n'] + rest;
    CutAt(line, '\n', rest);
    assert line[..2] == "OK";
  }

  /** A session opens exactly where a first line that begins with OK has ended, and that line alone is read. */
  lemma {:induction false} OpensExactly(stream: string, rest: string)
    ensures OpenSession(stream) == Some(rest)
        <==> exists reply :: OneLine(reply) && "OK" <= reply && stream == reply + ['\n'] + rest
  {
    forall reply | OneLine(reply) && "OK" <= reply && stream == reply + ['\n'] + rest
      ensures OpenSession(stream) == Some(rest)
    {
      CutAt(reply, '\n', rest);
    }
  }

  /** A client whose credentials are refused opens no session. */
  lemma {:induction false} SessionRefused(rest: string)
    ensures OpenSession(AUTH_REQUIRED + rest) == None && OpenSession(AUTH_FAILED + rest) == None
  {
    assert AUTH_REQUIRED[0] == 'E';
    ErrorOpensNothing(AUTH_REQUIRED, rest);
    assert AUTH_FAILED[0] == 'E';
    ErrorOpensNothing(AUTH_FAILED, rest);
  }

  lemma {:induction false} ErrorOpensNothing(text: string, rest: string)
    requires text != "" && text[0] == 'E'
    ensures OpenSession(text + rest) == None
  {
    if Cut(text + rest, '\n').Some? {
      var (reply, later) := Cut(text + rest, '\n').value;
      assert (text + rest)[0] == (reply + ['\n'] + later)[0];
      assert "OK"[0] == 'O';
    }
  }

  // ---------------------------------------------------------------- one command, end to end

  /** All the pieces the agent sends for one command. */
  function Sent(o: Outcome, e: Ending): seq<Piece> {
    match o
    case Inline(_) => Writes(o)
    case Started(_) => Writes(o) + Writes(Inline(LateTexts(e)))
  }

  lemma {:induction false} SentShape(o: Outcome, e: Ending)
    ensures Sent(o, e) == Says(Texts(o, e)) + [Sentinel]
  {}

  lemma {:induction false} WireOfSays(texts: seq<string>)
    ensures Wire(Says(texts)) == Concat(texts)
  {
    if texts != [] {
      WireOfSays(texts[..|texts| - 1]);
      assert Says(texts)[..|texts| - 1] == Says(texts[..|texts| - 1]);
    }
  }

  lemma {:induction false} WireOfSent(texts: seq<string>)
    ensures Wire(Says(texts) + [Sentinel]) == Concat(texts) + (DONE + "\n")
  {
    WireOfSays(texts);
    var pieces := Says(texts) + [Sentinel];
    assert pieces[..|pieces| - 1] == Says(texts);
  }

  lemma {:induction false} ConcatTerminated(texts: seq<string>)
    requires AllTerminated(texts)
    ensures Terminated(Concat(texts))
  {
    if texts != [] {
      var init, last := texts[..|texts| - 1], texts[|texts| - 1];
      assert Terminated(last);
      ConcatTerminated(init);
    }
  }

  /** What a client that authenticates and sends one command returns, None if it finds no greeting. */
  function Heard(o: Outcome, e: Ending, user: string, role: string, rest: string): Option<string> {
    match OpenSession(Greeting(user, role) + (Wire(Sent(o, e)) + rest))
    case Some(stream) => Some(ClientRead(stream))
    case None => None
  }

  /** The client returns the texts of its command, if and only if no line trims to the sentinel. */
  lemma {:induction false} ClientOf(o: Outcome, e: Ending, user: string, role: string, rest: string)
    requires OneLine(user) && OneLine(role) && AllTerminated(Texts(o, e))
    ensures Sentinels(Sent(o, e)) == 1
    ensures Heard(o, e, user, role, rest) == Some(Concat(Texts(o, e)))
      <==> forall l :: l in RawLines(Concat(Texts(o, e))) ==> !IsSentinel(l)
  {
    hide Wire, Sent, Says, Texts, Concat, ClientRead, OpenSession, Greeting, RawLines, IsSentinel, Terminated;
    var texts := Texts(o, e);
    var payload := Concat(texts);
    SentShape(o, e);
    OneSentinel(texts);
    WireOfSent(texts);
    SessionOpens(user, role, Wire(Sent(o, e)) + rest);
    ConcatTerminated(texts);
    ClientGetsPayload(payload, rest);
    assert payload + (DONE + "\n") + rest == payload + (DONE + "\n" + rest);
  }

  /**
   * A one-command client: the agent sees the client's words exactly when each argument is one, and whatever it
   * sees, it sends exactly one sentinel, and the client returns exactly the texts of the command that was seen
   * if and only if none of their lines trims to the sentinel.
   */
  lemma {:induction false} OneCommandClient(
      args: seq<string>, user: string, role: string, env: Env, world: World, f: Flags, o: Outcome,
      files: map<string, string>, e: Ending, rest: string)
    requires OneLine(user) && OneLine(role)
    requires ServerParts(ReceivedLine(ClientLine(args))) != []
    requires Outcomes(env, world, ServerParts(ReceivedLine(ClientLine(args))), user, role, f, o)
    requires o.Started? ==> EndOf(env, files, ServerParts(ReceivedLine(ClientLine(args))), e)
    ensures ServerParts(ReceivedLine(ClientLine(args))) == args <==> forall a :: a in args ==> Word(a)
    ensures Sentinels(Sent(o, e)) == 1
    ensures Heard(o, e, user, role, rest) == Some(Concat(Texts(o, e)))
      <==> forall l :: l in RawLines(Concat(Texts(o, e))) ==> !IsSentinel(l)
  {
    hide *;
    CommandReceived(args, "");
    assert ClientLine(args) + "" == ClientLine(args);
    TextsTerminated(env, world, ServerParts(ReceivedLine(ClientLine(args))), user, role, f, o, files, e);
    ClientOf(o, e, user, role, rest);
  }

  lemma {:induction false} MarkIsNoSentinel(line: string, mark: char)
    requires mark in line && !IsSpace(mark) && mark !in DONE
    ensures !IsSentinel(line)
  {
    var left, right := TrimSpaceSplits(line);
    assert mark in left + TrimSpace(line) + right;
  }
}
