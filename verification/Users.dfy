/** The users file: a map from names to roles and password hashes, kept as lines of text. */
module Users {
  import opened Text
  import opened Order

  // ---------------------------------------------------------------- roles

  const RO := "ro"
  const RW := "rw"
  const ADMIN := "admin"

  function RoleRank(role: string): nat {
    if role == RO then 1 else if role == RW then 2 else if role == ADMIN then 3 else 0
  }

  predicate ValidRole(role: string) {
    RoleRank(role) > 0
  }

  predicate RoleAllows(have: string, need: string) {
    RoleRank(have) >= RoleRank(need) && RoleRank(need) > 0
  }

  /** The role an agent command needs; changing a password is checked further by userCommandAs. */
  function CommandRole(parts: seq<string>): string {
    if parts == [] then RO
    else if parts[0] == "scan" then RW
    else if parts[0] == "schedule" then (if |parts| > 1 && (parts[1] == "add" || parts[1] == "remove") then RW else RO)
    else if parts[0] == "user" then (if |parts| > 1 && parts[1] == "passwd" then RO else ADMIN)
    else RO
  }

  // ---------------------------------------------------------------- the file

  datatype UserRecord = UserRecord(role: string, hash: string)

  type UserMap = map<string, UserRecord>

  /** One line: three fields, or the legacy two fields of an administrator. */
  function ParseUser(line: string): Option<(string, UserRecord)> {
    var t := TrimSpace(line);
    if t == "" || t[0] == '#' then None
    else
      var fields := Split(t, ':');
      if |fields| == 3 && fields[0] != "" && ValidRole(fields[1]) && fields[2] != "" then
        Some((fields[0], UserRecord(fields[1], fields[2])))
      else if |fields| == 2 && fields[0] != "" && fields[1] != "" then Some((fields[0], UserRecord(ADMIN, fields[1])))
      else None
  }

  function LoadLines(lines: seq<string>): UserMap {
    if lines == [] then map[]
    else
      var before := LoadLines(lines[..|lines| - 1]);
      match ParseUser(lines[|lines| - 1])
      case Some((name, user)) => before[name := user]
      case None => before
  }

  predicate IsLineOf(line: string, name: string) {
    ParseUser(line).Some? && ParseUser(line).value.0 == name
  }

  /** The last line of a name counts. */
  lemma {:induction false} LastLineCounts(lines: seq<string>, i: nat)
    requires i < |lines| && ParseUser(lines[i]).Some?
    requires forall j :: i < j < |lines| ==> !IsLineOf(lines[j], ParseUser(lines[i]).value.0)
    ensures var (name, user) := ParseUser(lines[i]).value;
      name in LoadLines(lines) && LoadLines(lines)[name] == user
  {
    hide ParseUser;
    var n := |lines| - 1;
    if i < n {
      assert lines[..n][i] == lines[i] && forall j :: i < j < n ==> lines[..n][j] == lines[j];
      LastLineCounts(lines[..n], i);
      assert !IsLineOf(lines[n], ParseUser(lines[i]).value.0);
    }
  }

  /** A name without a line is not loaded. */
  lemma {:induction false} NoLineNoUser(lines: seq<string>, name: string)
    requires forall j :: 0 <= j < |lines| ==> !IsLineOf(lines[j], name)
    ensures name !in LoadLines(lines)
  {
    hide ParseUser;
    if lines != [] {
      var n := |lines| - 1;
      assert forall j :: 0 <= j < n ==> lines[..n][j] == lines[j];
      NoLineNoUser(lines[..n], name);
      assert !IsLineOf(lines[n], name);
    }
  }

  /** What loadUsers reads; a missing file is an empty database. */
  function Load(content: Option<string>): UserMap {
    if content.None? then map[] else LoadLines(ScanLines(content.value))
  }

  function FileHead(): string {
    "# ship-grip-fim users: name:role:bcrypt-hash" + "  roles: ro, rw, admin"
        + "  (manage with 'ship-grip-fim user ...')"
  }

  function UserLine(name: string, user: UserRecord): string {
    name + ":" + (user.role + ":" + user.hash)
  }

  function UserLines(users: UserMap, names: seq<string>): seq<string>
    requires forall n :: n in names ==> n in users
  {
    seq(|names|, i requires 0 <= i < |names| => assert names[i] in names; UserLine(names[i], users[names[i]]))
  }

  /** A text is a saved users map: a comment line, then the users by name. */
  ghost predicate IsUsersFile(content: string, users: UserMap) {
    exists names :: Lists(names, users.Keys) && (forall n :: n in names ==> n in users)
      && content == Unlines([FileHead()] + UserLines(users, names))
  }

  // ---------------------------------------------------------------- save and load

  /** Users whose name and hash survive a line of the file. */
  predicate StorableUser(name: string, user: UserRecord) {
    && name != "" && !IsSpace(name[0]) && name[0] != '#' && ':' !in name && OneLine(name)
    && ValidRole(user.role)
    && user.hash != "" && EndsTrimmed(user.hash) && ':' !in user.hash && OneLine(user.hash)
  }

  predicate Storable(users: UserMap) {
    forall n :: n in users ==> StorableUser(n, users[n])
  }

  lemma {:induction false} RolePlain(role: string)
    requires ValidRole(role)
    ensures ':' !in role && OneLine(role)
  {}

  lemma {:induction false} TwoParts(parts: seq<string>, sep: char)
    requires |parts| == 2
    ensures Join(parts, sep) == parts[0] + [sep] + parts[1]
  {}

  lemma {:induction false} ThreeParts(parts: seq<string>, sep: char)
    requires |parts| == 3
    ensures Join(parts, sep) == parts[0] + [sep] + (parts[1] + [sep] + parts[2])
  {
    TwoParts(parts[1..], sep);
  }

  /** Whatever a line holds, the user read from it is storable. */
  lemma {:induction false} ParsedStorable(line: string)
    requires OneLine(line) && ParseUser(line).Some?
    ensures StorableUser(ParseUser(line).value.0, ParseUser(line).value.1)
  {
    var t := TrimSpace(line);
    var left, right := TrimSpaceSplits(line);
    assert OneLine(t);
    var fields := Split(t, ':');
    SplitPieces(t, ':');
    JoinOfSplit(t, ':');
    if |fields| == 3 {
      ThreeParts(fields, ':');
    } else {
      TwoParts(fields, ':');
    }
    var last := fields[|fields| - 1];
    assert t[0] == fields[0][0] && t[|t| - 1] == last[|last| - 1];
    forall c | c in fields[0] || c in last ensures c in t {}
  }

  /** A line of two fields, as older files have them, is an administrator; one of three has its role in the middle. */
  lemma {:induction false} LinesRead(name: string, role: string, hash: string)
    requires name != "" && !IsSpace(name[0]) && name[0] != '#' && ':' !in name
    requires hash != "" && ':' !in hash && EndsTrimmed(hash)
    ensures ParseUser(name + ":" + hash) == Some((name, UserRecord("admin", hash)))
    ensures role in {"ro", "rw", "admin"} ==>
      ParseUser(name + ":" + role + ":" + hash) == Some((name, UserRecord(role, hash)))
  {
    TwoRead(name, hash);
    if role in {"ro", "rw", "admin"} {
      RolePlain(role);
      UserLineSplits(name, UserRecord(role, hash));
      var line := name + ":" + role + ":" + hash;
      assert line == UserLine(name, UserRecord(role, hash));
      assert Trimmed(line) by {
        assert line[0] == name[0] && line[|line| - 1] == hash[|hash| - 1];
      }
      TrimSelf(line);
    }
  }

  lemma {:induction false} TwoRead(name: string, hash: string)
    requires name != "" && !IsSpace(name[0]) && name[0] != '#' && ':' !in name
    requires hash != "" && ':' !in hash && EndsTrimmed(hash)
    ensures ParseUser(name + ":" + hash) == Some((name, UserRecord("admin", hash)))
  {
    var line := name + ":" + hash;
    assert Trimmed(line) by {
      assert line[0] == name[0] && line[|line| - 1] == hash[|hash| - 1];
    }
    TrimSelf(line);
    SplitFirst(name, ':', hash);
    SplitWhole(hash, ':');
  }

  lemma {:induction false} LoadedLinesStorable(lines: seq<string>)
    requires forall l :: l in lines ==> OneLine(l)
    ensures Storable(LoadLines(lines))
  {
    if lines != [] {
      var last := lines[|lines| - 1];
      LoadedLinesStorable(lines[..|lines| - 1]);
      assert last in lines;
      if ParseUser(last).Some? {
        ParsedStorable(last);
      }
    }
  }

  /** Whatever a file holds, legacy lines included, the users read from it are storable. */
  lemma {:induction false} LoadedStorable(content: Option<string>)
    ensures Storable(Load(content))
  {
    if content.Some? {
      ScanLinesOneLine(content.value);
      LoadedLinesStorable(ScanLines(content.value));
    }
  }

  lemma {:induction false} UserLineShape(name: string, user: UserRecord)
    requires StorableUser(name, user)
    ensures var line := UserLine(name, user); ScanSafe(line) && Trimmed(line) && line != "" && line[0] != '#'
  {
    RolePlain(user.role);
    hide ValidRole, RoleRank;
    var line := UserLine(name, user);
    assert line[0] == name[0] && line[|line| - 1] == user.hash[|user.hash| - 1];
  }

  lemma {:induction false} UserLineSplits(name: string, user: UserRecord)
    requires ':' !in name && ValidRole(user.role) && ':' !in user.hash
    ensures Split(UserLine(name, user), ':') == [name, user.role, user.hash]
  {
    hide ValidRole, Split;
    RolePlain(user.role);
    SplitFirst(name, ':', user.role + ":" + user.hash);
    SplitFirst(user.role, ':', user.hash);
    SplitWhole(user.hash, ':');
  }

  lemma {:induction false} UserLineRoundTrip(name: string, user: UserRecord)
    requires StorableUser(name, user)
    ensures ScanSafe(UserLine(name, user)) && ParseUser(UserLine(name, user)) == Some((name, user))
  {
    hide UserLine, ScanSafe, Trimmed, ValidRole, Split, TrimSpace, OneLine, EndsTrimmed;
    var line := UserLine(name, user);
    UserLineShape(name, user);
    UserLineSplits(name, user);
    TrimSpaceOfPadded("", line, "");
    assert "" + line + "" == line;
  }

  lemma {:induction false} LoadUserLines(head: string, users: UserMap, names: seq<string>)
    requires Storable(users) && head != "" && head[0] == '#'
    requires forall n :: n in names ==> n in users
    ensures LoadLines([head] + UserLines(users, names)) == map n | n in users && n in names :: users[n]
  {
    var lines := [head] + UserLines(users, names);
    if names == [] {
      assert lines == [head] && lines[..0] == [];
      CommentLine(head);
    } else {
      var init, last := names[..|names| - 1], names[|names| - 1];
      assert names == init + [last];
      LoadUserLines(head, users, init);
      assert lines[..|lines| - 1] == [head] + UserLines(users, init);
      UserLineRoundTrip(last, users[last]);
    }
  }

  lemma {:induction false} CommentLine(head: string)
    requires head != "" && head[0] == '#'
    ensures ParseUser(head).None?
  {
    var ws := TrimRightSplits(head);
    assert TrimRight(head) == "" ==> head == ws;
  }

  /** Reading lines below a comment line. */
  lemma {:induction false} LoadBelow(head: string, users: UserMap, names: seq<string>)
    requires Storable(users) && ScanSafe(head) && head != "" && head[0] == '#'
    requires forall n :: n in names <==> n in users
    ensures LoadLines(ScanLines(Unlines([head] + UserLines(users, names)))) == users
  {
    hide ScanSafe, ScanLines, LoadLines, UserLines, Storable;
    var lines := [head] + UserLines(users, names);
    UserLinesSafe(users, names);
    ScanLinesOfUnlines(lines);
    LoadUserLines(head, users, names);
    assert (map n | n in users && n in names :: users[n]) == users;
  }

  lemma {:induction false} UserLinesSafe(users: UserMap, names: seq<string>)
    requires Storable(users) && forall n :: n in names ==> n in users
    ensures forall l :: l in UserLines(users, names) ==> ScanSafe(l)
  {
    hide ScanSafe, UserLine, StorableUser;
    forall l | l in UserLines(users, names) ensures ScanSafe(l) {
      var i :| 0 <= i < |names| && l == UserLines(users, names)[i];
      UserLineRoundTrip(names[i], users[names[i]]);
    }
  }

  /** Loading what was saved gives the users back exactly when they are storable. */
  lemma {:induction false} LoadAfterSave(content: string, users: UserMap)
    requires IsUsersFile(content, users)
    ensures Load(Some(content)) == users <==> Storable(users)
  {
    LoadedStorable(Some(content));
    if Storable(users) {
      var names :| Lists(names, users.Keys) && (forall n :: n in names ==> n in users)
        && content == Unlines([FileHead()] + UserLines(users, names));
      forall n | n in users ensures n in names {
        assert n in Elements(names);
      }
      HeadIsComment();
      LoadBelow(FileHead(), users, names);
    }
  }

  lemma {:induction false} HeadIsComment()
    ensures ScanSafe(FileHead()) && FileHead() != "" && FileHead()[0] == '#'
  {
    var a, b, c := "# ship-grip-fim users: name:role:bcrypt-hash", "  roles: ro, rw, admin",
      "  (manage with 'ship-grip-fim user ...')";
    assert OneLine(a) && OneLine(b) && OneLine(c) && a[0] == '#' && c[|c| - 1] == ')';
    var head := a + b + c;
    assert head[0] == a[0] && head[|head| - 1] == c[|c| - 1];
  }

  // ---------------------------------------------------------------- operations on the map

  datatype UserError = InvalidName | AlreadyExists | NotFound | InvalidRole | ShortPassword | HashFailed | LastAdmin

  datatype Change = Done(users: UserMap) | Refused(error: UserError)

  predicate NameChar(c: char) {
    'A' <= c <= 'Z' || 'a' <= c <= 'z' || '0' <= c <= '9' || c == '_' || c == '.' || c == '-'
  }

  predicate ValidName(name: string) {
    1 <= |name| <= 32 && forall c :: c in name ==> NameChar(c)
  }

  const UPPER := "ABCDEFGHIJKLMNOPQRSTUVWXYZ"
  const LOWER := "abcdefghijklmnopqrstuvwxyz"
  const DIGITS := "0123456789"

  /** One to thirty-two letters, digits and three signs. */
  lemma {:induction false} ValidNameExactly(name: string)
    ensures ValidName(name) <==>
      && |name| > 0 && |name| < 33
      && forall i :: 0 <= i < |name| ==>
           name[i] in UPPER || name[i] in LOWER || name[i] in DIGITS || name[i] in ['_', '.', '-']
  {
    hide UPPER, LOWER, DIGITS;
    forall c: char ensures NameChar(c) <==> c in UPPER || c in LOWER || c in DIGITS || c in ['_', '.', '-'] {
      InUpper(c);
      InLower(c);
      InDigits(c);
    }
    assert forall c :: c in name ==> exists i :: 0 <= i < |name| && name[i] == c;
  }

  lemma {:induction false} InUpper(c: char)
    ensures c in UPPER <==> 'A' <= c <= 'Z'
  {
    if 'A' <= c <= 'Z' {
      assert UPPER[c as int - 'A' as int] == c;
    }
  }

  lemma {:induction false} InLower(c: char)
    ensures c in LOWER <==> 'a' <= c <= 'z'
  {
    if 'a' <= c <= 'z' {
      assert LOWER[c as int - 'a' as int] == c;
    }
  }

  lemma {:induction false} InDigits(c: char)
    ensures c in DIGITS <==> '0' <= c <= '9'
  {
    if '0' <= c <= '9' {
      assert DIGITS[c as int - '0' as int] == c;
    }
  }

  function Admins(users: UserMap): set<string> {
    set n | n in users && users[n].role == ADMIN
  }

  /** `generated` is what bcrypt made of the password, or None where it failed. */
  function AddUser(users: UserMap, name: string, password: string, role: string, generated: Option<string>): Change {
    if !ValidName(name) then Refused(InvalidName)
    else if name in users then Refused(AlreadyExists)
    else if !ValidRole(role) then Refused(InvalidRole)
    else if |password| < 8 then Refused(ShortPassword)
    else if generated.None? then Refused(HashFailed)
    else Done(users[name := UserRecord(role, generated.value)])
  }

  function ChangePassword(users: UserMap, name: string, password: string, generated: Option<string>): Change {
    if name !in users then Refused(NotFound)
    else if |password| < 8 then Refused(ShortPassword)
    else if generated.None? then Refused(HashFailed)
    else Done(users[name := users[name].(hash := generated.value)])
  }

  function ChangeRole(users: UserMap, name: string, role: string): Change {
    if name !in users then Refused(NotFound)
    else if !ValidRole(role) then Refused(InvalidRole)
    else if users[name].role == ADMIN && role != ADMIN && |Admins(users)| == 1 then Refused(LastAdmin)
    else Done(users[name := users[name].(role := role)])
  }

  function RemoveUser(users: UserMap, name: string): Change {
    if name !in users then Refused(NotFound)
    else if users[name].role == ADMIN && |Admins(users)| == 1 then Refused(LastAdmin)
    else Done(users - {name})
  }

  // ---------------------------------------------------------------- the commands

  datatype Reply = Usage | Listing(names: seq<string>, users: UserMap) | Changed | Error(error: UserError)

  /** What a "user ..." command asks for. */
  datatype Request = ShowUsage | List | Alter(change: Change)

  function RequestOf(users: UserMap, args: seq<string>, generated: Option<string>): Request {
    if args == [] then ShowUsage
    else if args[0] == "list" then List
    else if args[0] == "add" then
      (if |args| < 3 then ShowUsage
       else Alter(AddUser(users, args[1], args[2], if |args| >= 4 then args[3] else RO, generated)))
    else if args[0] == "passwd" then
      (if |args| < 3 then ShowUsage else Alter(ChangePassword(users, args[1], args[2], generated)))
    else if args[0] == "role" then
      (if |args| < 3 then ShowUsage else Alter(ChangeRole(users, args[1], args[2])))
    else if args[0] == "remove" then
      (if |args| < 2 then ShowUsage else Alter(RemoveUser(users, args[1])))
    else ShowUsage
  }

  /** The reply to a command; a listing is in ascending order. */
  ghost function ReplyOf(users: UserMap, args: seq<string>, generated: Option<string>): Reply {
    match RequestOf(users, args, generated)
    case ShowUsage => Usage
    case List => Reply.Listing(Order.Listing(users.Keys), users)
    case Alter(Done(_)) => Changed
    case Alter(Refused(error)) => Error(error)
  }

  /** The users after a command. */
  function After(users: UserMap, args: seq<string>, generated: Option<string>): UserMap {
    match RequestOf(users, args, generated)
    case Alter(Done(changed)) => changed
    case _ => users
  }

  /** Another administrator than the one named. */
  ghost predicate OtherAdmin(users: UserMap, name: string) {
    exists other :: other in users && other != name && users[other].role == "admin"
  }

  /** Which commands succeed: the words of the command, the users before, and what bcrypt made of the password. */
  ghost predicate Succeeds(before: UserMap, args: seq<string>, generated: Option<string>) {
    && |args| >= 2
    && (args[0] == "add" ==>
          && |args| >= 3 && ValidName(args[1]) && args[1] !in before
          && (|args| >= 4 ==> args[3] in {"ro", "rw", "admin"}) && |args[2]| >= 8 && generated.Some?)
    && (args[0] == "passwd" ==> |args| >= 3 && args[1] in before && |args[2]| >= 8 && generated.Some?)
    && (args[0] == "role" ==>
          && |args| >= 3 && args[1] in before && args[2] in {"ro", "rw", "admin"}
          && (before[args[1]].role == "admin" && args[2] != "admin" ==> OtherAdmin(before, args[1])))
    && (args[0] == "remove" ==>
          args[1] in before && (before[args[1]].role == "admin" ==> OtherAdmin(before, args[1])))
    && args[0] in {"add", "passwd", "role", "remove"}
  }

  /**
   * The users after a command that succeeds: only the named entry changes; "add" gives it the role asked for,
   * or "ro", and the new hash, "passwd" the new hash, "role" the new role, and "remove" takes it out.
   */
  ghost predicate Changes(before: UserMap, args: seq<string>, generated: Option<string>, after: UserMap)
    requires |args| >= 2
  {
    && (forall n :: n != args[1] ==> (n in after <==> n in before))
    && (forall n :: n in before && n != args[1] ==> n in after && after[n] == before[n])
    && (args[0] == "add" && generated.Some? ==>
          args[1] in after && after[args[1]] == UserRecord(if |args| >= 4 then args[3] else "ro", generated.value))
    && (args[0] == "passwd" && args[1] in before && generated.Some? ==>
          args[1] in after && after[args[1]] == UserRecord(before[args[1]].role, generated.value))
    && (args[0] == "role" && args[1] in before && |args| >= 3 ==>
          args[1] in after && after[args[1]] == UserRecord(args[2], before[args[1]].hash))
    && (args[0] == "remove" ==> args[1] !in after)
  }

  /** Why a command is refused: the first of its conditions that fails. */
  ghost predicate Explains(before: UserMap, args: seq<string>, error: UserError)
    requires |args| >= 2
  {
    match error
    case InvalidName => args[0] == "add" && !ValidName(args[1])
    case AlreadyExists => args[0] == "add" && ValidName(args[1]) && args[1] in before
    case NotFound => args[0] != "add" && args[1] !in before
    case InvalidRole =>
      || (args[0] == "add" && args[1] !in before && |args| >= 4 && args[3] !in {"ro", "rw", "admin"})
      || (args[0] == "role" && args[1] in before && |args| >= 3 && args[2] !in {"ro", "rw", "admin"})
    case ShortPassword => args[0] in {"add", "passwd"} && |args| >= 3 && |args[2]| < 8
    case HashFailed => args[0] in {"add", "passwd"} && |args| >= 3 && |args[2]| >= 8
    case LastAdmin =>
      args[0] in {"role", "remove"} && args[1] in before && before[args[1]].role == "admin"
      && !OtherAdmin(before, args[1])
  }

  lemma {:induction false} OneAdmin(users: UserMap, name: string)
    requires name in users && users[name].role == ADMIN
    ensures |Admins(users)| == 1 <==> !OtherAdmin(users, name)
  {
    if OtherAdmin(users, name) {
      var other :| other in users && other != name && users[other].role == "admin";
      assert {name, other} <= Admins(users);
      Order.SubsetSize({name, other}, Admins(users));
    } else {
      assert Admins(users) == {name};
    }
  }

  /** What a command does, from its words alone. */
  lemma {:induction false} CommandEffect(users: UserMap, args: seq<string>, generated: Option<string>)
    ensures ReplyOf(users, args, generated).Changed? <==> Succeeds(users, args, generated)
    ensures Succeeds(users, args, generated) ==> Changes(users, args, generated, After(users, args, generated))
    ensures !Succeeds(users, args, generated) ==> After(users, args, generated) == users
    ensures ReplyOf(users, args, generated).Error? ==>
      |args| >= 2 && Explains(users, args, ReplyOf(users, args, generated).error)
  {
    hide ValidName, OtherAdmin;
    if |args| >= 2 && args[1] in users && users[args[1]].role == ADMIN {
      OneAdmin(users, args[1]);
    }
  }

  predicate Permitted(args: seq<string>, actor: string, actorRole: string) {
    RoleAllows(actorRole, ADMIN) || (|args| >= 2 && args[0] == "passwd" && args[1] == actor)
  }

  /** Who may give a user command: an administrator any, and every user one for the own password. */
  lemma {:induction false} PermittedExactly(args: seq<string>, actor: string, actorRole: string)
    ensures Permitted(args, actor, actorRole)
       <==> actorRole == "admin" || (|args| > 1 && args[0] == "passwd" && args[1] == actor)
  {
    assert RoleRank("ro") == 1 && RoleRank("rw") == 2 && RoleRank("admin") == 3;
  }

  function AfterAs(
      users: UserMap, args: seq<string>, actor: string, actorRole: string, generated: Option<string>): UserMap
  {
    if Permitted(args, actor, actorRole) then After(users, args, generated) else users
  }

  /** What bcrypt produces: not empty, no white space, no colon. */
  predicate HashLike(generated: Option<string>) {
    generated.Some? ==> Word(generated.value) && ':' !in generated.value
  }

  /** The users map as the code holds it. */
  class UserDB {
    var users: UserMap

    constructor (users: UserMap)
      ensures this.users == users
    {
      this.users := users;
    }

    method AdminCount() returns (n: nat)
      ensures n == |Admins(users)|
    {
      n := 0;
      var todo := users.Keys;
      ghost var seen: set<string> := {};
      while todo != {}
        invariant todo <= users.Keys && seen == Admins(users) - todo && n == |seen|
        decreases todo
      {
        var k :| k in todo;
        if users[k].role == ADMIN {
          assert Admins(users) - (todo - {k}) == seen + {k};
          n, seen := n + 1, seen + {k};
        } else {
          assert Admins(users) - (todo - {k}) == seen;
        }
        todo := todo - {k};
      }
      assert Admins(users) - {} == Admins(users);
    }

    method Add(name: string, password: string, role: string, generated: Option<string>) returns (change: Change)
      modifies this
      ensures change == AddUser(old(users), name, password, role, generated)
      ensures users == if change.Done? then change.users else old(users)
    {
      if !ValidName(name) {
        return Refused(InvalidName);
      }
      if name in users {
        return Refused(AlreadyExists);
      }
      if !ValidRole(role) {
        return Refused(InvalidRole);
      }
      if |password| < 8 {
        return Refused(ShortPassword);
      }
      if generated.None? {
        return Refused(HashFailed);
      }
      users := users[name := UserRecord(role, generated.value)];
      change := Done(users);
    }

    method SetPassword(name: string, password: string, generated: Option<string>) returns (change: Change)
      modifies this
      ensures change == ChangePassword(old(users), name, password, generated)
      ensures users == if change.Done? then change.users else old(users)
    {
      if name !in users {
        return Refused(NotFound);
      }
      if |password| < 8 {
        return Refused(ShortPassword);
      }
      if generated.None? {
        return Refused(HashFailed);
      }
      users := users[name := users[name].(hash := generated.value)];
      change := Done(users);
    }

    method SetRole(name: string, role: string) returns (change: Change)
      modifies this
      ensures change == ChangeRole(old(users), name, role)
      ensures users == if change.Done? then change.users else old(users)
    {
      if name !in users {
        return Refused(NotFound);
      }
      if !ValidRole(role) {
        return Refused(InvalidRole);
      }
      var count := AdminCount();
      if users[name].role == ADMIN && role != ADMIN && count == 1 {
        return Refused(LastAdmin);
      }
      users := users[name := users[name].(role := role)];
      change := Done(users);
    }

    method Remove(name: string) returns (change: Change)
      modifies this
      ensures change == RemoveUser(old(users), name)
      ensures users == if change.Done? then change.users else old(users)
    {
      if name !in users {
        return Refused(NotFound);
      }
      var count := AdminCount();
      if users[name].role == ADMIN && count == 1 {
        return Refused(LastAdmin);
      }
      users := users - {name};
      change := Done(users);
    }

    method Names() returns (names: seq<string>)
      ensures Lists(names, users.Keys)
    {
      names := [];
      var todo := users.Keys;
      while todo != {}
        invariant todo <= users.Keys
        invariant Distinct(names) && Elements(names) == users.Keys - todo
        decreases todo
      {
        var k :| k in todo;
        assert k !in Elements(names);
        assert Elements(names + [k]) == Elements(names) + {k};
        names := names + [k];
        todo := todo - {k};
      }
      names := SortStrings(names);
    }

    method Save() returns (content: string)
      ensures IsUsersFile(content, users)
    {
      var names := Names();
      content := FileHead() + "\n";
      forall n | n in names ensures n in users {
        assert n in Elements(names);
      }
      assert [FileHead()] + UserLines(users, names[..0]) == [FileHead()];
      for i := 0 to |names|
        invariant forall n :: n in names ==> n in users
        invariant content == Unlines([FileHead()] + UserLines(users, names[..i]))
      {
        SaveNext(FileHead(), users, names, i);
        content := content + UserLine(names[i], users[names[i]]) + "\n";
      }
      assert names[..|names|] == names;
    }
  }

  lemma {:induction false} SaveNext(head: string, users: UserMap, names: seq<string>, i: nat)
    requires i < |names| && forall n :: n in names ==> n in users
    ensures Unlines([head] + UserLines(users, names[..i + 1]))
         == Unlines([head] + UserLines(users, names[..i])) + UserLine(names[i], users[names[i]]) + "\n"
  {
    var lines := [head] + UserLines(users, names[..i]);
    assert [head] + UserLines(users, names[..i + 1]) == lines + [UserLine(names[i], users[names[i]])];
    UnlinesSnoc(lines, UserLine(names[i], users[names[i]]));
  }

  /** The users file on disk; None where it does not exist. */
  class UsersFile {
    var content: Option<string>

    constructor (content: Option<string>)
      ensures this.content == content
    {
      this.content := content;
    }
  }

  method LoadUsers(file: UsersFile) returns (db: UserDB)
    ensures fresh(db) && db.users == Load(file.content)
  {
    hide ParseUser, ScanLines;
    var users: UserMap := map[];
    if file.content.Some? {
      var lines := ScanLines(file.content.value);
      for i := 0 to |lines|
        invariant users == LoadLines(lines[..i])
      {
        assert lines[..i + 1][..i] == lines[..i];
        var parsed := ParseUser(lines[i]);
        if parsed.Some? {
          users := users[parsed.value.0 := parsed.value.1];
        }
      }
      assert lines[..|lines|] == lines;
    }
    db := new UserDB(users);
  }

  /**
   * userCommand: load, change, save. On the file it does what `After` does on the map, and so what the words
   * of the command say; a command that changes nothing does not touch the file.
   */
  method UserCommand(file: UsersFile, args: seq<string>, generated: Option<string>) returns (reply: Reply)
    requires HashLike(generated)
    modifies file
    ensures reply == ReplyOf(Load(old(file.content)), args, generated)
    ensures Load(file.content) == After(Load(old(file.content)), args, generated)
    ensures reply.Changed? <==> Succeeds(Load(old(file.content)), args, generated)
    ensures reply.Changed? ==> Changes(Load(old(file.content)), args, generated, Load(file.content))
    ensures reply.Error? ==> |args| >= 2 && Explains(Load(old(file.content)), args, reply.error)
    ensures !reply.Changed? ==> file.content == old(file.content)
    ensures reply.Changed? ==> file.content.Some? && IsUsersFile(file.content.value, Load(file.content))
  {
    hide Succeeds, Changes, Explains, IsUsersFile, Storable;
    CommandEffect(Load(file.content), args, generated);
    if args == [] {
      return Usage;
    }
    var db := LoadUsers(file);
    ghost var before := db.users;
    var change: Change;
    match args[0] {
      case "list" =>
        var names := db.Names();
        ListingUnique(names, Order.Listing(db.users.Keys), db.users.Keys);
        return Reply.Listing(names, db.users);
      case "add" =>
        if |args| < 3 {
          return Usage;
        }
        change := db.Add(args[1], args[2], if |args| >= 4 then args[3] else RO, generated);
      case "passwd" =>
        if |args| < 3 {
          return Usage;
        }
        change := db.SetPassword(args[1], args[2], generated);
      case "role" =>
        if |args| < 3 {
          return Usage;
        }
        change := db.SetRole(args[1], args[2]);
      case "remove" =>
        if |args| < 2 {
          return Usage;
        }
        change := db.Remove(args[1]);
      case _ =>
        return Usage;
    }
    assert RequestOf(before, args, generated) == Alter(change);
    if change.Refused? {
      return Error(change.error);
    }
    LoadedStorable(file.content);
    AfterStorable(before, args, generated);
    var content := db.Save();
    LoadAfterSave(content, db.users);
    file.content := Some(content);
    reply := Changed;
  }

  /** userCommandAs: an administrator may do anything, others may change their own password. */
  method UserCommandAs(file: UsersFile, args: seq<string>, actor: string, actorRole: string, generated: Option<string>)
    returns (reply: Option<Reply>)
    requires HashLike(generated)
    modifies file
    ensures reply
         == if Permitted(args, actor, actorRole) then Some(ReplyOf(Load(old(file.content)), args, generated)) else None
    ensures Load(file.content) == AfterAs(Load(old(file.content)), args, actor, actorRole, generated)
    ensures reply.None? || !reply.value.Changed? ==> file.content == old(file.content)
  {
    if RoleAllows(actorRole, ADMIN) || (|args| >= 2 && args[0] == "passwd" && args[1] == actor) {
      var r := UserCommand(file, args, generated);
      return Some(r);
    }
    reply := None;
  }

  /** Commands keep the users storable, so that saving loses none of them. */
  lemma {:induction false} AfterStorable(users: UserMap, args: seq<string>, generated: Option<string>)
    requires Storable(users) && HashLike(generated)
    ensures Storable(After(users, args, generated))
  {
    if args != [] && args[0] == "add" && |args| >= 3 && ValidName(args[1]) {
      NameStorable(args[1]);
    }
    if generated.Some? {
      assert generated.value[|generated.value| - 1] in generated.value;
      assert IsSpace('\n');
    }
  }

  lemma {:induction false} NameStorable(name: string)
    requires ValidName(name)
    ensures name != "" && !IsSpace(name[0]) && name[0] != '#' && ':' !in name && OneLine(name)
  {
    assert name[0] in name;
    assert !NameChar('#') && !NameChar(':') && !NameChar('\n');
    assert NameChar(name[0]) ==> !IsSpace(name[0]);
  }

  // ---------------------------------------------------------------- whole command sequences

  lemma {:induction false} LastOne(users: UserMap, name: string)
    requires name in users && users[name].role == ADMIN && |Admins(users)| != 1
    ensures Admins(users) != {name}
  {}

  lemma {:induction false} AdminKeptByRole(users: UserMap, name: string, role: string)
    requires Admins(users) != {} && ChangeRole(users, name, role).Done?
    ensures Admins(ChangeRole(users, name, role).users) != {}
  {
    var changed := ChangeRole(users, name, role).users;
    if role == ADMIN {
      assert name in Admins(changed);
    } else {
      if users[name].role == ADMIN {
        LastOne(users, name);
      }
    }
  }

  lemma {:induction false} AdminKeptByRemove(users: UserMap, name: string)
    requires Admins(users) != {} && RemoveUser(users, name).Done?
    ensures Admins(RemoveUser(users, name).users) != {}
  {
    if users[name].role == ADMIN {
      LastOne(users, name);
    }
  }

  /** Nor do new users and new passwords. */
  lemma {:induction false} AdminKeptByOthers(
      users: UserMap, name: string, password: string, role: string, generated: Option<string>)
    requires Admins(users) != {}
    ensures AddUser(users, name, password, role, generated).Done? ==>
      Admins(AddUser(users, name, password, role, generated).users) != {}
    ensures ChangePassword(users, name, password, generated).Done? ==>
      Admins(ChangePassword(users, name, password, generated).users) != {}
  {
    var admin :| admin in Admins(users);
    var added, changed := AddUser(users, name, password, role, generated),
      ChangePassword(users, name, password, generated);
    assert added.Done? ==> admin in Admins(added.users);
    assert changed.Done? ==> admin in Admins(changed.users);
  }

  /** No command takes away the last administrator. */
  lemma {:induction false} AdminKept(users: UserMap, args: seq<string>, generated: Option<string>)
    requires Admins(users) != {}
    ensures Admins(After(users, args, generated)) != {}
  {
    var r := RequestOf(users, args, generated);
    if r.Alter? && r.change.Done? {
      if args[0] == "role" {
        AdminKeptByRole(users, args[1], args[2]);
      } else if args[0] == "remove" {
        AdminKeptByRemove(users, args[1]);
      } else {
        AdminKeptByOthers(users, args[1], args[2], if |args| >= 4 then args[3] else RO, generated);
      }
    }
  }

  datatype Command = Command(args: seq<string>, actor: string, actorRole: string, generated: Option<string>)

  function RunAll(users: UserMap, commands: seq<Command>): UserMap {
    if commands == [] then users
    else
      var c := commands[|commands| - 1];
      AfterAs(RunAll(users, commands[..|commands| - 1]), c.args, c.actor, c.actorRole, c.generated)
  }

  lemma {:induction false} RunStorable(users: UserMap, commands: seq<Command>)
    requires Storable(users) && forall c: Command :: c in commands ==> HashLike(c.generated)
    ensures Storable(RunAll(users, commands))
  {
    if commands != [] {
      var c := commands[|commands| - 1];
      assert c in commands;
      RunStorable(users, commands[..|commands| - 1]);
      AfterStorable(RunAll(users, commands[..|commands| - 1]), c.args, c.generated);
    }
  }

  /** Every users map reachable by commands from any file, legacy lines included, survives saving and loading. */
  lemma {:induction false} ReachableRoundTrip(start: Option<string>, commands: seq<Command>, content: string)
    requires forall c: Command :: c in commands ==> HashLike(c.generated)
    requires IsUsersFile(content, RunAll(Load(start), commands))
    ensures Load(Some(content)) == RunAll(Load(start), commands)
  {
    LoadedStorable(start);
    RunStorable(Load(start), commands);
    LoadAfterSave(content, RunAll(Load(start), commands));
  }

  /** Once there is an administrator, every command sequence keeps one. */
  lemma {:induction false} AdminAlways(users: UserMap, commands: seq<Command>)
    requires Admins(users) != {}
    ensures Admins(RunAll(users, commands)) != {}
  {
    if commands != [] {
      var c := commands[|commands| - 1];
      AdminAlways(users, commands[..|commands| - 1]);
      AdminKept(RunAll(users, commands[..|commands| - 1]), c.args, c.generated);
    }
  }

  /** An actor who is not an administrator changes nothing but the hash of their own entry. */
  lemma {:induction false} OnlyOwnHash(
      users: UserMap, args: seq<string>, actor: string, actorRole: string, generated: Option<string>)
    requires actorRole != ADMIN
    ensures var after := AfterAs(users, args, actor, actorRole, generated);
      && after.Keys == users.Keys
      && (forall n :: n in users && n != actor ==> after[n] == users[n])
      && (actor in users ==> after[actor].role == users[actor].role)
      && (after != users ==>
            Permitted(args, actor, actorRole) && actor in users && generated == Some(after[actor].hash))
  {}

  /** Over a whole sequence: commands of actors who are not administrators change only hashes of those actors. */
  lemma {:induction false} OnlyOwnHashes(users: UserMap, commands: seq<Command>)
    requires forall c :: c in commands ==> c.actorRole != ADMIN
    ensures var after := RunAll(users, commands);
      && after.Keys == users.Keys
      && forall n :: n in users ==>
           && after[n].role == users[n].role
           && ((forall c: Command :: c in commands ==> c.actor != n) ==> after[n] == users[n])
  {
    if commands != [] {
      var init, c := commands[..|commands| - 1], commands[|commands| - 1];
      assert commands == init + [c];
      OnlyOwnHashes(users, init);
      OnlyOwnHash(RunAll(users, init), c.args, c.actor, c.actorRole, c.generated);
      forall n | n in users && (forall d: Command :: d in commands ==> d.actor != n)
        ensures RunAll(users, commands)[n] == users[n]
      {
        assert c in commands;
        assert forall d: Command :: d in init ==> d in commands;
      }
    }
  }
}
