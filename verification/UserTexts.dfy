/** What a user command prints. */
module UserTexts {
  import opened Text
  import opened Users

  const USER_USAGE :=
    "usage: user list | user add <name> <password> [ro|rw|admin] | user passwd <name> <password>"
    + " | user role <name> <ro|rw|admin> | user remove <name>\n"

  function UsageText(args: seq<string>): string {
    if args == [] then USER_USAGE
    else if args[0] == "add" then ErrorLine("usage: user add <name> <password> [ro|rw|admin]")
    else if args[0] == "passwd" then ErrorLine("usage: user passwd <name> <password>")
    else if args[0] == "role" then ErrorLine("usage: user role <name> <ro|rw|admin>")
    else if args[0] == "remove" then ErrorLine("usage: user remove <name>")
    else ErrorLine("unknown user sub-command: " + args[0]) + USER_USAGE
  }

  function NameArg(args: seq<string>): string {
    if |args| >= 2 then args[1] else ""
  }

  /** The role an "add" or a "role" command asks for. */
  function RoleArg(args: seq<string>): string {
    if |args| >= 1 && args[0] == "add" then (if |args| >= 4 then args[3] else RO)
    else if |args| >= 3 then args[2]
    else ""
  }

  function ErrorText(w: Wording, args: seq<string>, error: UserError): string {
    match error
    case InvalidName => "invalid user name " + w.quote(NameArg(args)) + " (letters, digits, '_', '.', '-'; max 32)"
    case AlreadyExists => "user " + w.quote(NameArg(args)) + " already exists"
    case NotFound => "user " + w.quote(NameArg(args)) + " not found"
    case InvalidRole => "invalid role " + w.quote(RoleArg(args)) + " (use ro, rw or admin)"
    case ShortPassword => "password must be at least 8 characters"
    case HashFailed => w.hashError
    case LastAdmin =>
      if |args| >= 1 && args[0] == "role" then "refusing to demote the last admin"
      else "refusing to remove the last admin"
  }

  function ChangedText(args: seq<string>): string {
    if args == [] then ""
    else if args[0] == "add" then "User " + NameArg(args) + " added with role " + RoleArg(args) + "\n"
    else if args[0] == "passwd" then "Password updated for " + NameArg(args) + "\n"
    else if args[0] == "role" then "Role of " + NameArg(args) + " set to " + RoleArg(args) + "\n"
    else "User " + NameArg(args) + " removed\n"
  }

  function RowText(name: string, role: string): string {
    PadRight(name, 20) + " " + role
  }

  function RoleOf(users: UserMap, name: string): string {
    if name in users then users[name].role else ""
  }

  function UserRows(users: UserMap, names: seq<string>): seq<string> {
    seq(|names|, i requires 0 <= i < |names| => RowText(names[i], RoleOf(users, names[i])))
  }

  function ListText(path: string, users: UserMap, names: seq<string>): string {
    if names == [] then "No users (file " + path + " is missing or empty)\n" else Unlines(UserRows(users, names))
  }

  function ReplyText(w: Wording, path: string, args: seq<string>, reply: Reply): string {
    match reply
    case Usage => UsageText(args)
    case Listing(names, users) => ListText(path, users, names)
    case Changed => ChangedText(args)
    case Error(error) => ErrorLine(ErrorText(w, args, error))
  }

  function DeniedText(actor: string): string {
    ErrorLine("permission denied: managing users requires the admin role"
              + " (you may only change your own password: user passwd " + actor + " <new-password>)")
  }

  /** What userCommandAs answers. */
  ghost function UserText(
      w: Wording, path: string, users: UserMap, args: seq<string>, actor: string, actorRole: string,
      generated: Option<string>)
    : string
  {
    if Permitted(args, actor, actorRole) then ReplyText(w, path, args, ReplyOf(users, args, generated))
    else DeniedText(actor)
  }

  /** The loop that prints the users. */
  method PrintUsers(path: string, users: UserMap, names: seq<string>) returns (out: string)
    ensures out == ListText(path, users, names)
  {
    hide RowText, Unlines;
    if |names| == 0 {
      return "No users (file " + path + " is missing or empty)\n";
    }
    var sb := Unlines([]);
    UnlinesOfNone();
    assert UserRows(users, names[..0]) == [];
    for i := 0 to |names|
      invariant sb == Unlines(UserRows(users, names[..i]))
    {
      UnlinesSnoc(UserRows(users, names[..i]), RowText(names[i], RoleOf(users, names[i])));
      assert UserRows(users, names[..i + 1])
        == UserRows(users, names[..i]) + [RowText(names[i], RoleOf(users, names[i]))];
      sb := sb + RowText(names[i], RoleOf(users, names[i])) + "\n";
    }
    assert names[..|names|] == names;
    out := sb;
  }

  /** userCommandAs with its reply in words. */
  method UserCommandString(
      w: Wording, path: string, file: UsersFile, args: seq<string>, actor: string, actorRole: string,
      generated: Option<string>)
    returns (out: string)
    requires HashLike(generated)
    modifies file
    ensures out == UserText(w, path, Load(old(file.content)), args, actor, actorRole, generated)
    ensures Load(file.content) == AfterAs(Load(old(file.content)), args, actor, actorRole, generated)
    ensures !(Permitted(args, actor, actorRole) && ReplyOf(Load(old(file.content)), args, generated).Changed?) ==>
      file.content == old(file.content)
  {
    hide UsageText, ErrorText, ChangedText, ListText, DeniedText, ReplyOf, AfterAs, Permitted;
    var reply := UserCommandAs(file, args, actor, actorRole, generated);
    if reply.None? {
      return DeniedText(actor);
    }
    match reply.value {
      case Usage => out := UsageText(args);
      case Listing(names, users) => out := PrintUsers(path, users, names);
      case Changed => out := ChangedText(args);
      case Error(error) => out := ErrorLine(ErrorText(w, args, error));
    }
  }

  lemma {:induction false} UsageTerminated(args: seq<string>)
    ensures Terminated(UsageText(args)) && UsageText(args) != ""
  {}

  /** Every answer to a user command ends in a newline. */
  lemma {:induction false} UserTextTerminated(
      w: Wording, path: string, users: UserMap, args: seq<string>, actor: string, actorRole: string,
      generated: Option<string>)
    ensures Terminated(UserText(w, path, users, args, actor, actorRole, generated))
  {
    hide UsageText, ErrorText, ChangedText, ListText, Permitted, ReplyOf, DeniedText, ErrorLine;
    var reply := ReplyOf(users, args, generated);
    UsageTerminated(args);
    ChangedTerminated(args);
    ErrorLinesTerminated();
    DeniedTerminated(actor);
    if reply.Listing? {
      ListTerminated(path, reply.users, reply.names);
    }
  }

  lemma {:induction false} ErrorLinesTerminated()
    ensures forall msg :: Terminated(ErrorLine(msg))
  {}

  lemma {:induction false} DeniedTerminated(actor: string)
    ensures Terminated(DeniedText(actor))
  {}

  lemma {:induction false} ChangedTerminated(args: seq<string>)
    ensures Terminated(ChangedText(args))
  {
    hide RoleArg, NameArg;
  }

  lemma {:induction false} ListTerminated(path: string, users: UserMap, names: seq<string>)
    ensures Terminated(ListText(path, users, names))
  {
    UnlinesTerminated(UserRows(users, names));
  }

  /** A listing has one line for each user, in ascending order, with the name first and the role last. */
  lemma {:induction false} ListTextRows(path: string, users: UserMap, k: nat)
    requires Storable(users) && k < |Order.Listing(users.Keys)|
    ensures var names := Order.Listing(users.Keys);
      && |names| == |users| && names[k] in users
      && RawLines(ListText(path, users, names)) == UserRows(users, names)
      && UserRows(users, names)[k] == PadRight(names[k], 20) + " " + users[names[k]].role
  {
    hide PadRight, RawLines;
    var names := Order.Listing(users.Keys);
    Order.ListingSize(names, users.Keys);
    assert forall i :: 0 <= i < |names| ==> names[i] in Order.Elements(names);
    var rows := UserRows(users, names);
    forall l | l in rows ensures OneLine(l) {
      var i :| 0 <= i < |rows| && rows[i] == l;
      RowOneLine(users, names[i]);
    }
    RawLinesOfUnlines(rows);
  }

  lemma {:induction false} RowOneLine(users: UserMap, name: string)
    requires Storable(users) && name in users
    ensures OneLine(RowText(name, RoleOf(users, name)))
  {
    RolePlain(users[name].role);
    hide ValidRole;
    assert OneLine(PadRight(name, 20));
  }
}
