/** Collecting the files of a directory tree. */
module Walk {
  import opened Text
  import opened Order

  /** What os.ReadDir reports of an entry: a regular file, a directory, or anything else (symlinks, sockets, ...). */
  datatype Node = File | Dir(entries: seq<Entry>) | Other

  datatype Entry = Entry(name: string, node: Node)

  /** The list walkFiles appends to in place. */
  class FileList {
    var files: seq<string>

    constructor ()
      ensures files == []
    {
      files := [];
    }
  }

  // ---------------------------------------------------------------- specification

  function EntriesOf(node: Node): seq<Entry> {
    if node.Dir? then node.entries else []
  }

  function Walked(noWalk: string -> bool, dir: string, node: Node): seq<string>
    decreases node, 1
  {
    if noWalk(dir) || !node.Dir? then [] else WalkedEntries(noWalk, dir, node, |node.entries|)
  }

  /** The files below the first `n` entries of a directory. */
  function WalkedEntries(noWalk: string -> bool, dir: string, node: Node, n: nat): seq<string>
    requires n <= |EntriesOf(node)|
    decreases node, 0, n
  {
    if n == 0 then []
    else WalkedEntries(noWalk, dir, node, n - 1) + WalkedEntry(noWalk, dir, node, EntriesOf(node)[n - 1])
  }

  function WalkedEntry(noWalk: string -> bool, dir: string, ghost parent: Node, e: Entry): seq<string>
    requires e in EntriesOf(parent)
    decreases parent, 0, 0
  {
    match e.node
    case Dir(_) => Walked(noWalk, dir + "/" + e.name, e.node)
    case File => [dir + "/" + e.name]
    case Other => []
  }

  // ---------------------------------------------------------------- the walk

  /** walkFiles: directories that match are skipped entirely, symlinks never followed. */
  method WalkFiles(noWalk: string -> bool, dir: string, node: Node, allFilesList: FileList)
    modifies allFilesList
    ensures allFilesList.files == old(allFilesList.files) + Walked(noWalk, dir, node)
    decreases node
  {
    if noWalk(dir) {
      return;
    }
    var entries := EntriesOf(node);
    for i := 0 to |entries|
      invariant allFilesList.files == old(allFilesList.files) + WalkedEntries(noWalk, dir, node, i)
    {
      var e := entries[i];
      match e.node {
        case Dir(_) => WalkFiles(noWalk, dir + "/" + e.name, e.node, allFilesList);
        case File => allFilesList.files := allFilesList.files + [dir + "/" + e.name];
        case Other =>
      }
    }
  }

  // ---------------------------------------------------------------- routes

  /** The path reached from a directory by a sequence of names. */
  function PathOf(dir: string, route: seq<string>): string
    decreases |route|
  {
    if route == [] then dir else PathOf(dir + "/" + route[0], route[1..])
  }

  /** Following a route of names from a node ends at a regular file. */
  ghost predicate LeadsToFile(node: Node, route: seq<string>)
    decreases |route|
  {
    if route == [] then node.File?
    else exists e :: e in EntriesOf(node) && e.name == route[0] && LeadsToFile(e.node, route[1..])
  }

  /** No directory on the way, the starting one included, is excluded. */
  ghost predicate Open(noWalk: string -> bool, dir: string, route: seq<string>) {
    forall i :: 0 <= i < |route| ==> !noWalk(PathOf(dir, route[..i]))
  }

  ghost predicate Reaches(noWalk: string -> bool, dir: string, node: Node, route: seq<string>) {
    route != [] && LeadsToFile(node, route) && Open(noWalk, dir, route)
  }

  lemma {:induction false} OpenStep(noWalk: string -> bool, dir: string, name: string, route: seq<string>)
    ensures Open(noWalk, dir, [name] + route) <==> !noWalk(dir) && Open(noWalk, dir + "/" + name, route)
  {
    var whole := [name] + route;
    assert whole[..0] == [];
    forall i | 0 <= i < |route| ensures PathOf(dir, whole[..i + 1]) == PathOf(dir + "/" + name, route[..i]) {
      assert whole[..i + 1][0] == name && whole[..i + 1][1..] == route[..i];
    }
    if Open(noWalk, dir, whole) {
      assert !noWalk(PathOf(dir, whole[..0]));
      forall i | 0 <= i < |route| ensures !noWalk(PathOf(dir + "/" + name, route[..i])) {
        assert !noWalk(PathOf(dir, whole[..i + 1]));
      }
    }
    if !noWalk(dir) && Open(noWalk, dir + "/" + name, route) {
      forall i | 0 <= i < |whole| ensures !noWalk(PathOf(dir, whole[..i])) {
        if i > 0 {
          assert !noWalk(PathOf(dir + "/" + name, route[..i - 1]));
        }
      }
    }
  }

  // ---------------------------------------------------------------- exactly the reachable files

  /** Everything collected is a regular file below no excluded directory. */
  lemma {:induction false} WalkedReaches(
      noWalk: string -> bool, dir: string, node: Node, p: string)
    returns (route: seq<string>)
    requires p in Walked(noWalk, dir, node)
    ensures Reaches(noWalk, dir, node, route) && p == PathOf(dir, route)
    decreases node, 1
  {
    var i;
    i, route := EntryReaches(noWalk, dir, node, |node.entries|, p);
  }

  lemma {:induction false} EntryReaches(noWalk: string -> bool, dir: string, node: Node, n: nat, p: string)
    returns (i: nat, route: seq<string>)
    requires n <= |EntriesOf(node)| && !noWalk(dir)
    requires p in WalkedEntries(noWalk, dir, node, n)
    ensures Reaches(noWalk, dir, node, route) && p == PathOf(dir, route)
    ensures i < n && route[0] == EntriesOf(node)[i].name
    decreases node, 0, n
  {
    var e := EntriesOf(node)[n - 1];
    if p in WalkedEntries(noWalk, dir, node, n - 1) {
      i, route := EntryReaches(noWalk, dir, node, n - 1, p);
    } else {
      i := n - 1;
      var tail := [];
      if e.node.Dir? {
        tail := WalkedReaches(noWalk, dir + "/" + e.name, e.node, p);
      }
      route := [e.name] + tail;
      assert route[1..] == tail;
      OpenStep(noWalk, dir, e.name, tail);
    }
  }

  /** Every regular file below no excluded directory is collected. */
  lemma {:induction false} ReachesWalked(noWalk: string -> bool, dir: string, node: Node, route: seq<string>)
    requires Reaches(noWalk, dir, node, route)
    ensures PathOf(dir, route) in Walked(noWalk, dir, node)
    decreases |route|
  {
    var name, tail := route[0], route[1..];
    assert route == [name] + tail;
    OpenStep(noWalk, dir, name, tail);
    var e :| e in EntriesOf(node) && e.name == name && LeadsToFile(e.node, tail);
    var i :| 0 <= i < |EntriesOf(node)| && EntriesOf(node)[i] == e;
    if tail != [] {
      ReachesWalked(noWalk, dir + "/" + name, e.node, tail);
    }
    assert PathOf(dir, route) in WalkedEntry(noWalk, dir, node, e);
    EntriesGrow(noWalk, dir, node, i + 1, |EntriesOf(node)|, PathOf(dir, route));
  }

  lemma {:induction false} EntriesGrow(noWalk: string -> bool, dir: string, node: Node, i: nat, n: nat, p: string)
    requires i <= n <= |EntriesOf(node)| && p in WalkedEntries(noWalk, dir, node, i)
    ensures p in WalkedEntries(noWalk, dir, node, n)
    decreases n
  {
    if i < n {
      EntriesGrow(noWalk, dir, node, i, n - 1, p);
    }
  }

  /** The walk collects the regular files with no excluded directory above them, and nothing else. */
  lemma {:induction false} WalkedExactly(noWalk: string -> bool, dir: string, node: Node, p: string)
    ensures p in Walked(noWalk, dir, node)
      <==> exists route :: Reaches(noWalk, dir, node, route) && p == PathOf(dir, route)
  {
    if p in Walked(noWalk, dir, node) {
      var route := WalkedReaches(noWalk, dir, node, p);
    }
    if route :| Reaches(noWalk, dir, node, route) && p == PathOf(dir, route) {
      ReachesWalked(noWalk, dir, node, route);
    }
  }

  // ---------------------------------------------------------------- once each

  /** A tree a file system can hold: names within a directory differ and contain no slash. */
  ghost predicate WellNamed(node: Node) {
    && (forall e :: e in EntriesOf(node) ==> '/' !in e.name && WellNamed(e.node))
    && forall i, j :: 0 <= i < j < |EntriesOf(node)| ==> EntriesOf(node)[i].name != EntriesOf(node)[j].name
  }

  ghost predicate NoSlash(route: seq<string>) {
    forall name :: name in route ==> '/' !in name
  }

  lemma {:induction false} RouteNames(node: Node, route: seq<string>)
    requires WellNamed(node) && LeadsToFile(node, route)
    ensures NoSlash(route)
    decreases |route|
  {
    if route != [] {
      var e :| e in EntriesOf(node) && e.name == route[0] && LeadsToFile(e.node, route[1..]);
      RouteNames(e.node, route[1..]);
      assert route == [route[0]] + route[1..];
    }
  }

  lemma {:induction false} PathOfIsJoin(dir: string, route: seq<string>)
    requires route != []
    ensures PathOf(dir, route) == dir + "/" + Join(route, '/')
    decreases |route|
  {
    if |route| > 1 {
      PathOfIsJoin(dir + "/" + route[0], route[1..]);
    } else {
      assert route[1..] == [];
    }
  }

  /** Different routes lead to different paths. */
  lemma {:induction false} PathOfInjective(dir: string, a: seq<string>, b: seq<string>)
    requires a != [] && b != [] && NoSlash(a) && NoSlash(b)
    requires PathOf(dir, a) == PathOf(dir, b)
    ensures a == b
  {
    PathOfIsJoin(dir, a);
    PathOfIsJoin(dir, b);
    var front := dir + "/";
    assert Join(a, '/') == PathOf(dir, a)[|front|..] && Join(b, '/') == PathOf(dir, b)[|front|..];
    SplitOfJoin(a, '/');
    SplitOfJoin(b, '/');
  }

  /** No file is collected twice. */
  lemma {:induction false} WalkedDistinct(noWalk: string -> bool, dir: string, node: Node)
    requires WellNamed(node)
    ensures Distinct(Walked(noWalk, dir, node))
    decreases node, 1
  {
    if !noWalk(dir) && node.Dir? {
      EntriesDistinct(noWalk, dir, node, |node.entries|);
    }
  }

  lemma {:induction false} EntriesDistinct(noWalk: string -> bool, dir: string, node: Node, n: nat)
    requires WellNamed(node) && n <= |EntriesOf(node)| && !noWalk(dir)
    ensures Distinct(WalkedEntries(noWalk, dir, node, n))
    decreases node, 0, n
  {
    if n > 0 {
      EntriesDistinct(noWalk, dir, node, n - 1);
      var e := EntriesOf(node)[n - 1];
      if e.node.Dir? {
        WalkedDistinct(noWalk, dir + "/" + e.name, e.node);
      }
      var before, mine := WalkedEntries(noWalk, dir, node, n - 1), WalkedEntry(noWalk, dir, node, e);
      forall p | p in before ensures p !in mine {
        if p in mine {
          EntryApart(noWalk, dir, node, n, p);
        }
      }
      DistinctAppend(before, mine);
    }
  }

  /** The files of one entry are not those of an earlier one. */
  lemma {:induction false} EntryApart(noWalk: string -> bool, dir: string, node: Node, n: nat, p: string)
    requires WellNamed(node) && 0 < n <= |EntriesOf(node)| && !noWalk(dir)
    requires p in WalkedEntries(noWalk, dir, node, n - 1)
    ensures p !in WalkedEntry(noWalk, dir, node, EntriesOf(node)[n - 1])
  {
    var e := EntriesOf(node)[n - 1];
    if p in WalkedEntry(noWalk, dir, node, e) {
      var i, a := EntryReaches(noWalk, dir, node, n - 1, p);
      var tail := [];
      if e.node.Dir? {
        tail := WalkedReaches(noWalk, dir + "/" + e.name, e.node, p);
        RouteNames(e.node, tail);
      }
      var b := [e.name] + tail;
      assert b[1..] == tail;
      RouteNames(node, a);
      PathOfInjective(dir, a, b);
    }
  }

  /** Each reachable file is collected exactly once, and nothing else is. */
  lemma {:induction false} WalkedOnce(noWalk: string -> bool, dir: string, node: Node, p: string)
    requires WellNamed(node)
    ensures multiset(Walked(noWalk, dir, node))[p]
         == if exists route :: Reaches(noWalk, dir, node, route) && p == PathOf(dir, route) then 1 else 0
  {
    WalkedDistinct(noWalk, dir, node);
    WalkedExactly(noWalk, dir, node, p);
    DistinctCount(Walked(noWalk, dir, node), p);
  }
}
