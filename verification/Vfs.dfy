/** The directory tree of the kernel's file system: a table of nodes, paths printed from a node and
    resolved to one.  Paths and names are strings without their terminating zero. */
module Vfs {
  import opened Machine

  const MAX_NODES: nat := 64
  const NAME_LEN: nat := 32
  const PATH_LEN: nat := 128
  const MAX_DEPTH: nat := 8

  datatype Node = Node(used: bool, parent: int, name: string)

  type Nodes = n: seq<Node> | |n| == 64 witness seq(64, _ => Node(false, 0, ""))

  // ----- lookups -----

  predicate ChildOf(n: Node, parent: nat, name: string) { n.used && n.parent == parent && n.name == name }

  function FindChild(nodes: Nodes, parent: nat, name: string, i: nat): (r: Option<nat>)
    requires i <= MAX_NODES
    ensures r.Some? ==> i <= r.value < MAX_NODES && ChildOf(nodes[r.value], parent, name)
    ensures r.None? ==> forall j :: i <= j < MAX_NODES ==> !ChildOf(nodes[j], parent, name)
    decreases MAX_NODES - i
  {
    if i == MAX_NODES then None
    else if ChildOf(nodes[i], parent, name) then Some(i)
    else FindChild(nodes, parent, name, i + 1)
  }

  function ParentOf(nodes: Nodes, cur: nat): nat {
    if cur < MAX_NODES && nodes[cur].used && nodes[cur].parent >= 0 then nodes[cur].parent else 0
  }

  // ----- resolving -----

  /** Characters before the next slash. */
  function SegLen(p: string): (n: nat)
    ensures n <= |p| && '/' !in p[..n] && (n < |p| ==> p[n] == '/')
  {
    if p == "" || p[0] == '/' then 0
    else
      var n := SegLen(p[1..]);
      assert p[..n + 1] == [p[0]] + p[1..][..n];
      n + 1
  }

  /** A segment keeps 31 characters. */
  function Cut(s: string): string { if |s| > NAME_LEN - 1 then s[..NAME_LEN - 1] else s }

  function Rest(p: string): string { if SegLen(p) < |p| then p[SegLen(p) + 1..] else "" }

  /** One segment further. */
  function Enter(nodes: Nodes, cur: nat, seg: string): Option<nat> {
    if seg == "" || seg == "." then Some(cur)
    else if seg == ".." then Some(ParentOf(nodes, cur))
    else FindChild(nodes, cur, seg, 0)
  }

  /** Following a path from a node. */
  function Walk(nodes: Nodes, cur: nat, p: string): Option<nat>
    decreases |p|
  {
    if p == "" then Some(cur)
    else
      match Enter(nodes, cur, Cut(p[..SegLen(p)]))
      case None => None
      case Some(c) => Walk(nodes, c, Rest(p))
  }

  function Resolve(nodes: Nodes, path: string): Option<nat> {
    Walk(nodes, 0, if path != "" && path[0] == '/' then path[1..] else path)
  }

  lemma StandStill(nodes: Nodes, cur: nat)
    ensures Walk(nodes, cur, "") == Some(cur)
  {
  }

  /** One segment of a path, its end given by the first slash. */
  lemma WalkStep(nodes: Nodes, cur: nat, p: string, n: nat)
    requires p != "" && n <= |p| && '/' !in p[..n] && (n < |p| ==> p[n] == '/')
    ensures Walk(nodes, cur, p)
         == match Enter(nodes, cur, Cut(p[..n]))
            case None => None
            case Some(c) => Walk(nodes, c, if n < |p| then p[n + 1..] else "")
  {
    hide Enter, Cut, SegLen;
    var m := SegLen(p);
    assert forall k :: 0 <= k < n ==> p[..n][k] == p[k];
    assert forall k :: 0 <= k < m ==> p[..m][k] == p[k];
    assert m == n;
  }

  /** Walking a joined path is walking the first part and then the second. */
  lemma {:induction false} WalkJoin(nodes: Nodes, cur: nat, a: string, b: string)
    ensures Walk(nodes, cur, a + "/" + b)
         == match Walk(nodes, cur, a) case None => None case Some(c) => Walk(nodes, c, b)
    decreases |a|
  {
    hide Walk, FindChild, Cut, SegLen;
    var p, n := a + "/" + b, SegLen(a);
    assert p[..n] == a[..n];
    assert p[n + 1..] == (if n < |a| then a[n + 1..] + "/" + b else b);
    WalkStep(nodes, cur, p, n);
    StandStill(nodes, cur);
    if a == "" {
      assert Cut("") == "" by { EmptyCut(); }
    } else {
      WalkStep(nodes, cur, a, n);
      var e := Enter(nodes, cur, Cut(a[..n]));
      if e.Some? && n < |a| { WalkJoin(nodes, e.value, a[n + 1..], b); }
      if e.Some? { StandStill(nodes, e.value); }
    }
  }

  lemma EmptyCut()
    ensures Cut("") == ""
  {
  }

  /** A single segment. */
  lemma WalkOne(nodes: Nodes, cur: nat, name: string)
    requires '/' !in name
    ensures Walk(nodes, cur, name) == Enter(nodes, cur, Cut(name))
  {
    if name != "" {
      assert name[..|name|] == name;
      WalkStep(nodes, cur, name, |name|);
    }
  }

  // ----- the tree -----

  predicate ValidName(s: string) { s != "" && s != "." && s != ".." && '/' !in s && |s| < NAME_LEN }

  /** The root is node 0; every other node hangs below an older one, so that following parents ends
      at the root; names are valid and differ among siblings.  `birth` is the order of creation. */
  ghost predicate Tree(nodes: Nodes, birth: seq<nat>, clock: nat) {
    |birth| == MAX_NODES && nodes[0].used && nodes[0].parent == -1 &&
    (forall i :: 0 <= i < MAX_NODES && nodes[i].used ==> birth[i] < clock) &&
    (forall i :: 0 < i < MAX_NODES && nodes[i].used ==>
       0 <= nodes[i].parent < MAX_NODES && nodes[nodes[i].parent].used && birth[nodes[i].parent] < birth[i] &&
       ValidName(nodes[i].name)) &&
    forall i, j :: 0 < i < j < MAX_NODES && nodes[i].used && nodes[j].used && nodes[i].parent == nodes[j].parent ==>
                     nodes[i].name != nodes[j].name
  }

  /** In a tree the child found under a name is the one that has it. */
  lemma FindIs(nodes: Nodes, birth: seq<nat>, clock: nat, id: nat)
    requires Tree(nodes, birth, clock) && 0 < id < MAX_NODES && nodes[id].used
    ensures FindChild(nodes, nodes[id].parent, nodes[id].name, 0) == Some(id)
  {
    var r := FindChild(nodes, nodes[id].parent, nodes[id].name, 0);
    assert ChildOf(nodes[id], nodes[id].parent, nodes[id].name);
    if r.value == 0 { assert false; }
  }

  lemma {:induction false} WalkUsed(nodes: Nodes, birth: seq<nat>, clock: nat, cur: nat, p: string)
    requires Tree(nodes, birth, clock) && cur < MAX_NODES && nodes[cur].used && Walk(nodes, cur, p).Some?
    ensures Walk(nodes, cur, p).value < MAX_NODES && nodes[Walk(nodes, cur, p).value].used
    decreases |p|
  {
    if p != "" {
      var c := Enter(nodes, cur, Cut(p[..SegLen(p)])).value;
      assert c < MAX_NODES && nodes[c].used;
      WalkUsed(nodes, birth, clock, c, Rest(p));
    }
  }

  // ----- printing a path -----

  /** The names from the root's child down to the node. */
  ghost function Names(nodes: Nodes, birth: seq<nat>, clock: nat, id: nat): seq<string>
    requires Tree(nodes, birth, clock) && id < MAX_NODES && nodes[id].used
    decreases birth[id]
  {
    if id == 0 then [] else Names(nodes, birth, clock, nodes[id].parent) + [nodes[id].name]
  }

  function Join(parts: seq<string>): string {
    if parts == [] then "" else if |parts| == 1 then parts[0] else parts[0] + "/" + Join(parts[1..])
  }

  lemma {:induction false} JoinSnoc(parts: seq<string>, last: string)
    requires parts != []
    ensures Join(parts + [last]) == Join(parts) + "/" + last
    decreases |parts|
  {
    assert (parts + [last])[0] == parts[0];
    if |parts| == 1 {
      assert (parts + [last])[1..] == [last];
    } else {
      assert (parts + [last])[1..] == parts[1..] + [last];
      JoinSnoc(parts[1..], last);
      assert parts[0] + "/" + (Join(parts[1..]) + "/" + last) == parts[0] + "/" + Join(parts[1..]) + "/" + last;
    }
  }

  /** Walking the names of a node from the root arrives at the node. */
  lemma {:induction false} WalkNames(nodes: Nodes, birth: seq<nat>, clock: nat, id: nat)
    requires Tree(nodes, birth, clock) && id < MAX_NODES && nodes[id].used
    ensures Walk(nodes, 0, Join(Names(nodes, birth, clock, id))) == Some(id)
    decreases birth[id]
  {
    if id != 0 {
      var p, name := nodes[id].parent, nodes[id].name;
      WalkNames(nodes, birth, clock, p);
      FindIs(nodes, birth, clock, id);
      var above := Names(nodes, birth, clock, p);
      WalkOne(nodes, p, name);
      if above == [] {
        assert p == 0;
        assert above + [name] == [name];
      } else {
        JoinSnoc(above, name);
        WalkJoin(nodes, 0, Join(above), name);
      }
    }
  }

  /** The names met on the way up, at most eight, the node's own first. */
  function Climb(nodes: Nodes, cur: int, depth: nat): (parts: seq<string>)
    requires depth <= MAX_DEPTH
    ensures |parts| <= MAX_DEPTH - depth
    decreases MAX_DEPTH - depth
  {
    if !(0 < cur < MAX_NODES) || depth == MAX_DEPTH || !nodes[cur].used then []
    else [nodes[cur].name] + Climb(nodes, nodes[cur].parent, depth + 1)
  }

  /** The printing loop: parts from the last one down, stopping at the first that does not fit. */
  function Print(parts: seq<string>, buf: string, len: nat): string
    decreases |parts|
  {
    if parts == [] then buf
    else
      var part := parts[|parts| - 1];
      if |buf| + |part| + 1 >= len then buf
      else
        var b := buf + part;
        Print(parts[..|parts| - 1], if |parts| > 1 && |b| < len - 1 then b + "/" else b, len)
  }

  function NodePath(nodes: Nodes, id: int, len: nat): string { Print(Climb(nodes, id, 0), "/", len) }

  function Reverse(s: seq<string>): seq<string> {
    if s == [] then [] else Reverse(s[1..]) + [s[0]]
  }

  lemma {:induction false} ClimbIsNames(nodes: Nodes, birth: seq<nat>, clock: nat, id: nat, depth: nat)
    requires Tree(nodes, birth, clock) && id < MAX_NODES && nodes[id].used
    requires depth + |Names(nodes, birth, clock, id)| <= MAX_DEPTH
    ensures Reverse(Climb(nodes, id, depth)) == Names(nodes, birth, clock, id)
    decreases birth[id]
  {
    if id != 0 {
      ClimbIsNames(nodes, birth, clock, nodes[id].parent, depth + 1);
      assert Climb(nodes, id, depth)[1..] == Climb(nodes, nodes[id].parent, depth + 1);
    }
  }

  lemma {:induction false} PrintFits(parts: seq<string>, buf: string, len: nat)
    requires |buf| + |Join(Reverse(parts))| + 1 < len
    ensures Print(parts, buf, len) == buf + Join(Reverse(parts))
    decreases |parts|
  {
    if parts == [] {
      assert buf + "" == buf;
    } else {
      var k := |parts| - 1;
      var part := parts[k];
      ReverseLast(parts);
      var rest := Reverse(parts[..k]);
      assert Reverse(parts) == [part] + rest;
      if k == 0 {
        assert rest == [] && Join([part]) == part;
        assert parts[..0] == [];
      } else {
        ReverseLength(parts[..k]);
        assert ([part] + rest)[1..] == rest;
        assert Join(Reverse(parts)) == part + "/" + Join(rest);
        var b := buf + part + "/";
        PrintFits(parts[..k], b, len);
        assert b + Join(rest) == buf + (part + "/" + Join(rest));
      }
    }
  }

  lemma {:induction false} ReverseLength(s: seq<string>)
    ensures |Reverse(s)| == |s|
    decreases |s|
  {
    if s != [] { ReverseLength(s[1..]); }
  }

  lemma {:induction false} ReverseLast(s: seq<string>)
    requires s != []
    ensures Reverse(s) == [s[|s| - 1]] + Reverse(s[..|s| - 1])
    decreases |s|
  {
    if |s| == 1 {
      assert s[1..] == [] && s[..0] == [];
    } else {
      ReverseLast(s[1..]);
      assert s[1..][..|s| - 2] == s[..|s| - 1][1..];
      assert s[..|s| - 1][0] == s[0];
    }
  }

  /** The limits under which a node's path is printed whole: at most eight names that fit in the buffer. */
  ghost predicate Printable(nodes: Nodes, birth: seq<nat>, clock: nat, id: nat, len: nat)
    requires Tree(nodes, birth, clock) && id < MAX_NODES && nodes[id].used
  {
    var names := Names(nodes, birth, clock, id);
    |names| <= MAX_DEPTH && 1 + |Join(names)| + 1 < len
  }

  lemma PathIs(nodes: Nodes, birth: seq<nat>, clock: nat, id: nat, len: nat)
    requires Tree(nodes, birth, clock) && id < MAX_NODES && nodes[id].used && Printable(nodes, birth, clock, id, len)
    ensures NodePath(nodes, id, len) == "/" + Join(Names(nodes, birth, clock, id))
  {
    ClimbIsNames(nodes, birth, clock, id, 0);
    PrintFits(Climb(nodes, id, 0), "/", len);
  }

  /** Resolving the printed path of a node finds the node. */
  lemma ResolvePath(nodes: Nodes, birth: seq<nat>, clock: nat, id: nat)
    requires Tree(nodes, birth, clock) && id < MAX_NODES && nodes[id].used &&
             Printable(nodes, birth, clock, id, PATH_LEN)
    ensures Resolve(nodes, NodePath(nodes, id, PATH_LEN)) == Some(id)
  {
    PathIs(nodes, birth, clock, id, PATH_LEN);
    WalkNames(nodes, birth, clock, id);
    var path := NodePath(nodes, id, PATH_LEN);
    assert path[1..] == Join(Names(nodes, birth, clock, id));
  }

  // ----- absolute paths -----

  /** The working directory's path, a slash unless there is one, and the given path. */
  function Absolute(nodes: Nodes, cwd: nat, path: string): string {
    if path != "" && path[0] == '/' then path
    else
      var here := NodePath(nodes, cwd, PATH_LEN);
      (if |here| < PATH_LEN - 2 && here != "" && here[|here| - 1] != '/' then here + "/" else here) + path
  }

  /** Resolving the absolute form of a relative path is walking the path from the working directory. */
  lemma RelativeWalk(nodes: Nodes, birth: seq<nat>, clock: nat, cwd: nat, path: string)
    requires Tree(nodes, birth, clock) && cwd < MAX_NODES && nodes[cwd].used
    requires Printable(nodes, birth, clock, cwd, PATH_LEN) && (path == "" || path[0] != '/')
    requires |NodePath(nodes, cwd, PATH_LEN)| + 1 + |path| < PATH_LEN
    ensures Resolve(nodes, Absolute(nodes, cwd, path)) == Walk(nodes, cwd, path)
  {
    hide Walk, Tree, NodePath, Join, Names;
    PathIs(nodes, birth, clock, cwd, PATH_LEN);
    WalkNames(nodes, birth, clock, cwd);
    NamesValid(nodes, birth, clock, cwd);
    var names := Names(nodes, birth, clock, cwd);
    var here := NodePath(nodes, cwd, PATH_LEN);
    assert here[1..] == Join(names);
    if cwd == 0 {
      RootPath(nodes, birth, clock);
      assert ("/" + path)[1..] == path;
    } else if path == "" && |here| == PATH_LEN - 2 {
      assert here + "" == here;
      StandStill(nodes, cwd);
    } else {
      LastOfJoin(names);
      assert here[|here| - 1] != '/';
      assert (here + "/" + path)[1..] == Join(names) + "/" + path;
      WalkJoin(nodes, 0, Join(names), path);
    }
  }

  lemma RootPath(nodes: Nodes, birth: seq<nat>, clock: nat)
    requires Tree(nodes, birth, clock)
    ensures Join(Names(nodes, birth, clock, 0)) == ""
  {
  }

  /** Two characters short of the buffer's end the slash is left out, and the path runs into the
      last name. */
  lemma NoRoomForSlash(nodes: Nodes, birth: seq<nat>, clock: nat, cwd: nat, path: string)
    requires Tree(nodes, birth, clock) && 0 < cwd < MAX_NODES && nodes[cwd].used && path != "" && path[0] != '/'
    requires Printable(nodes, birth, clock, cwd, PATH_LEN)
    ensures Absolute(nodes, cwd, path) == NodePath(nodes, cwd, PATH_LEN) + "/" + path
       <==> |NodePath(nodes, cwd, 128)| < 126
  {
    hide Tree, NodePath, Join, Names, Walk;
    PathIs(nodes, birth, clock, cwd, PATH_LEN);
    NamesValid(nodes, birth, clock, cwd);
    LastOfJoin(Names(nodes, birth, clock, cwd));
    var here := NodePath(nodes, cwd, PATH_LEN);
    assert |here + "/" + path| == |here| + 1 + |path|;
  }

  lemma {:induction false} NamesValid(nodes: Nodes, birth: seq<nat>, clock: nat, id: nat)
    requires Tree(nodes, birth, clock) && id < MAX_NODES && nodes[id].used
    ensures var n := Names(nodes, birth, clock, id);
            (id != 0 ==> n != []) && forall i :: 0 <= i < |n| ==> n[i] != "" && '/' !in n[i]
    decreases birth[id]
  {
    if id != 0 { NamesValid(nodes, birth, clock, nodes[id].parent); }
  }

  lemma {:induction false} LastOfJoin(parts: seq<string>)
    requires parts != [] && forall i :: 0 <= i < |parts| ==> parts[i] != "" && '/' !in parts[i]
    ensures Join(parts) != "" && Join(parts)[|Join(parts)| - 1] != '/'
    decreases |parts|
  {
    if |parts| > 1 { LastOfJoin(parts[1..]); }
  }

  lemma {:induction false} PrintSlash(parts: seq<string>, buf: string, len: nat)
    requires buf != "" && buf[0] == '/'
    ensures Print(parts, buf, len) != "" && Print(parts, buf, len)[0] == '/'
    decreases |parts|
  {
    if parts != [] {
      var b := buf + parts[|parts| - 1];
      if |buf| + |parts[|parts| - 1]| + 1 < len {
        PrintSlash(parts[..|parts| - 1], if |parts| > 1 && |b| < len - 1 then b + "/" else b, len);
      }
    }
  }

  lemma AbsoluteSlash(nodes: Nodes, cwd: nat, path: string)
    ensures Absolute(nodes, cwd, path) != "" && Absolute(nodes, cwd, path)[0] == '/'
  {
    hide Print, Climb;
    PrintSlash(Climb(nodes, cwd, 0), "/", PATH_LEN);
  }

  // ----- the operations -----

  datatype Fs = Fs(nodes: Nodes, cwd: nat)

  /** The last slash at or before `i`, position 0 if there is none after it. */
  function LastSlash(s: string, i: nat): (k: nat)
    requires i < |s|
    ensures k <= i && (k > 0 ==> s[k] == '/') && forall j :: k < j <= i ==> s[j] != '/'
  {
    if i == 0 || s[i] == '/' then i else LastSlash(s, i - 1)
  }

  function FirstFree(nodes: Nodes, i: nat): (k: nat)
    requires i <= MAX_NODES
    ensures i <= k <= MAX_NODES && (k < MAX_NODES ==> !nodes[k].used) && forall j :: i <= j < k ==> nodes[j].used
    decreases MAX_NODES - i
  {
    if i == MAX_NODES || !nodes[i].used then i else FirstFree(nodes, i + 1)
  }

  function ParentPart(nodes: Nodes, abs: string): Option<nat>
    requires abs != ""
  {
    var i := LastSlash(abs, |abs| - 1);
    if i == 0 then Some(0) else Resolve(nodes, abs[..i])
  }

  function NamePart(abs: string): string
    requires abs != ""
  {
    abs[LastSlash(abs, |abs| - 1) + 1..]
  }

  /** 0 for a path that exists, -1 for a failure, otherwise the new node. */
  function Mkdir(s: Fs, path: string): (Fs, int) {
    AbsoluteSlash(s.nodes, s.cwd, path);
    var abs := Absolute(s.nodes, s.cwd, path);
    if Resolve(s.nodes, abs).Some? then (s, 0)
    else
      var parent, id := ParentPart(s.nodes, abs), FirstFree(s.nodes, 0);
      if parent.None? || id == MAX_NODES then (s, -1)
      else (s.(nodes := s.nodes[id := Node(true, parent.value, NamePart(abs))]), id as int)
  }

  predicate HasChild(nodes: Nodes, id: nat) { exists j :: 0 <= j < MAX_NODES && nodes[j].used && nodes[j].parent == id }

  /** The node a removal takes away, if it takes one away. */
  function Removes(s: Fs, path: string): Option<nat> {
    match Resolve(s.nodes, Absolute(s.nodes, s.cwd, path))
    case None => None
    case Some(id) => if id >= MAX_NODES || HasChild(s.nodes, id) then None else Some(id)
  }

  function Rmdir(s: Fs, path: string): (Fs, int) {
    match Removes(s, path)
    case None => (s, -1)
    case Some(id) => (Fs(s.nodes[id := s.nodes[id].(used := false)], if s.cwd == id then 0 else s.cwd), 0)
  }

  function Chdir(s: Fs, path: string): (Fs, int) {
    match Resolve(s.nodes, Absolute(s.nodes, s.cwd, path))
    case None => (s, -1)
    case Some(id) => (s.(cwd := id), 0)
  }

  datatype Call = MakeDir(path: string) | RemoveDir(path: string) | ChangeDir(path: string)

  function Step(s: Fs, c: Call): Fs {
    match c
    case MakeDir(path) => Mkdir(s, path).0
    case RemoveDir(path) => Rmdir(s, path).0
    case ChangeDir(path) => Chdir(s, path).0
  }

  /** The new name fits its field. */
  predicate Fits(s: Fs, c: Call) {
    AbsoluteSlash(s.nodes, s.cwd, c.path);
    c.MakeDir? ==> |NamePart(Absolute(s.nodes, s.cwd, c.path))| < NAME_LEN
  }

  /** A tree with a working directory in it. */
  ghost predicate Live(s: Fs) {
    s.cwd < MAX_NODES && s.nodes[s.cwd].used && exists birth, clock :: Tree(s.nodes, birth, clock)
  }

  predicate RemovesRoot(s: Fs, c: Call) { c.RemoveDir? && Removes(s, c.path) == Some(0) }

  // ----- what every call keeps -----

  lemma ResolveUsed(nodes: Nodes, birth: seq<nat>, clock: nat, path: string)
    requires Tree(nodes, birth, clock) && Resolve(nodes, path).Some?
    ensures Resolve(nodes, path).value < MAX_NODES && nodes[Resolve(nodes, path).value].used
  {
    WalkUsed(nodes, birth, clock, 0, if path != "" && path[0] == '/' then path[1..] else path);
  }

  /** A path with no node of its own but with a parent names a free place: a valid name that no
      sibling has. */
  lemma FreshName(nodes: Nodes, birth: seq<nat>, clock: nat, abs: string)
    requires Tree(nodes, birth, clock) && abs != "" && abs[0] == '/' && |NamePart(abs)| < NAME_LEN
    requires Resolve(nodes, abs).None? && ParentPart(nodes, abs).Some?
    ensures var p, name := ParentPart(nodes, abs).value, NamePart(abs);
            p < MAX_NODES && nodes[p].used && ValidName(name) && FindChild(nodes, p, name, 0).None? &&
            Resolve(nodes, abs) == FindChild(nodes, p, name, 0)
  {
    hide Walk, Tree, FindChild, SegLen;
    var i, name := LastSlash(abs, |abs| - 1), NamePart(abs);
    var p := ParentPart(nodes, abs).value;
    if i == 0 {
      RootUsed(nodes, birth, clock);
    } else {
      ResolveUsed(nodes, birth, clock, abs[..i]);
      assert abs[1..] == abs[..i][1..] + "/" + name;
      WalkJoin(nodes, 0, abs[..i][1..], name);
    }
    WalkOne(nodes, p, name);
  }

  lemma RootUsed(nodes: Nodes, birth: seq<nat>, clock: nat)
    requires Tree(nodes, birth, clock)
    ensures nodes[0].used && |birth| == MAX_NODES
  {
  }

  lemma GrowTree(nodes: Nodes, birth: seq<nat>, clock: nat, id: nat, parent: nat, name: string)
    requires Tree(nodes, birth, clock) && id < MAX_NODES && !nodes[id].used
    requires parent < MAX_NODES && nodes[parent].used && ValidName(name) && FindChild(nodes, parent, name, 0).None?
    ensures Tree(nodes[id := Node(true, parent, name)], birth[id := clock], clock + 1)
  {
    hide FindChild, ValidName;
    var grown := nodes[id := Node(true, parent, name)];
    forall i, j | 0 < i < j < MAX_NODES && grown[i].used && grown[j].used && grown[i].parent == grown[j].parent
      ensures grown[i].name != grown[j].name
    {
      if i == id { assert !ChildOf(nodes[j], parent, name); }
      if j == id { assert !ChildOf(nodes[i], parent, name); }
    }
  }

  lemma PruneTree(nodes: Nodes, birth: seq<nat>, clock: nat, id: nat)
    requires Tree(nodes, birth, clock) && 0 < id < MAX_NODES && !HasChild(nodes, id)
    ensures Tree(nodes[id := nodes[id].(used := false)], birth, clock)
  {
    hide ValidName;
  }

  /** Every call on a live file system keeps it live, except removing an empty root. */
  lemma StepLive(s: Fs, c: Call)
    requires Live(s) && Fits(s, c)
    ensures Live(Step(s, c)) <==> !RemovesRoot(s, c)
  {
    hide Tree, Resolve, Absolute, FindChild, ParentPart, NamePart, HasChild, FirstFree;
    var birth: seq<nat>, clock: nat :| Tree(s.nodes, birth, clock);
    AbsoluteSlash(s.nodes, s.cwd, c.path);
    RootUsed(s.nodes, birth, clock);
    var abs := Absolute(s.nodes, s.cwd, c.path);
    var found := Resolve(s.nodes, abs);
    if found.Some? { ResolveUsed(s.nodes, birth, clock, abs); }
    match c {
      case ChangeDir(_) =>
        assert Tree(Step(s, c).nodes, birth, clock);
      case MakeDir(_) =>
        var parent, id := ParentPart(s.nodes, abs), FirstFree(s.nodes, 0);
        if found.None? && parent.Some? && id < MAX_NODES {
          FreshName(s.nodes, birth, clock, abs);
          GrowTree(s.nodes, birth, clock, id, parent.value, NamePart(abs));
          assert Tree(Step(s, c).nodes, birth[id := clock], clock + 1);
        } else {
          assert Step(s, c) == s;
        }
      case RemoveDir(_) =>
        if RemovesRoot(s, c) {
          NoRoot(Step(s, c));
        } else if Removes(s, c.path).Some? {
          PruneTree(s.nodes, birth, clock, found.value);
        } else {
          assert Step(s, c) == s;
        }
    }
  }

  lemma NoRoot(s: Fs)
    requires !s.nodes[0].used
    ensures !Live(s)
  {
  }

  function Run(s: Fs, cs: seq<Call>): Fs
    decreases |cs|
  {
    if cs == [] then s else Run(Step(s, cs[0]), cs[1..])
  }

  /** No call of the run has an over-long name or removes the root. */
  predicate Proper(s: Fs, cs: seq<Call>)
    decreases |cs|
  {
    cs == [] || (Fits(s, cs[0]) && !RemovesRoot(s, cs[0]) && Proper(Step(s, cs[0]), cs[1..]))
  }

  function Booted(): Fs { Fs(seq(MAX_NODES, i => if i == 0 then Node(true, -1, "/") else Node(false, 0, "")), 0) }

  lemma BootedLive()
    ensures Live(Booted())
  {
    assert Tree(Booted().nodes, seq(MAX_NODES, i => 0), 1);
  }

  lemma {:induction false} RunLive(s: Fs, cs: seq<Call>)
    requires Live(s) && Proper(s, cs)
    ensures Live(Run(s, cs))
    decreases |cs|
  {
    hide Step, Fits, RemovesRoot, Live;
    if cs != [] {
      StepLive(s, cs[0]);
      RunLive(Step(s, cs[0]), cs[1..]);
    }
  }

  /** After any proper run from the start, the printed path of every node within the limits resolves
      to the node. */
  lemma RunResolves(cs: seq<Call>, birth: seq<nat>, clock: nat, id: nat)
    requires Proper(Booted(), cs) && id < MAX_NODES && Run(Booted(), cs).nodes[id].used
    ensures Live(Run(Booted(), cs))
    ensures var nodes := Run(Booted(), cs).nodes;
            Tree(nodes, birth, clock) && Printable(nodes, birth, clock, id, PATH_LEN) ==>
              Resolve(nodes, NodePath(nodes, id, PATH_LEN)) == Some(id)
  {
    hide Run, Live, Tree, Resolve, NodePath, Printable, Proper;
    BootedLive();
    RunLive(Booted(), cs);
    var nodes := Run(Booted(), cs).nodes;
    if Tree(nodes, birth, clock) && Printable(nodes, birth, clock, id, PATH_LEN) {
      ResolvePath(nodes, birth, clock, id);
    }
  }

  // ----- creating and removing -----

  /** `more` holds every node of `nodes`, with the same parent and name. */
  predicate Extends(nodes: Nodes, more: Nodes) {
    forall i :: 0 <= i < MAX_NODES && nodes[i].used ==> more[i] == nodes[i]
  }

  /** What could be reached before is reached still. */
  lemma {:induction false} WalkGrows(nodes: Nodes, more: Nodes, birth: seq<nat>, clock: nat, b2: seq<nat>, c2: nat,
                                     cur: nat, p: string)
    requires Tree(nodes, birth, clock) && Tree(more, b2, c2) && Extends(nodes, more)
    requires cur < MAX_NODES && nodes[cur].used && Walk(nodes, cur, p).Some?
    ensures Walk(more, cur, p) == Walk(nodes, cur, p)
    decreases |p|
  {
    hide Tree, FindChild, SegLen;
    if p != "" {
      var seg := Cut(p[..SegLen(p)]);
      EnterGrows(nodes, more, birth, clock, b2, c2, cur, seg);
      WalkGrows(nodes, more, birth, clock, b2, c2, Enter(nodes, cur, seg).value, Rest(p));
    }
  }

  lemma EnterGrows(nodes: Nodes, more: Nodes, birth: seq<nat>, clock: nat, b2: seq<nat>, c2: nat, cur: nat, seg: string)
    requires Tree(nodes, birth, clock) && Tree(more, b2, c2) && Extends(nodes, more)
    requires cur < MAX_NODES && nodes[cur].used && Enter(nodes, cur, seg).Some?
    ensures Enter(more, cur, seg) == Enter(nodes, cur, seg)
    ensures Enter(nodes, cur, seg).value < MAX_NODES && nodes[Enter(nodes, cur, seg).value].used
  {
    hide ValidName;
    if seg != "" && seg != "." && seg != ".." {
      var k := FindChild(nodes, cur, seg, 0).value;
      assert ChildOf(nodes[k], cur, seg);
      if k == 0 { assert nodes[0].parent == -1; }
      FindIs(more, b2, c2, k);
    }
  }

  /** A directory just made is found under its path, and every path that resolved before resolves to
      the same node. */
  lemma MkdirFound(s: Fs, birth: seq<nat>, clock: nat, path: string, other: string)
    requires Tree(s.nodes, birth, clock) && s.cwd < MAX_NODES && s.nodes[s.cwd].used && Fits(s, MakeDir(path))
    requires Mkdir(s, path).1 > 0
    ensures Resolve(Mkdir(s, path).0.nodes, Absolute(s.nodes, s.cwd, path)) == Some(Mkdir(s, path).1)
    ensures Resolve(s.nodes, other).Some? ==> Resolve(Mkdir(s, path).0.nodes, other) == Resolve(s.nodes, other)
  {
    hide Tree, FindChild, Walk, Absolute, FirstFree, LastSlash;
    AbsoluteSlash(s.nodes, s.cwd, path);
    RootUsed(s.nodes, birth, clock);
    var abs := Absolute(s.nodes, s.cwd, path);
    var p, name, id := ParentPart(s.nodes, abs).value, NamePart(abs), FirstFree(s.nodes, 0);
    FreshName(s.nodes, birth, clock, abs);
    GrowTree(s.nodes, birth, clock, id, p, name);
    var more := Mkdir(s, path).0.nodes;
    var b2 := birth[id := clock];
    assert Extends(s.nodes, more);
    if Resolve(s.nodes, other).Some? {
      WalkGrows(s.nodes, more, birth, clock, b2, clock + 1, 0,
                if other != "" && other[0] == '/' then other[1..] else other);
    }
    FindIs(more, b2, clock + 1, id);
    WalkOne(more, p, name);
    var i := LastSlash(abs, |abs| - 1);
    if i > 0 {
      WalkGrows(s.nodes, more, birth, clock, b2, clock + 1, 0, abs[..i][1..]);
      assert abs[1..] == abs[..i][1..] + "/" + name;
      WalkJoin(more, 0, abs[..i][1..], name);
    }
  }

  /** The same nodes are in use, and those are equal. */
  predicate SameUsed(a: Nodes, b: Nodes) {
    forall i :: 0 <= i < MAX_NODES ==> a[i].used == b[i].used && (a[i].used ==> a[i] == b[i])
  }

  lemma {:induction false} FindSame(a: Nodes, b: Nodes, parent: nat, name: string, i: nat)
    requires SameUsed(a, b) && i <= MAX_NODES
    ensures FindChild(a, parent, name, i) == FindChild(b, parent, name, i)
    decreases MAX_NODES - i
  {
    if i < MAX_NODES { FindSame(a, b, parent, name, i + 1); }
  }

  lemma {:induction false} WalkSame(a: Nodes, b: Nodes, cur: nat, p: string)
    requires SameUsed(a, b)
    ensures Walk(a, cur, p) == Walk(b, cur, p)
    decreases |p|
  {
    hide FindChild, SegLen;
    if p != "" {
      var seg := Cut(p[..SegLen(p)]);
      FindSame(a, b, cur, seg, 0);
      var e := Enter(a, cur, seg);
      if e.Some? { WalkSame(a, b, e.value, Rest(p)); }
    }
  }

  /** Removing a directory that was just made leaves every path as it was. */
  lemma RmdirUndoesMkdir(s: Fs, birth: seq<nat>, clock: nat, path: string, p: string)
    requires Tree(s.nodes, birth, clock) && s.cwd < MAX_NODES && s.nodes[s.cwd].used && Fits(s, MakeDir(path))
    requires Mkdir(s, path).1 > 0 && path != "" && path[0] == '/'
    ensures var r := Rmdir(Mkdir(s, path).0, path);
            r.1 == 0 && r.0.cwd == s.cwd && Resolve(r.0.nodes, p) == Resolve(s.nodes, p)
  {
    hide Tree, FindChild, Walk, ParentPart, NamePart;
    MkdirFound(s, birth, clock, path, "");
    NoOrphans(s.nodes, birth, clock);
    var made := Mkdir(s, path).0;
    var id := Mkdir(s, path).1;
    ParentIsOlder(s, birth, clock, path);
    assert !HasChild(made.nodes, id);
    var r := Rmdir(made, path).0;
    assert SameUsed(r.nodes, s.nodes);
    WalkSame(r.nodes, s.nodes, 0, if p != "" && p[0] == '/' then p[1..] else p);
  }

  /** No node in use hangs below one that is not. */
  lemma NoOrphans(nodes: Nodes, birth: seq<nat>, clock: nat)
    requires Tree(nodes, birth, clock)
    ensures forall i, j :: 0 <= i < MAX_NODES && 0 <= j < MAX_NODES && nodes[i].used && !nodes[j].used ==>
            nodes[i].parent != j
  {
  }

  lemma ParentIsOlder(s: Fs, birth: seq<nat>, clock: nat, path: string)
    requires Tree(s.nodes, birth, clock) && Fits(s, MakeDir(path)) && Mkdir(s, path).1 > 0
    ensures !s.nodes[Mkdir(s, path).1].used && Mkdir(s, path).0.nodes[Mkdir(s, path).1].parent != Mkdir(s, path).1
  {
    hide Tree, FindChild, Walk, Absolute, LastSlash;
    AbsoluteSlash(s.nodes, s.cwd, path);
    FreshName(s.nodes, birth, clock, Absolute(s.nodes, s.cwd, path));
  }

  // ----- moving about -----

  /** `..` leads to the directory whose names are all but the last, and from the root nowhere else. */
  lemma DotDot(nodes: Nodes, birth: seq<nat>, clock: nat, id: nat)
    requires Tree(nodes, birth, clock) && id < MAX_NODES && nodes[id].used
    ensures Walk(nodes, id, "..").Some?
    ensures var p, names := Walk(nodes, id, "..").value, Names(nodes, birth, clock, id);
            p < MAX_NODES && nodes[p].used && (id == 0 ==> p == 0) &&
            (id != 0 ==> names != [] && Names(nodes, birth, clock, p) == names[..|names| - 1])
  {
    hide Walk;
    WalkOne(nodes, id, "..");
    assert Cut("..") == "..";
  }

  /** Into a directory and out again. */
  lemma InAndOut(nodes: Nodes, birth: seq<nat>, clock: nat, cur: nat, name: string)
    requires Tree(nodes, birth, clock) && cur < MAX_NODES && nodes[cur].used
    requires ValidName(name) && Walk(nodes, cur, name).Some?
    ensures Walk(nodes, cur, name + "/..") == Some(cur)
  {
    hide Walk, FindChild;
    WalkOne(nodes, cur, name);
    WalkJoin(nodes, cur, name, "..");
    assert name + "/.." == name + "/" + "..";
    var c := Walk(nodes, cur, name).value;
    assert Cut(name) == name && Cut("..") == "..";
    WalkOne(nodes, c, "..");
    assert ChildOf(nodes[c], cur, name);
  }

  /** A change of directory along a relative path goes where the path leads, and fails and does nothing where it
      leads nowhere; the path printed of the new directory leads to it. */
  lemma ChdirGoes(s: Fs, birth: seq<nat>, clock: nat, path: string)
    requires Tree(s.nodes, birth, clock) && s.cwd < MAX_NODES && s.nodes[s.cwd].used
    requires Printable(s.nodes, birth, clock, s.cwd, PATH_LEN) && (path == "" || path[0] != '/')
    requires |NodePath(s.nodes, s.cwd, PATH_LEN)| + 1 + |path| < PATH_LEN
    ensures Chdir(s, path)
         == match Walk(s.nodes, s.cwd, path) case None => (s, -1) case Some(c) => (Fs(s.nodes, c), 0)
    ensures var r := Chdir(s, path).0;
            r.cwd < MAX_NODES && s.nodes[r.cwd].used &&
            (Printable(s.nodes, birth, clock, r.cwd, PATH_LEN) ==>
               Resolve(s.nodes, NodePath(s.nodes, r.cwd, PATH_LEN)) == Some(r.cwd))
  {
    hide Walk, Tree, NodePath, Printable, Absolute;
    RelativeWalk(s.nodes, birth, clock, s.cwd, path);
    if Walk(s.nodes, s.cwd, path).Some? { WalkUsed(s.nodes, birth, clock, s.cwd, path); }
    var c := Chdir(s, path).0.cwd;
    if Printable(s.nodes, birth, clock, c, PATH_LEN) { ResolvePath(s.nodes, birth, clock, c); }
  }

  /** `cd name` and then `cd ..` ends where it began. */
  lemma ThereAndBack(s: Fs, birth: seq<nat>, clock: nat, name: string)
    requires Tree(s.nodes, birth, clock) && s.cwd < MAX_NODES && s.nodes[s.cwd].used && ValidName(name)
    requires Printable(s.nodes, birth, clock, s.cwd, PATH_LEN) && Chdir(s, name).1 == 0
    requires |NodePath(s.nodes, s.cwd, PATH_LEN)| + 1 + |name| < PATH_LEN
    requires var c := Chdir(s, name).0.cwd;
             c < MAX_NODES && s.nodes[c].used && Printable(s.nodes, birth, clock, c, PATH_LEN) &&
             |NodePath(s.nodes, c, PATH_LEN)| + 3 < PATH_LEN
    ensures Chdir(Chdir(s, name).0, "..") == (s, 0)
  {
    hide Walk, Tree, NodePath, Printable, Chdir;
    ChdirGoes(s, birth, clock, name);
    InAndOut(s.nodes, birth, clock, s.cwd, name);
    WalkJoin(s.nodes, s.cwd, name, "..");
    assert name + "/.." == name + "/" + "..";
    ChdirGoes(Chdir(s, name).0, birth, clock, "..");
  }

  // ----- the loops on the table -----

  lemma FindStep(nodes: Nodes, parent: nat, name: string, i: nat)
    requires i < MAX_NODES
    ensures FindChild(nodes, parent, name, i)
         == if ChildOf(nodes[i], parent, name) then Some(i) else FindChild(nodes, parent, name, i + 1)
  {
  }

  lemma ClimbStep(nodes: Nodes, cur: int, depth: nat)
    requires depth <= MAX_DEPTH
    ensures Climb(nodes, cur, depth)
         == if !(0 < cur < MAX_NODES) || depth == MAX_DEPTH || !nodes[cur].used then []
            else [nodes[cur].name] + Climb(nodes, nodes[cur].parent, depth + 1)
  {
  }

  class Vfs {
    var nodes: array<Node>
    var cwd: nat

    ghost predicate Ready()
      reads this
    {
      nodes.Length == MAX_NODES
    }

    ghost function Value(): Fs
      reads this, nodes
      requires Ready()
    {
      Fs(nodes[..], cwd)
    }

    constructor ()
      ensures Ready() && fresh(nodes) && Value() == Booted()
    {
      nodes := new Node[MAX_NODES](i => if i == 0 then Node(true, -1, "/") else Node(false, 0, ""));
      cwd := 0;
      new;
      assert nodes[..] == Booted().nodes;
    }

    method AllocNode() returns (id: int)
      requires Ready()
      ensures var k := FirstFree(nodes[..], 0); id == if k == MAX_NODES then -1 else k
    {
      ghost var t: Nodes := nodes[..];
      var i := 0;
      while i < MAX_NODES
        invariant 0 <= i <= MAX_NODES && FirstFree(t, i) == FirstFree(t, 0)
      {
        assert t[i] == nodes[i];
        if !nodes[i].used { return i; }
        i := i + 1;
      }
      return -1;
    }

    method Child(parent: nat, name: string) returns (r: Option<nat>)
      requires Ready()
      ensures r == FindChild(nodes[..], parent, name, 0)
    {
      hide FindChild;
      ghost var t: Nodes := nodes[..];
      var i := 0;
      while i < MAX_NODES
        invariant 0 <= i <= MAX_NODES && FindChild(t, parent, name, i) == FindChild(t, parent, name, 0)
      {
        assert t[i] == nodes[i];
        FindStep(t, parent, name, i);
        if nodes[i].used && nodes[i].parent == parent && nodes[i].name == name { return Some(i); }
        i := i + 1;
      }
      return None;
    }

    /** The characters up to the next slash, of which 31 are kept. */
    method Segment(path: string, from: nat) returns (seg: string, p: nat)
      requires from <= |path|
      ensures from <= p <= |path| && '/' !in path[from..p] && (p < |path| ==> path[p] == '/')
      ensures seg == Cut(path[from..p])
    {
      p, seg := from, "";
      while p < |path| && path[p] != '/'
        invariant from <= p <= |path| && '/' !in path[from..p] && seg == Cut(path[from..p])
      {
        if |seg| < NAME_LEN - 1 { seg := seg + [path[p]]; }
        assert path[from..p + 1] == path[from..p] + [path[p]];
        p := p + 1;
      }
    }

    method ResolvePath(path: string) returns (r: Option<nat>)
      requires Ready()
      ensures r == Resolve(nodes[..], path)
    {
      hide Walk, FindChild, Cut;
      ghost var t: Nodes := nodes[..];
      var p := if path != "" && path[0] == '/' then 1 else 0;
      var cur: nat := 0;
      assert path[0..] == path;
      while p < |path|
        invariant 0 <= p <= |path| && Walk(t, cur, path[p..]) == Resolve(t, path)
      {
        var seg, q := Segment(path, p);
        ghost var rest := path[p..];
        assert rest[..q - p] == path[p..q];
        assert q < |path| ==> rest[q - p + 1..] == path[q + 1..];
        assert q == |path| ==> path[q..] == "";
        WalkStep(t, cur, rest, q - p);
        p := if q < |path| then q + 1 else q;
        if seg == "" || seg == "." { continue; }
        if seg == ".." {
          cur := if cur < MAX_NODES && nodes[cur].used && nodes[cur].parent >= 0 then nodes[cur].parent else 0;
          continue;
        }
        var c := Child(cur, seg);
        if c.None? { return None; }
        cur := c.value;
      }
      assert path[p..] == "";
      StandStill(t, cur);
      return Some(cur);
    }

    method ClimbFrom(id: int) returns (parts: seq<string>)
      requires Ready()
      ensures parts == Climb(nodes[..], id, 0)
    {
      hide Climb;
      ghost var t: Nodes := nodes[..];
      parts := [];
      var cur := id;
      while cur > 0 && |parts| < MAX_DEPTH
        invariant |parts| <= MAX_DEPTH && parts + Climb(t, cur, |parts|) == Climb(t, id, 0)
        decreases MAX_DEPTH - |parts|
      {
        ClimbStep(t, cur, |parts|);
        if cur >= MAX_NODES || !nodes[cur].used { break; }
        assert t[cur] == nodes[cur];
        parts := parts + [nodes[cur].name];
        cur := nodes[cur].parent;
      }
      ClimbStep(t, cur, |parts|);
    }

    /** The climb to the root, then the names written from the last one collected to the first. */
    method NodePathOf(id: int, len: nat) returns (buf: string)
      requires Ready()
      ensures buf == NodePath(nodes[..], id, len)
    {
      var parts := ClimbFrom(id);
      buf := "/";
      var d: int := |parts|;
      assert parts[..d] == parts;
      while d > 0
        invariant 0 <= d <= |parts| && Print(parts[..d], buf, len) == NodePath(nodes[..], id, len)
      {
        var part := parts[d - 1];
        assert parts[..d][..d - 1] == parts[..d - 1];
        if |buf| + |part| + 1 >= len { break; }
        buf := buf + part;
        if d > 1 && |buf| < len - 1 { buf := buf + "/"; }
        d := d - 1;
      }
    }

    method MakeAbsolute(path: string) returns (abs: string)
      requires Ready()
      ensures abs == Absolute(nodes[..], cwd, path)
    {
      hide NodePath;
      if path != "" && path[0] == '/' { return path; }
      abs := NodePathOf(cwd, PATH_LEN);
      if |abs| < PATH_LEN - 2 && abs != "" && abs[|abs| - 1] != '/' { abs := abs + "/"; }
      abs := abs + path;
    }

    method MakeDirectory(path: string) returns (r: int)
      requires Ready() && Fits(Value(), MakeDir(path)) && |Absolute(nodes[..], cwd, path)| < PATH_LEN
      modifies nodes
      ensures (Value(), r) == Mkdir(old(Value()), path)
    {
      hide Resolve, Absolute;
      AbsoluteSlash(nodes[..], cwd, path);
      var abs := MakeAbsolute(path);
      var found := ResolvePath(abs);
      if found.Some? { return 0; }
      var i := |abs| - 1;
      while i > 0 && abs[i] != '/'
        invariant 0 <= i < |abs| && LastSlash(abs, i) == LastSlash(abs, |abs| - 1)
      {
        i := i - 1;
      }
      var parent: Option<nat> := Some(0);
      if i > 0 { parent := ResolvePath(abs[..i]); }
      if parent.None? { return -1; }
      var id := AllocNode();
      if id < 0 { return -1; }
      ghost var t := nodes[..];
      nodes[id] := Node(true, parent.value, abs[i + 1..]);
      assert nodes[..] == t[id := Node(true, parent.value, abs[i + 1..])];
      return id;
    }

    method RemoveDirectory(path: string) returns (r: int)
      requires Ready() && |Absolute(nodes[..], cwd, path)| < PATH_LEN
      modifies this`cwd, nodes
      ensures nodes == old(nodes) && (Value(), r) == Rmdir(old(Value()), path)
    {
      hide Resolve, Absolute;
      ghost var t: Nodes := nodes[..];
      var abs := MakeAbsolute(path);
      var found := ResolvePath(abs);
      if found.None? || found.value >= MAX_NODES { return -1; }
      var id := found.value;
      var child := 0;
      while child < MAX_NODES
        invariant 0 <= child <= MAX_NODES && forall j :: 0 <= j < child ==> !(t[j].used && t[j].parent == id)
      {
        assert t[child] == nodes[child];
        if nodes[child].used && nodes[child].parent == id { return -1; }
        child := child + 1;
      }
      assert !HasChild(t, id);
      nodes[id] := nodes[id].(used := false);
      assert nodes[..] == t[id := t[id].(used := false)];
      if cwd == id { cwd := 0; }
      return 0;
    }

    method ChangeDirectory(path: string) returns (r: int)
      requires Ready() && |Absolute(nodes[..], cwd, path)| < PATH_LEN
      modifies this`cwd
      ensures (Value(), r) == Chdir(old(Value()), path)
    {
      hide Resolve, Absolute;
      var abs := MakeAbsolute(path);
      var found := ResolvePath(abs);
      if found.None? { return -1; }
      cwd := found.value;
      return 0;
    }
  }
}
