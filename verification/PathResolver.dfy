/**
 Pathname resolution as path_get does it where the host cannot confine lookups:
 a stack of directories, a stack of partly read pathname strings, and a counter
 of symlink expansions.
 */
module PathResolver {

  datatype Errno =
    | ENOENT | ENOTDIR | ELOOP | EMLINK | EINVAL | EBADF | ENOTCAPABLE | ENAMETOOLONG | EILSEQ
    | EOTHER(code: int)

  // ---------- The host's file system, which does not change during a lookup ----------

  type Node = nat

  datatype Entry =
    | Dir(names: map<string, Node>)
    | Link(target: string)
    | Leaf(openErr: Errno, linkErr: Errno)   // anything else, or a directory that cannot be opened

  datatype FileSystem = FileSystem(nodes: map<Node, Entry>, linkOpenErr: Errno)

  // Names lead to nodes, and only symbolic links are reported as such.
  ghost predicate Proper(fs: FileSystem) {
    && (fs.linkOpenErr == ELOOP || fs.linkOpenErr == EMLINK)
    && (forall d, n :: d in fs.nodes && fs.nodes[d].Dir? && n in fs.nodes[d].names ==> fs.nodes[d].names[n] in fs.nodes)
    && (forall d :: d in fs.nodes && fs.nodes[d].Leaf? ==>
          fs.nodes[d].openErr != ELOOP && fs.nodes[d].openErr != EMLINK)
  }

  predicate IsDir(fs: FileSystem, d: Node) {
    d in fs.nodes && fs.nodes[d].Dir?
  }

  datatype Opened = Directory(node: Node) | NotOpened(err: Errno)
  datatype LinkText = Target(text: string) | NotALink(err: Errno)

  // A directory has an entry of that name.
  predicate HasChild(fs: FileSystem, dir: Node, name: string) {
    IsDir(fs, dir) && name in fs.nodes[dir].names && fs.nodes[dir].names[name] in fs.nodes
  }

  // openat with O_DIRECTORY | O_NOFOLLOW.
  function OpenDirectory(fs: FileSystem, dir: Node, name: string): Opened {
    if !IsDir(fs, dir) then NotOpened(ENOTDIR)
    else if !HasChild(fs, dir, name) then NotOpened(ENOENT)
    else
      var n := fs.nodes[dir].names[name];
      match fs.nodes[n]
      case Dir(_) => Directory(n)
      case Link(_) => NotOpened(fs.linkOpenErr)
      case Leaf(e, _) => NotOpened(e)
  }

  // readlinkat.
  function ReadLink(fs: FileSystem, dir: Node, name: string): LinkText {
    if !IsDir(fs, dir) then NotALink(ENOTDIR)
    else if !HasChild(fs, dir, name) then NotALink(ENOENT)
    else
      match fs.nodes[fs.nodes[dir].names[name]]
      case Dir(_) => NotALink(EINVAL)
      case Link(t) => Target(t)
      case Leaf(_, e) => NotALink(e)
  }

  // ---------- Strings ----------

  // strcspn(s, "/") and strspn(s, "/").
  function Plain(s: string): (n: nat)
    ensures n <= |s|
    ensures forall i :: 0 <= i < n ==> s[i] != '/'
    ensures n < |s| ==> s[n] == '/'
  {
    if s == "" || s[0] == '/' then 0 else 1 + Plain(s[1..])
  }

  function Slashes(s: string): (n: nat)
    ensures n <= |s|
    ensures forall i :: 0 <= i < n ==> s[i] == '/'
    ensures n < |s| ==> s[n] != '/'
  {
    if s == "" || s[0] != '/' then 0 else 1 + Slashes(s[1..])
  }

  // The first component of a pathname, the slashes after it, and what follows.
  datatype Cut = Cut(file: string, slashes: string, rest: string)

  function CutOff(s: string): (c: Cut)
    ensures s == c.file + c.slashes + c.rest
    ensures '/' !in c.file && (forall x :: x in c.slashes ==> x == '/')
    ensures c.rest != "" ==> c.rest[0] != '/' && c.slashes != ""
  {
    var n := Plain(s);
    var m := Slashes(s[n..]);
    Cut(s[..n], s[n..n + m], s[n + m..])
  }

  // ---------- The machine ----------

  const MAX_DIRECTORIES: nat := 128
  const MAX_PATHS: nat := 32
  const MAX_EXPANSIONS: nat := 128

  datatype Lookup = Lookup(fs: FileSystem, needsFinal: bool, follow: bool)

  // The stacks have their tops at the end: the nodes of fds[0..curfd], and the
  // unread parts of paths[0..curpath].
  datatype Config = Config(dirs: seq<Node>, paths: seq<string>, expansions: nat)

  datatype Limit = NoLimit | Directories | Paths | Expansions
  datatype Result =
    | Success(dirs: seq<Node>, name: string)
    | Failure(dirs: seq<Node>, err: Errno, limit: Limit)

  datatype Next = Continue(config: Config) | Stop(result: Result)

  // Line 1352: the component is done.
  function Advance(c: Config, dirs: seq<Node>, rest: string): Next
    requires c.paths != []
  {
    var below := c.paths[..|c.paths| - 1];
    if rest != "" then Continue(Config(dirs, below + [rest], c.expansions))
    else if below == [] then Stop(Success(dirs, "."))
    else Continue(Config(dirs, below, c.expansions))
  }

  // Line 1370: push_symlink.
  function PushSymlink(c: Config, rest: string, target: string, slash: bool): Next
    requires c.paths != []
  {
    var below := c.paths[..|c.paths| - 1];
    var text := if slash then target + "/" else target;
    if c.expansions + 1 == MAX_EXPANSIONS then Stop(Failure(c.dirs, ELOOP, Expansions))
    else if rest == "" then Continue(Config(c.dirs, below + [text], c.expansions + 1))
    else if |c.paths| == MAX_PATHS then Stop(Failure(c.dirs, ELOOP, Paths))
    else Continue(Config(c.dirs, below + [rest, text], c.expansions + 1))
  }

  // What becomes of a component: the directories it leads to, a symlink to
  // expand, the name to return, or an error.
  datatype Action =
    | Moved(dirs: seq<Node>)
    | Expand(text: string)
    | Final(name: string)
    | Reject(err: Errno, limit: Limit)

  // Line 1290: a component that must be a directory.
  function EnterAction(fs: FileSystem, dirs: seq<Node>, file: string): Action
    requires dirs != []
  {
    var dir := dirs[|dirs| - 1];
    match OpenDirectory(fs, dir, file)
    case Directory(d) =>
      if |dirs| == MAX_DIRECTORIES then Reject(ENAMETOOLONG, Directories) else Moved(dirs + [d])
    case NotOpened(e) =>
      if e != ELOOP && e != EMLINK then Reject(e, NoLimit)
      else
        match ReadLink(fs, dir, file)
        case Target(text) => Expand(text)
        case NotALink(e') => Reject(e', NoLimit)
  }

  // Line 1322: the final component.
  function FinalAction(p: Lookup, dirs: seq<Node>, cut: Cut): Action
    requires dirs != []
  {
    if cut.slashes == "" && !p.follow then Final(cut.file)
    else
      match ReadLink(p.fs, dirs[|dirs| - 1], cut.file)
      case Target(text) => Expand(text)
      case NotALink(e) =>
        if e != EINVAL && e != ENOENT then Reject(e, NoLimit) else Final(cut.file + cut.slashes)
  }

  function ComponentAction(p: Lookup, dirs: seq<Node>, cut: Cut, more: bool): Action
    requires dirs != []
  {
    var slash := cut.slashes != "";
    if cut.file == "" then Reject(if slash then ENOTCAPABLE else ENOENT, NoLimit)
    else if cut.file == "." then Moved(dirs)
    else if cut.file == ".." then
      if |dirs| == 1 then Reject(ENOTCAPABLE, NoLimit) else Moved(dirs[..|dirs| - 1])
    else if more || cut.rest != "" || (slash && !p.needsFinal) then EnterAction(p.fs, dirs, cut.file)
    else FinalAction(p, dirs, cut)
  }

  /* One round of the loop. */
  function Step(p: Lookup, c: Config): Next
    requires c.dirs != [] && c.paths != []
  {
    var cut := CutOff(c.paths[|c.paths| - 1]);
    match ComponentAction(p, c.dirs, cut, |c.paths| > 1)
    case Moved(dirs) => Advance(c, dirs, cut.rest)
    case Expand(text) => PushSymlink(c, cut.rest, text, cut.slashes != "")
    case Final(name) => Stop(Success(c.dirs, name))
    case Reject(err, limit) => Stop(Failure(c.dirs, err, limit))
  }

  // ---------- Termination ----------

  ghost function Unread(paths: seq<string>): nat {
    if paths == [] then 0 else |paths[|paths| - 1]| + Unread(paths[..|paths| - 1])
  }

  ghost predicate Bounded(c: Config) {
    && 1 <= |c.dirs| <= MAX_DIRECTORIES
    && 1 <= |c.paths| <= MAX_PATHS
    && c.expansions < MAX_EXPANSIONS
  }

  lemma UnreadAppend(paths: seq<string>, s: string)
    ensures Unread(paths + [s]) == Unread(paths) + |s|
  {
    assert (paths + [s])[..|paths|] == paths;
  }

  lemma AdvanceDecreases(c: Config, dirs: seq<Node>, rest: string)
    requires Bounded(c) && 1 <= |dirs| <= MAX_DIRECTORIES && |rest| < |c.paths[|c.paths| - 1]|
    requires Advance(c, dirs, rest).Continue?
    ensures var d := Advance(c, dirs, rest).config;
            Bounded(d) && d.expansions == c.expansions && Unread(d.paths) < Unread(c.paths)
  {
    var below := c.paths[..|c.paths| - 1];
    UnreadAppend(below, rest);
    assert below + [rest] != [];
  }

  lemma PushBounded(c: Config, rest: string, target: string, slash: bool)
    requires Bounded(c) && PushSymlink(c, rest, target, slash).Continue?
    ensures var d := PushSymlink(c, rest, target, slash).config;
            Bounded(d) && d.expansions == c.expansions + 1
  {
  }

  /* Every round that goes on keeps both stacks within their arrays, and either
     expands a symlink or reads at least one more character. */
  lemma StepDecreases(p: Lookup, c: Config)
    requires Bounded(c) && Step(p, c).Continue?
    ensures var d := Step(p, c).config;
            && Bounded(d)
            && (d.expansions == c.expansions + 1
                || (d.expansions == c.expansions && Unread(d.paths) < Unread(c.paths)))
  {
    hide Advance;
    hide PushSymlink;
    hide CutOff;
    hide Unread;
    var cut := CutOff(c.paths[|c.paths| - 1]);
    if cut.file != "" {
      assert |cut.rest| < |c.paths[|c.paths| - 1]|;
      forall dirs | 1 <= |dirs| <= MAX_DIRECTORIES && Advance(c, dirs, cut.rest).Continue?
        ensures var d := Advance(c, dirs, cut.rest).config;
                Bounded(d) && d.expansions == c.expansions && Unread(d.paths) < Unread(c.paths)
      {
        AdvanceDecreases(c, dirs, cut.rest);
      }
      forall text, slash | PushSymlink(c, cut.rest, text, slash).Continue?
        ensures var d := PushSymlink(c, cut.rest, text, slash).config;
                Bounded(d) && d.expansions == c.expansions + 1
      {
        PushBounded(c, cut.rest, text, slash);
      }
    }
  }

  /* The loop: it ends on every file system, symlink cycles included. */
  function Run(p: Lookup, c: Config): Result
    requires Bounded(c)
    decreases MAX_EXPANSIONS - c.expansions, Unread(c.paths)
  {
    match Step(p, c)
    case Stop(r) => r
    case Continue(d) =>
      StepDecreases(p, c);
      Run(p, d)
  }

  function Start(base: Node, path: string): Config {
    Config([base], [path], 0)
  }

  function Resolve(p: Lookup, base: Node, path: string): Result {
    Run(p, Start(base, path))
  }
}
