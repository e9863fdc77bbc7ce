/**
 What pathname resolution guarantees: it refines a resolver that works on one
 string, it stays below its base directory, and its limits are honest.
 */
module PathTheorems {
  import opened PathResolver

  // ---------- The reference: one string, no limits ----------

  /* The remaining pathname may be nested: in front of what remains of the pathname
     that led to a symbolic link there is what remains of the link's contents. outer
     has the lengths of what remains of the pathnames around the present one, the
     outermost first. */
  datatype Naive =
    | Going(dirs: seq<Node>, path: string, expansions: nat, outer: seq<nat>)
    | Ended(result: Result)

  function Around(outer: seq<nat>): nat {
    if outer == [] then 0 else outer[|outer| - 1]
  }

  // With n characters left, the present pathname may be finished.
  function Closed(outer: seq<nat>, n: nat): seq<nat> {
    if outer != [] && n <= Around(outer) then outer[..|outer| - 1] else outer
  }

  // A link is expanded with n characters left: those become a pathname around it,
  // unless there is nothing left of the present one.
  function Nested(outer: seq<nat>, n: nat): seq<nat> {
    if n > Around(outer) then outer + [n] else outer
  }

  function NaiveAdvance(dirs: seq<Node>, rest: string, expansions: nat, outer: seq<nat>): Naive {
    if rest == "" then Ended(Success(dirs, ".")) else Going(dirs, rest, expansions, Closed(outer, |rest|))
  }

  // The first of the machine's limits that the reference is beyond.
  function Exceeds(s: Naive): Limit {
    match s
    case Going(dirs, _, expansions, outer) =>
      if expansions >= MAX_EXPANSIONS then Expansions
      else if |outer| >= MAX_PATHS then Paths
      else if |dirs| > MAX_DIRECTORIES then Directories
      else NoLimit
    case Ended(r) => if |r.dirs| > MAX_DIRECTORIES then Directories else NoLimit
  }

  function LimitError(limit: Limit): Errno {
    if limit == Directories then ENAMETOOLONG else ELOOP
  }

  /* Pathname resolution in the manner of section 4.13 of the POSIX.1-2017 Base
     Definitions: the contents of a symbolic link are prefixed to the remaining
     pathname. It is confined to the base directory, and leaves the last component
     to the caller. */
  function NaiveStep(p: Lookup, s: Naive): Naive
    requires s.Going? && s.dirs != []
  {
    var cut := CutOff(s.path);
    var slash := cut.slashes != "";
    var dir := s.dirs[|s.dirs| - 1];
    var link := ReadLink(p.fs, dir, cut.file);
    var final := cut.rest == "" && (!slash || p.needsFinal);
    if cut.file == "" then Ended(Failure(s.dirs, if slash then ENOTCAPABLE else ENOENT, NoLimit))
    else if cut.file == "." then NaiveAdvance(s.dirs, cut.rest, s.expansions, s.outer)
    else if cut.file == ".." then
      if |s.dirs| == 1 then Ended(Failure(s.dirs, ENOTCAPABLE, NoLimit))
      else NaiveAdvance(s.dirs[..|s.dirs| - 1], cut.rest, s.expansions, s.outer)
    else if link.Target? && (!final || slash || p.follow) then
      Going(s.dirs, link.text + (if slash then "/" else "") + cut.rest, s.expansions + 1,
            Nested(s.outer, |cut.rest|))
    else if !final then
      match OpenDirectory(p.fs, dir, cut.file) {
        case Directory(d) => NaiveAdvance(s.dirs + [d], cut.rest, s.expansions, s.outer)
        case NotOpened(e) => Ended(Failure(s.dirs, e, NoLimit))
      }
    else if (slash || p.follow) && link.err != EINVAL && link.err != ENOENT then
      Ended(Failure(s.dirs, link.err, NoLimit))
    else Ended(Success(s.dirs, cut.file + cut.slashes))
  }

  lemma NaiveKeepsBase(p: Lookup, s: Naive)
    requires s.Going? && s.dirs != []
    ensures NaiveStep(p, s).Going? ==> NaiveStep(p, s).dirs != []
  {
  }

  function NaiveRun(p: Lookup, s: Naive, n: nat): Naive
    requires s.Going? ==> s.dirs != []
    decreases n
  {
    if n == 0 || s.Ended? then s
    else
      NaiveKeepsBase(p, s);
      NaiveRun(p, NaiveStep(p, s), n - 1)
  }

  // ---------- Strings ----------

  lemma CutUnique(s: string, c: Cut)
    requires s == c.file + c.slashes + c.rest
    requires '/' !in c.file && (forall x :: x in c.slashes ==> x == '/')
    requires c.rest != "" ==> c.rest[0] != '/' && c.slashes != ""
    ensures CutOff(s) == c
  {
    hide Plain, Slashes;
    var t := c.slashes + c.rest;
    assert s == c.file + t;
    assert c.slashes != "" ==> t[0] == c.slashes[0] && c.slashes[0] in c.slashes;
    PlainIs(c.file, t);
    SlashesIs(c.slashes, c.rest);
    assert s[|c.file|..] == t && t[|c.slashes|..] == c.rest;
  }

  lemma PlainIs(file: string, t: string)
    requires '/' !in file && (t == "" || t[0] == '/')
    ensures Plain(file + t) == |file|
  {
    hide Plain;
    var s := file + t;
    assert forall i :: 0 <= i < |file| ==> s[i] == file[i] && s[i] in file;
    assert t != "" ==> s[|file|] == t[0];
  }

  lemma SlashesIs(slashes: string, rest: string)
    requires (forall x :: x in slashes ==> x == '/') && (rest == "" || rest[0] != '/')
    ensures Slashes(slashes + rest) == |slashes|
  {
    hide Slashes;
    var t := slashes + rest;
    assert forall i :: 0 <= i < |slashes| ==> t[i] == slashes[i] && t[i] in slashes;
    assert rest != "" ==> t[|slashes|] == rest[0];
  }

  predicate EndsInSlash(s: string) {
    s != "" && s[|s| - 1] == '/'
  }

  predicate StartsPlain(s: string) {
    s != "" && s[0] != '/'
  }

  lemma NoSlash(s: string)
    requires '/' !in s
    ensures !EndsInSlash(s)
  {
  }

  /* Cutting a component off a string that ends in a slash does not look at what
     comes after it. */
  lemma CutJoin(top: string, u: string)
    requires EndsInSlash(top) && StartsPlain(u)
    ensures var c := CutOff(top);
            CutOff(top + u) == Cut(c.file, c.slashes, c.rest + u)
            && c.slashes != "" && (c.rest != "" ==> EndsInSlash(c.rest))
  {
    var c := CutOff(top);
    if c.rest == "" {
      assert c.slashes == "" ==> top == c.file;
      NoSlash(c.file);
    } else {
      assert c.rest[|c.rest| - 1] == top[|top| - 1];
    }
    var d := Cut(c.file, c.slashes, c.rest + u);
    assert d.file + d.slashes + d.rest == top + u;
    CutUnique(top + u, d);
  }

  // ---------- The simulation ----------

  // The unread strings, from the top of the stack down.
  function Text(paths: seq<string>): string {
    if paths == [] then "" else paths[|paths| - 1] + Text(paths[..|paths| - 1])
  }

  // Strings below the top go on with a component; strings above the bottom end in a slash.
  ghost predicate Stacked(paths: seq<string>) {
    && paths != []
    && (forall i :: 0 <= i < |paths| - 1 ==> StartsPlain(paths[i]))
    && (forall i :: 0 < i < |paths| ==> EndsInSlash(paths[i]))
  }

  function Abstract(c: Config): Naive {
    Going(c.dirs, Text(c.paths), c.expansions, Marks(c.paths))
  }

  // The lengths of what remains below each string of the stack but the lowest.
  function Marks(paths: seq<string>): seq<nat> {
    if |paths| <= 1 then []
    else
      var below := paths[..|paths| - 1];
      Marks(below) + [|Text(below)|]
  }

  lemma {:induction false} MarksSize(paths: seq<string>)
    requires paths != []
    ensures |Marks(paths)| == |paths| - 1
  {
    if |paths| > 1 {
      MarksSize(paths[..|paths| - 1]);
    }
  }

  lemma MarksTop(below: seq<string>, s: string)
    ensures Marks(below + [s]) == if below == [] then [] else Marks(below) + [|Text(below)|]
  {
    assert (below + [s])[..|below|] == below;
  }

  lemma MarksAround(paths: seq<string>)
    requires paths != []
    ensures Around(Marks(paths)) == |Text(paths[..|paths| - 1])|
  {
  }

  lemma TextPush(paths: seq<string>, s: string)
    ensures Text(paths + [s]) == s + Text(paths)
  {
    assert (paths + [s])[..|paths|] == paths;
  }

  lemma TextBelow(paths: seq<string>)
    requires Stacked(paths) && |paths| > 1
    ensures StartsPlain(Text(paths[..|paths| - 1]))
  {
    var below := paths[..|paths| - 1];
    assert below[|below| - 1] == paths[|paths| - 2] && StartsPlain(paths[|paths| - 2]);
  }

  // The machine and the reference cut the same component off.
  lemma SameCut(c: Config)
    requires Stacked(c.paths)
    ensures var cut := CutOff(c.paths[|c.paths| - 1]);
            var u := Text(c.paths[..|c.paths| - 1]);
            && CutOff(Text(c.paths)) == Cut(cut.file, cut.slashes, cut.rest + u)
            && (|c.paths| > 1 ==> cut.slashes != "" && u != "" && (cut.rest != "" ==> EndsInSlash(cut.rest)))
            && (|c.paths| == 1 ==> u == "")
            && (cut.rest != "" ==> StartsPlain(cut.rest) && cut.slashes != "")
  {
    var top := c.paths[|c.paths| - 1];
    var below := c.paths[..|c.paths| - 1];
    if |c.paths| > 1 {
      TextBelow(c.paths);
      assert EndsInSlash(c.paths[|c.paths| - 1]);
      CutJoin(top, Text(below));
    } else {
      assert below == [] && Text(below) == "";
      assert top + "" == top && CutOff(top).rest + "" == CutOff(top).rest;
      assert Text(c.paths) == top + Text(below);
    }
  }

  predicate AtLimit(r: Result) {
    r.Failure? && r.limit != NoLimit
  }

  // The machine's result r against the state s that the reference comes to.
  predicate Agrees(r: Result, s: Naive) {
    if AtLimit(r) then Exceeds(s) == r.limit && r.err == LimitError(r.limit)
    else s == Ended(r) && Exceeds(s) == NoLimit
  }

  // One move of the machine against one of the reference.
  ghost predicate Matches(m: Next, n: Naive) {
    match m
    case Continue(d) => Stacked(d.paths) && Bounded(d) && n == Abstract(d)
    case Stop(r) => Agrees(r, n)
  }

  lemma StackedBelow(paths: seq<string>)
    requires Stacked(paths) && |paths| > 1
    ensures Stacked(paths[..|paths| - 1])
  {
  }

  // Replacing the top, and pushing above it.
  lemma StackedTop(paths: seq<string>, s: string)
    requires Stacked(paths) && (|paths| > 1 ==> EndsInSlash(s))
    ensures Stacked(paths[..|paths| - 1] + [s])
  {
    var q := paths[..|paths| - 1] + [s];
    forall i | 0 <= i < |q| - 1 ensures StartsPlain(q[i]) {
      assert q[i] == paths[i];
    }
    forall i | 0 < i < |q| ensures EndsInSlash(q[i]) {
      assert i < |q| - 1 ==> q[i] == paths[i];
    }
  }

  lemma StackedPush(paths: seq<string>, s: string)
    requires Stacked(paths) && StartsPlain(paths[|paths| - 1]) && EndsInSlash(s)
    ensures Stacked(paths + [s])
  {
    var q := paths + [s];
    forall i | 0 <= i < |q| - 1 ensures StartsPlain(q[i]) {
      assert q[i] == paths[i];
    }
    forall i | 0 < i < |q| ensures EndsInSlash(q[i]) {
      assert i < |q| - 1 ==> q[i] == paths[i];
    }
  }

  lemma AdvanceMatches(c: Config, dirs: seq<Node>, rest: string)
    requires Bounded(c) && Stacked(c.paths) && 1 <= |dirs| <= MAX_DIRECTORIES
    requires |c.paths| > 1 && rest != "" ==> EndsInSlash(rest)
    requires |c.paths| > 1 <==> Text(c.paths[..|c.paths| - 1]) != ""
    ensures Matches(Advance(c, dirs, rest),
                    NaiveAdvance(dirs, rest + Text(c.paths[..|c.paths| - 1]), c.expansions, Marks(c.paths)))
  {
    hide Text;
    hide Stacked;
    hide Marks;
    NonEmpty(c.paths);
    var below := c.paths[..|c.paths| - 1];
    assert c.paths == below + [c.paths[|c.paths| - 1]];
    MarksAround(c.paths);
    MarksTop(below, c.paths[|c.paths| - 1]);
    if rest != "" {
      TextPush(below, rest);
      StackedTop(c.paths, rest);
      MarksTop(below, rest);
    } else {
      assert "" + Text(below) == Text(below);
      if |c.paths| > 1 {
        StackedBelow(c.paths);
      }
    }
  }

  lemma PushMatches(c: Config, rest: string, target: string, slash: bool)
    requires Bounded(c) && Stacked(c.paths) && (rest != "" ==> StartsPlain(rest) && slash) && (|c.paths| > 1 ==> slash)
    requires |c.paths| > 1 && rest != "" ==> EndsInSlash(rest)
    ensures var u := Text(c.paths[..|c.paths| - 1]);
            Matches(PushSymlink(c, rest, target, slash),
                    Going(c.dirs, target + (if slash then "/" else "") + (rest + u), c.expansions + 1,
                          Nested(Marks(c.paths), |rest + u|)))
  {
    hide Text;
    hide Stacked;
    hide Marks;
    hide Nested;
    NonEmpty(c.paths);
    var below := c.paths[..|c.paths| - 1];
    var text := if slash then target + "/" else target;
    assert target + (if slash then "/" else "") == text;
    MarksSize(c.paths);
    PushMarks(c.paths, rest);
    if rest == "" {
      TextPush(below, text);
      StackedTop(c.paths, text);
      MarksTop(below, text);
      MarksTop(below, rest);
      assert "" + Text(below) == Text(below);
    } else {
      PushText(below, rest, text);
      StackedTop(c.paths, rest);
      StackedPush(below + [rest], text);
    }
  }

  lemma PushText(below: seq<string>, rest: string, text: string)
    ensures Text(below + [rest, text]) == text + (rest + Text(below))
    ensures Marks(below + [rest, text]) == Marks(below + [rest]) + [|rest + Text(below)|]
    ensures below + [rest, text] == below + [rest] + [text]
  {
    hide Text;
    hide Marks;
    assert below + [rest] + [text] == below + [rest, text];
    TextPush(below, rest);
    TextPush(below + [rest], text);
    MarksTop(below + [rest], text);
  }

  lemma PushMarks(paths: seq<string>, rest: string)
    requires paths != []
    ensures var below := paths[..|paths| - 1];
            && Marks(paths) == Marks(below + [rest])
            && Nested(Marks(paths), |rest + Text(below)|)
               == if rest == "" then Marks(paths) else Marks(paths) + [|rest + Text(below)|]
  {
    hide Text, Marks, Nested, Around;
    MarksAround(paths);
    MarksReplace(paths, rest);
    NestedBy(Marks(paths), rest, Text(paths[..|paths| - 1]));
  }

  lemma MarksReplace(paths: seq<string>, s: string)
    requires paths != []
    ensures Marks(paths[..|paths| - 1] + [s]) == Marks(paths)
  {
    hide Text;
    assert (paths[..|paths| - 1] + [s])[..|paths| - 1] == paths[..|paths| - 1];
  }

  lemma NestedBy(outer: seq<nat>, rest: string, u: string)
    requires Around(outer) == |u|
    ensures Nested(outer, |rest + u|) == if rest == "" then outer else outer + [|rest + u|]
  {
  }

  // Entering one directory too many.
  lemma DeepMatches(c: Config, dirs: seq<Node>, rest: string)
    requires Bounded(c) && |dirs| == MAX_DIRECTORIES + 1
    ensures Matches(Stop(Failure(c.dirs, ENAMETOOLONG, Directories)),
                    NaiveAdvance(dirs, rest, c.expansions, Marks(c.paths)))
  {
    MarksSize(c.paths);
  }

  lemma ErrorMatches(r: Result)
    requires !AtLimit(r) && |r.dirs| <= MAX_DIRECTORIES
    ensures Matches(Stop(r), Ended(r))
  {
  }

  // What the reference comes to if the machine decides on action a; rest is all that is left.
  ghost predicate Follows(c: Config, cut: Cut, rest: string, a: Action, n: Naive) {
    match a
    case Moved(dirs) => n == NaiveAdvance(dirs, rest, c.expansions, Marks(c.paths))
    case Expand(text) =>
      n == Going(c.dirs, text + (if cut.slashes != "" then "/" else "") + rest, c.expansions + 1,
                 Nested(Marks(c.paths), |rest|))
    case Final(name) => n == Ended(Success(c.dirs, name))
    case Reject(err, NoLimit) => n == Ended(Failure(c.dirs, err, NoLimit))
    case Reject(err, limit) =>
      && limit == Directories && err == ENAMETOOLONG && |c.dirs| == MAX_DIRECTORIES
      && exists d :: n == NaiveAdvance(c.dirs + [d], rest, c.expansions, Marks(c.paths))
  }

  // The machine and the reference decide alike.
  lemma SameAction(p: Lookup, c: Config)
    requires Proper(p.fs) && c.dirs != [] && Stacked(c.paths)
    ensures var cut := CutOff(c.paths[|c.paths| - 1]);
            var rest := cut.rest + Text(c.paths[..|c.paths| - 1]);
            Follows(c, cut, rest, ComponentAction(p, c.dirs, cut, |c.paths| > 1), NaiveStep(p, Abstract(c)))
  {
    hide CutOff, NaiveAdvance, Nested, Text, Marks, Stacked;
    NonEmpty(c.paths);
    SameCut(c);
    var cut := CutOff(c.paths[|c.paths| - 1]);
    var u := Text(c.paths[..|c.paths| - 1]);
    HostAgrees(p.fs, c.dirs[|c.dirs| - 1], cut.file);
    assert cut.slashes == "" ==> cut.file + cut.slashes == cut.file;
    assert cut.rest + u == "" <==> cut.rest == "" && |c.paths| == 1;
  }

  /* One round of the loop is one step of the reference. It runs into a limit
     exactly when the reference goes beyond it. */
  lemma StepMatches(p: Lookup, c: Config)
    requires Proper(p.fs) && Bounded(c) && Stacked(c.paths)
    ensures Matches(Step(p, c), NaiveStep(p, Abstract(c)))
  {
    hide CutOff, Advance, PushSymlink, NaiveAdvance, NaiveStep, Nested, Matches, Text, Marks, Stacked;
    NonEmpty(c.paths);
    SameCut(c);
    SameAction(p, c);
    var cut := CutOff(c.paths[|c.paths| - 1]);
    var rest := cut.rest + Text(c.paths[..|c.paths| - 1]);
    match ComponentAction(p, c.dirs, cut, |c.paths| > 1) {
      case Moved(dirs) => AdvanceMatches(c, dirs, cut.rest);
      case Expand(text) => PushMatches(c, cut.rest, text, cut.slashes != "");
      case Final(name) => ErrorMatches(Success(c.dirs, name));
      case Reject(err, limit) =>
        if limit == NoLimit {
          ErrorMatches(Failure(c.dirs, err, limit));
        } else {
          var d :| NaiveStep(p, Abstract(c)) == NaiveAdvance(c.dirs + [d], rest, c.expansions, Marks(c.paths));
          DeepMatches(c, c.dirs + [d], rest);
        }
    }
  }

  lemma NonEmpty(paths: seq<string>)
    requires Stacked(paths)
    ensures paths != []
  {
  }

  // On a proper file system, openat and readlinkat tell the same kinds of entries apart.
  lemma HostAgrees(fs: FileSystem, dir: Node, name: string)
    requires Proper(fs)
    ensures ReadLink(fs, dir, name).Target? <==> OpenDirectory(fs, dir, name) in {NotOpened(ELOOP), NotOpened(EMLINK)}
  {
  }

  // ---------- Whole runs ----------

  // The reference stays within the limits for n steps, and then agrees with r.
  ghost predicate Simulated(p: Lookup, s: Naive, n: nat, r: Result)
    requires s.Going? ==> s.dirs != []
  {
    && (forall k: nat :: k < n ==> Exceeds(NaiveRun(p, s, k)) == NoLimit)
    && Agrees(r, NaiveRun(p, s, n))
  }

  lemma WithinLimits(c: Config)
    requires Bounded(c)
    ensures Exceeds(Abstract(c)) == NoLimit
  {
    MarksSize(c.paths);
  }

  lemma SimulatedNext(p: Lookup, s: Naive, n: nat, r: Result)
    requires s.Going? && s.dirs != [] && Exceeds(s) == NoLimit
    requires NaiveStep(p, s).Going? ==> NaiveStep(p, s).dirs != []
    requires Simulated(p, NaiveStep(p, s), n, r)
    ensures Simulated(p, s, n + 1, r)
  {
    hide NaiveStep, Exceeds, Agrees;
    forall k: nat | k < n + 1 ensures Exceeds(NaiveRun(p, s, k)) == NoLimit {
      if k > 0 {
        assert NaiveRun(p, s, k) == NaiveRun(p, NaiveStep(p, s), k - 1);
      }
    }
  }

  lemma {:induction false} RunRefines(p: Lookup, c: Config) returns (n: nat)
    requires Proper(p.fs) && Bounded(c) && Stacked(c.paths)
    ensures Simulated(p, Abstract(c), n, Run(p, c))
    decreases MAX_EXPANSIONS - c.expansions, Unread(c.paths)
  {
    hide Step, NaiveStep, Stacked, Text, Marks, Exceeds, Agrees;
    StepMatches(p, c);
    WithinLimits(c);
    NaiveKeepsBase(p, Abstract(c));
    match Step(p, c) {
      case Stop(r) => n := 0;
      case Continue(d) =>
        StepDecreases(p, c);
        n := RunRefines(p, d);
    }
    SimulatedNext(p, Abstract(c), n, Run(p, c));
    n := n + 1;
  }

  // The reference at the start of a lookup.
  function Origin(base: Node, path: string): Naive {
    Going([base], path, 0, [])
  }

  /* Refinement. If the machine does not report a limit, its result is that of the
     reference, which was within all limits throughout; and if it does, the reference
     goes beyond that very limit, and was within all of them before. */
  lemma RefinesReference(p: Lookup, base: Node, path: string)
    requires Proper(p.fs)
    ensures exists n: nat :: Simulated(p, Origin(base, path), n, Resolve(p, base, path))
  {
    var c := Start(base, path);
    assert Text(c.paths) == path + Text([]) == path;
    var n := RunRefines(p, c);
    assert Abstract(c) == Origin(base, path);
    assert Simulated(p, Origin(base, path), n, Resolve(p, base, path));
  }

  lemma {:induction false} NaiveStable(p: Lookup, s: Naive, n: nat, m: nat)
    requires (s.Going? ==> s.dirs != []) && NaiveRun(p, s, n).Ended? && n <= m
    ensures NaiveRun(p, s, m) == NaiveRun(p, s, n)
    decreases n
  {
    hide NaiveStep;
    if n > 0 && s.Going? {
      NaiveKeepsBase(p, s);
      NaiveStable(p, NaiveStep(p, s), n - 1, m - 1);
    }
  }

  /* Conversely, if the reference comes to an end, the machine reports a limit exactly
     if the reference goes beyond one on the way, and otherwise the same result. */
  lemma AgreesWithinLimits(p: Lookup, base: Node, path: string, n: nat)
    requires Proper(p.fs) && NaiveRun(p, Origin(base, path), n).Ended?
    ensures AtLimit(Resolve(p, base, path)) <==>
            exists k: nat :: k <= n && Exceeds(NaiveRun(p, Origin(base, path), k)) != NoLimit
    ensures !AtLimit(Resolve(p, base, path)) ==>
              NaiveRun(p, Origin(base, path), n) == Ended(Resolve(p, base, path))
  {
    hide NaiveRun, Exceeds;
    RefinesReference(p, base, path);
    var s, r := Origin(base, path), Resolve(p, base, path);
    var m: nat :| Simulated(p, s, m, r);
    if AtLimit(r) {
      assert Exceeds(NaiveRun(p, s, m)) != NoLimit;
      if m > n {
        NaiveStable(p, s, n, m);
        assert false;
      }
    } else {
      if m >= n {
        NaiveStable(p, s, n, m);
      } else {
        NaiveStable(p, s, m, n);
      }
      forall k: nat | k <= n ensures Exceeds(NaiveRun(p, s, k)) == NoLimit {
        if k > m {
          NaiveStable(p, s, m, k);
        }
      }
    }
  }

  // The reference is beyond what the machine has room and patience for, in numbers.
  predicate Beyond(s: Naive) {
    match s
    case Going(dirs, _, expansions, outer) => expansions >= 128 || |outer| >= 32 || |dirs| >= 129
    case Ended(r) => |r.dirs| >= 129
  }

  lemma BeyondLimits(s: Naive)
    ensures Beyond(s) <==> Exceeds(s) != NoLimit
    ensures s.Going? && s.expansions >= 128 ==> Exceeds(s) == Expansions
    ensures s.Going? && s.expansions < 128 && |s.outer| >= 32 ==> Exceeds(s) == Paths
    ensures s.Going? && s.expansions < 128 && |s.outer| < 32 && |s.dirs| >= 129 ==> Exceeds(s) == Directories
  {
  }

  /* In numbers: a lookup that comes to an end in the reference is given up exactly if the
     reference expands 128 links, nests 33 pathnames or enters 129 directories, the base
     included; and then with ENAMETOOLONG only for the directories. */
  lemma LimitsInNumbers(p: Lookup, base: Node, path: string, n: nat)
    requires Proper(p.fs) && NaiveRun(p, Origin(base, path), n).Ended?
    ensures AtLimit(Resolve(p, base, path)) <==> exists k: nat :: k <= n && Beyond(NaiveRun(p, Origin(base, path), k))
    ensures AtLimit(Resolve(p, base, path)) ==>
              Resolve(p, base, path).err == if Resolve(p, base, path).limit == Directories then ENAMETOOLONG else ELOOP
  {
    hide NaiveRun, Beyond, Exceeds;
    AgreesWithinLimits(p, base, path, n);
    forall k: nat ensures Beyond(NaiveRun(p, Origin(base, path), k)) <==>
                          Exceeds(NaiveRun(p, Origin(base, path), k)) != NoLimit {
      BeyondLimits(NaiveRun(p, Origin(base, path), k));
    }
    RefinesReference(p, base, path);
  }

  // ---------- Confinement ----------

  // A name that denotes an entry of a directory, neither the directory nor its parent.
  predicate ComponentName(n: string) {
    n != "" && '/' !in n && n != "." && n != ".."
  }

  ghost predicate ChildStep(fs: FileSystem, a: Node, b: Node) {
    exists n :: ComponentName(n) && HasChild(fs, a, n) && fs.nodes[a].names[n] == b && IsDir(fs, b)
  }

  // The directories lead down from the base, one child at a time.
  ghost predicate Descends(fs: FileSystem, base: Node, dirs: seq<Node>) {
    && dirs != [] && dirs[0] == base
    && (forall i :: 0 < i < |dirs| ==> ChildStep(fs, dirs[i - 1], dirs[i]))
  }

  // What a successful lookup hands to the caller.
  ghost predicate Confined(p: Lookup, base: Node, r: Result) {
    && Descends(p.fs, base, r.dirs) && |r.dirs| <= MAX_DIRECTORIES
    && (r.Success? ==> r.name == "." || FinalName(p, r.dirs[|r.dirs| - 1], r.name))
  }

  // One component, possibly followed by slashes if the caller needs the name; it
  // is no symbolic link if links are to be followed or slashes follow.
  ghost predicate FinalName(p: Lookup, dir: Node, name: string) {
    var c := CutOff(name);
    && ComponentName(c.file) && c.rest == ""
    && (c.slashes != "" ==> p.needsFinal)
    && (c.slashes != "" || p.follow ==> ReadLink(p.fs, dir, c.file) in {NotALink(EINVAL), NotALink(ENOENT)})
  }

  lemma DescendsChild(fs: FileSystem, base: Node, dirs: seq<Node>, name: string)
    requires Descends(fs, base, dirs) && ComponentName(name)
    requires OpenDirectory(fs, dirs[|dirs| - 1], name).Directory?
    ensures Descends(fs, base, dirs + [OpenDirectory(fs, dirs[|dirs| - 1], name).node])
  {
    var b := OpenDirectory(fs, dirs[|dirs| - 1], name).node;
    assert ChildStep(fs, dirs[|dirs| - 1], b);
    var d := dirs + [b];
    forall i | 0 < i < |d| ensures ChildStep(fs, d[i - 1], d[i]) {
      if i < |dirs| {
        assert d[i - 1] == dirs[i - 1] && d[i] == dirs[i];
      }
    }
  }

  lemma CutFinal(c: Cut)
    requires '/' !in c.file && (forall x :: x in c.slashes ==> x == '/') && c.rest == ""
    ensures CutOff(c.file + c.slashes) == c
  {
    assert c.file + c.slashes + "" == c.file + c.slashes;
    CutUnique(c.file + c.slashes, c);
  }

  lemma DescendsUp(fs: FileSystem, base: Node, dirs: seq<Node>)
    requires Descends(fs, base, dirs) && |dirs| > 1
    ensures Descends(fs, base, dirs[..|dirs| - 1])
  {
  }

  // A move that ends in directories dirs, with a final name or an error.
  ghost predicate ConfinedMove(p: Lookup, base: Node, m: Next) {
    match m
    case Continue(d) => Descends(p.fs, base, d.dirs)
    case Stop(r) => Confined(p, base, r)
  }

  lemma StepConfined(p: Lookup, base: Node, c: Config)
    requires Bounded(c) && Descends(p.fs, base, c.dirs)
    ensures ConfinedMove(p, base, Step(p, c))
  {
    hide CutOff;
    hide Descends;
    hide OpenDirectory;
    hide ReadLink;
    var cut := CutOff(c.paths[|c.paths| - 1]);
    if |c.dirs| > 1 {
      DescendsUp(p.fs, base, c.dirs);
    }
    if ComponentName(cut.file) {
      if OpenDirectory(p.fs, c.dirs[|c.dirs| - 1], cut.file).Directory? {
        DescendsChild(p.fs, base, c.dirs, cut.file);
      }
      if cut.rest == "" {
        CutFinal(cut);
        assert cut.slashes == "" ==> cut.file + cut.slashes == cut.file;
      }
    }
  }

  lemma {:induction false} RunConfined(p: Lookup, base: Node, c: Config)
    requires Bounded(c) && Descends(p.fs, base, c.dirs)
    ensures Confined(p, base, Run(p, c))
    decreases MAX_EXPANSIONS - c.expansions, Unread(c.paths)
  {
    hide Step;
    hide Confined;
    StepConfined(p, base, c);
    if Step(p, c).Continue? {
      StepDecreases(p, c);
      RunConfined(p, base, Step(p, c).config);
    }
  }

  /* Confinement. On every file system and for every path, a successful lookup
     gives a directory reached from the base through child entries only, and a
     name that is "." or a single component, never "..". */
  lemma ResolveConfined(p: Lookup, base: Node, path: string)
    ensures Confined(p, base, Resolve(p, base, path))
  {
    RunConfined(p, base, Start(base, path));
  }
}
