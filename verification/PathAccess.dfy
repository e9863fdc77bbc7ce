/**
 path_get and path_put with host descriptors: which are opened, which are closed,
 and which one the caller is given.
 */
module PathAccess {
  import opened PathResolver
  import Fd = FdTables
  import opened FdTableObject

  // The host: open directory descriptors and what they refer to.
  class Host {
    const fs: FileSystem
    var open: map<nat, Node>
    var next: nat

    ghost predicate Valid()
      reads this
    {
      forall fd :: fd in open ==> fd < next
    }

    constructor (fs: FileSystem)
      ensures Valid() && this.fs == fs && open == map[]
    {
      this.fs := fs;
      open := map[];
      next := 0;
    }

    // openat with O_DIRECTORY | O_NOFOLLOW: a number that is not in use.
    method OpenAt(fd: nat, name: string) returns (newdir: nat, r: Opened)
      requires Valid() && fd in open
      modifies this
      ensures Valid() && r == OpenDirectory(fs, old(open)[fd], name)
      ensures r.Directory? ==> newdir !in old(open) && open == old(open)[newdir := r.node]
      ensures r.NotOpened? ==> open == old(open)
    {
      newdir := next;
      r := OpenDirectory(fs, open[fd], name);
      if r.Directory? {
        open := open[newdir := r.node];
        next := next + 1;
      }
    }

    method ReadLinkAt(fd: nat, name: string) returns (r: LinkText)
      requires fd in open
      ensures r == ReadLink(fs, open[fd], name)
    {
      r := ReadLink(fs, open[fd], name);
    }

    // close may only be applied to a descriptor that is open.
    method Close(fd: nat)
      requires Valid() && fd in open
      modifies this
      ensures Valid() && open == old(open) - {fd}
    {
      open := open - {fd};
    }
  }

  // Every descriptor object has an open host descriptor.
  ghost predicate Numbered(counts: map<nat, nat>, numbers: map<nat, nat>, open: map<nat, Node>) {
    forall o :: o in counts ==> o in numbers && numbers[o] in open
  }

  // struct path_access: a directory, a pathname below it, and the object it was reached from.
  datatype Access = Lease(fd: nat, path: string, id: nat) | Refused(err: Errno)

  // ---------- The stack of descriptors ----------

  // Above the base, which was open before, lie descriptors that were opened since;
  // no other descriptor was opened or closed.
  ghost predicate Stack(open: map<nat, Node>, before: map<nat, Node>, fds: seq<nat>) {
    && fds != [] && fds[0] in before
    && (forall i, j :: 0 <= i < j < |fds| ==> fds[i] != fds[j])
    && (forall i :: 0 < i < |fds| ==> fds[i] !in before)
    && (forall fd :: fd in open <==> fd in before || fd in fds)
    && (forall fd :: fd in before ==> open[fd] == before[fd])
  }

  ghost function Nodes(open: map<nat, Node>, fds: seq<nat>): (d: seq<Node>)
    requires forall i :: 0 <= i < |fds| ==> fds[i] in open
    ensures |d| == |fds| && forall i :: 0 <= i < |d| ==> d[i] == open[fds[i]]
  {
    seq(|fds|, i requires 0 <= i < |fds| => open[fds[i]])
  }

  lemma StackOpen(open: map<nat, Node>, before: map<nat, Node>, fds: seq<nat>)
    requires Stack(open, before, fds)
    ensures forall i :: 0 <= i < |fds| ==> fds[i] in open
  {
  }

  lemma StackPush(open: map<nat, Node>, before: map<nat, Node>, fds: seq<nat>, fd: nat, node: Node)
    requires Stack(open, before, fds) && fd !in open
    ensures Stack(open[fd := node], before, fds + [fd])
    ensures Nodes(open[fd := node], fds + [fd]) == Nodes(open, fds) + [node]
  {
    StackOpen(open, before, fds);
    StackOpen(open[fd := node], before, fds + [fd]);
  }

  // Closing one of the descriptors above the base.
  lemma StackRemove(open: map<nat, Node>, before: map<nat, Node>, fds: seq<nat>, k: nat)
    requires Stack(open, before, fds) && 0 < k < |fds|
    ensures fds[k] in open && Stack(open - {fds[k]}, before, fds[..k] + fds[k + 1..])
  {
    var q := fds[..k] + fds[k + 1..];
    assert fds == fds[..k] + [fds[k]] + fds[k + 1..];
    assert forall i :: 0 <= i < |q| ==> q[i] == fds[if i < k then i else i + 1];
  }

  lemma StackPop(open: map<nat, Node>, before: map<nat, Node>, fds: seq<nat>)
    requires Stack(open, before, fds) && |fds| > 1
    ensures var n := |fds| - 1;
            && fds[n] in open && Stack(open - {fds[n]}, before, fds[..n])
            && Nodes(open - {fds[n]}, fds[..n]) == Nodes(open, fds)[..n]
  {
    var n := |fds| - 1;
    StackRemove(open, before, fds, n);
    assert fds[..n] + fds[n + 1..] == fds[..n];
  }

  lemma SameMap<K, V>(a: map<K, V>, b: map<K, V>)
    requires forall fd :: fd in a <==> fd in b
    requires forall fd :: fd in a ==> a[fd] == b[fd]
    ensures a == b
  {
  }

  lemma StackBottom(open: map<nat, Node>, before: map<nat, Node>, fds: seq<nat>)
    requires Stack(open, before, fds) && |fds| == 1
    ensures open == before
  {
    forall fd ensures fd in open <==> fd in before {
      assert fd in fds ==> fd == fds[0];
    }
    SameMap(open, before);
  }

  lemma StackTwo(open: map<nat, Node>, before: map<nat, Node>, fds: seq<nat>)
    requires Stack(open, before, fds) && |fds| == 2
    ensures fds[1] !in before && fds[1] in open
    ensures open == before[fds[1] := open[fds[1]]]
  {
    assert fds[1] in fds;
    var after := before[fds[1] := open[fds[1]]];
    forall fd ensures fd in open <==> fd in after {
      assert fd in fds ==> fd == fds[0] || fd == fds[1];
    }
    SameMap(open, after);
  }

  /* The loops at the end of path_get: the descriptors from 1 up to last are closed,
     in a failed lookup all of them, in a successful one all but the topmost. */
  method CloseUpTo(host: Host, fds: array<nat>, last: nat, ghost curfd: nat, ghost before: map<nat, Node>)
    requires host.Valid() && last <= curfd < fds.Length && Stack(host.open, before, fds[..curfd + 1])
    modifies host
    ensures host.Valid() && Stack(host.open, before, [fds[0]] + fds[last + 1..curfd + 1])
    ensures forall fd :: fd in host.open ==> fd in old(host.open) && host.open[fd] == old(host.open)[fd]
  {
    var i := 1;
    assert fds[..curfd + 1] == [fds[0]] + fds[1..curfd + 1];
    while i <= last
      invariant host.Valid() && 1 <= i <= last + 1
      invariant Stack(host.open, before, [fds[0]] + fds[i..curfd + 1])
      invariant forall fd :: fd in host.open ==> fd in old(host.open) && host.open[fd] == old(host.open)[fd]
    {
      ghost var rest := [fds[0]] + fds[i..curfd + 1];
      StackRemove(host.open, before, rest, 1);
      assert rest[..1] + rest[2..] == [fds[0]] + fds[i + 1..curfd + 1];
      host.Close(fds[i]);
      i := i + 1;
    }
  }

  // ---------- The lookup ----------

  // An action as the code sees it, with descriptors instead of nodes.
  datatype Deed = Move | Follow(text: string) | Name(name: string) | Refuse(err: Errno)

  function DeedOf(a: Action): Deed {
    match a
    case Moved(_) => Move
    case Expand(text) => Follow(text)
    case Final(name) => Name(name)
    case Reject(err, _) => Refuse(err)
  }

  // The stack of descriptors that an action leaves.
  ghost predicate Leaves(a: Action, dirs: seq<Node>, open: map<nat, Node>, before: map<nat, Node>, fds: seq<nat>) {
    && Stack(open, before, fds)
    && (forall i :: 0 <= i < |fds| ==> fds[i] in open)
    && Nodes(open, fds) == if a.Moved? then a.dirs else dirs
  }

  /* Lines 1295 to 1320: open the component and push it, or read it as a symlink. */
  method Enter(host: Host, fds: array<nat>, curfd: nat, file: string, ghost before: map<nat, Node>)
    returns (d: Deed, fd: nat)
    requires host.Valid() && fds.Length == MAX_DIRECTORIES && curfd < fds.Length
    requires Stack(host.open, before, fds[..curfd + 1])
    modifies host, fds
    ensures host.Valid() && fd < fds.Length && fds[0] == old(fds[0])
    ensures var a := EnterAction(host.fs, Nodes(old(host.open), old(fds[..curfd + 1])), file);
            d == DeedOf(a) && Leaves(a, Nodes(old(host.open), old(fds[..curfd + 1])), host.open, before, fds[..fd + 1])
  {
    hide Stack, OpenDirectory, ReadLink;
    StackOpen(host.open, before, fds[..curfd + 1]);
    fd := curfd;
    assert fds[curfd] == fds[..curfd + 1][curfd];
    var newdir, o := host.OpenAt(fds[curfd], file);
    match o {
      case Directory(node) =>
        if curfd + 1 == fds.Length {
          host.Close(newdir);
          assert host.open == old(host.open);
          d := Refuse(ENAMETOOLONG);
        } else {
          StackPush(old(host.open), before, fds[..curfd + 1], newdir, node);
          fd := curfd + 1;
          fds[fd] := newdir;
          assert fds[..curfd + 2] == old(fds[..curfd + 1]) + [newdir];
          StackOpen(host.open, before, fds[..curfd + 2]);
          d := Move;
        }
      case NotOpened(e) =>
        if e != ELOOP && e != EMLINK {
          d := Refuse(e);
        } else {
          var link := host.ReadLinkAt(fds[curfd], file);
          d := match link case Target(text) => Follow(text) case NotALink(e') => Refuse(e');
        }
    }
  }

  // Lines 1280 to 1288: back to the parent directory.
  method GoUp(host: Host, fds: array<nat>, curfd: nat, ghost before: map<nat, Node>)
    requires host.Valid() && 0 < curfd < fds.Length && Stack(host.open, before, fds[..curfd + 1])
    modifies host
    ensures host.Valid() && Stack(host.open, before, fds[..curfd])
    ensures Nodes(host.open, fds[..curfd]) == Nodes(old(host.open), fds[..curfd + 1])[..curfd]
  {
    StackPop(host.open, before, fds[..curfd + 1]);
    assert fds[..curfd + 1][..curfd] == fds[..curfd];
    host.Close(fds[curfd]);
  }

  // Lines 1322 to 1350: the final component.
  method End(host: Host, p: Lookup, fd: nat, cut: Cut, ghost dirs: seq<Node>) returns (d: Deed)
    requires p.fs == host.fs && fd in host.open && dirs != [] && host.open[fd] == dirs[|dirs| - 1]
    ensures d == DeedOf(FinalAction(p, dirs, cut)) && !FinalAction(p, dirs, cut).Moved?
  {
    if cut.slashes != "" || p.follow {
      var link := host.ReadLinkAt(fd, cut.file);
      match link {
        case Target(text) =>
          d := Follow(text);
        case NotALink(e) =>
          d := if e != EINVAL && e != ENOENT then Refuse(e) else Name(cut.file + cut.slashes);
      }
    } else {
      d := Name(cut.file);
    }
  }

  /* Lines 1271 to 1350: what to do with the component that was cut off. */
  method Act(host: Host, p: Lookup, fds: array<nat>, curfd: nat, cut: Cut, more: bool, ghost before: map<nat, Node>)
    returns (d: Deed, fd: nat)
    requires host.Valid() && p.fs == host.fs && fds.Length == MAX_DIRECTORIES && curfd < fds.Length
    requires Stack(host.open, before, fds[..curfd + 1])
    modifies host, fds
    ensures host.Valid() && fd < fds.Length && fds[0] == old(fds[0])
    ensures var a := ComponentAction(p, Nodes(old(host.open), old(fds[..curfd + 1])), cut, more);
            d == DeedOf(a) && Leaves(a, Nodes(old(host.open), old(fds[..curfd + 1])), host.open, before, fds[..fd + 1])
  {
    hide EnterAction, FinalAction, Stack;
    StackOpen(host.open, before, fds[..curfd + 1]);
    assert fds[curfd] == fds[..curfd + 1][curfd];
    var slash := cut.slashes != "";
    fd := curfd;
    if cut.file == "" {
      d := Refuse(if slash then ENOTCAPABLE else ENOENT);
    } else if cut.file == "." {
      d := Move;
    } else if cut.file == ".." {
      if curfd == 0 {
        d := Refuse(ENOTCAPABLE);
      } else {
        GoUp(host, fds, curfd, before);
        fd := curfd - 1;
        d := Move;
      }
    } else if more || cut.rest != "" || (slash && !p.needsFinal) {
      d, fd := Enter(host, fds, curfd, cut.file, before);
    } else {
      d := End(host, p, fds[curfd], cut, Nodes(host.open, fds[..curfd + 1]));
    }
  }

  datatype Verdict = GoOn | Done(name: string) | Error(err: Errno)

  // What a move of the machine says, and the strings and counter it leaves.
  ghost predicate Tells(m: Next, dirs: seq<Node>, v: Verdict, paths: seq<string>, expansions: nat) {
    match m
    case Continue(d) => v == GoOn && d == Config(dirs, paths, expansions)
    case Stop(Success(ds, name)) => v == Done(name) && ds == dirs
    case Stop(Failure(_, err, _)) => v == Error(err)
  }

  /* Lines 1352 to 1367: go on with the string, return to the one below, or end. */
  method AdvancePaths(paths: array<string>, curpath: nat, ghost c: Config, ghost dirs: seq<Node>)
    returns (v: Verdict, top: nat)
    requires curpath < paths.Length && |c.paths| == curpath + 1 && c.paths[..curpath] == paths[..curpath]
    ensures top < paths.Length
    ensures Tells(Advance(c, dirs, paths[curpath]), dirs, v, paths[..top + 1], c.expansions)
  {
    v, top := GoOn, curpath;
    assert paths[..curpath + 1] == paths[..curpath] + [paths[curpath]];
    if paths[curpath] == "" {
      if curpath == 0 {
        v := Done(".");
      } else {
        top := curpath - 1;
        assert paths[..top + 1] == c.paths[..curpath];
      }
    }
  }

  /* Lines 1370 to 1399: push_symlink. */
  method PushPath(paths: array<string>, curpath: nat, expansions: nat, symlink: string, slash: bool, ghost c: Config)
    returns (v: Verdict, top: nat, count: nat)
    requires paths.Length == MAX_PATHS && curpath < paths.Length && expansions < MAX_EXPANSIONS
    requires |c.paths| == curpath + 1 && c.paths[..curpath] == paths[..curpath] && c.expansions == expansions
    modifies paths
    ensures top < paths.Length
    ensures v == GoOn ==> count < MAX_EXPANSIONS
    ensures Tells(PushSymlink(c, old(paths[curpath]), symlink, slash), c.dirs, v, paths[..top + 1], count)
  {
    v, top, count := GoOn, curpath, expansions + 1;
    if count == MAX_EXPANSIONS {
      v := Error(ELOOP);
      return;
    }
    if paths[curpath] == "" {
    } else if curpath + 1 == paths.Length {
      v := Error(ELOOP);
      return;
    } else {
      top := curpath + 1;
    }
    paths[top] := if slash then symlink + "/" else symlink;
    assert paths[..top + 1] == old(paths[..top]) + [paths[top]];
    assert top == curpath + 1 ==> old(paths[..top]) == old(paths[..curpath]) + [old(paths[curpath])];
  }

  /* One round of the loop of path_get is one step of the machine. */
  method Round(host: Host, p: Lookup, fds: array<nat>, curfd: nat, paths: array<string>, curpath: nat, expansions: nat,
               ghost before: map<nat, Node>)
    returns (v: Verdict, fd: nat, top: nat, count: nat)
    requires host.Valid() && p.fs == host.fs
    requires fds.Length == MAX_DIRECTORIES && curfd < fds.Length
    requires paths.Length == MAX_PATHS && curpath < paths.Length && expansions < MAX_EXPANSIONS
    requires Stack(host.open, before, fds[..curfd + 1])
    modifies host, fds, paths
    ensures host.Valid() && fd < fds.Length && top < paths.Length && (v == GoOn ==> count < MAX_EXPANSIONS)
    ensures Stack(host.open, before, fds[..fd + 1]) && fds[0] == old(fds[0])
    ensures Tells(Step(p, Config(Nodes(old(host.open), old(fds[..curfd + 1])), old(paths[..curpath + 1]), expansions)),
                  Nodes(host.open, fds[..fd + 1]), v, paths[..top + 1], count)
  {
    hide CutOff, ComponentAction, Advance, PushSymlink, Stack;
    StackOpen(host.open, before, fds[..curfd + 1]);
    ghost var c := Config(Nodes(host.open, fds[..curfd + 1]), paths[..curpath + 1], expansions);
    var cut := CutOff(paths[curpath]);
    assert c.paths[curpath] == paths[curpath];
    paths[curpath] := cut.rest;
    assert c.paths[..curpath] == paths[..curpath];
    var d;
    d, fd := Act(host, p, fds, curfd, cut, curpath > 0, before);
    v, top, count := GoOn, curpath, expansions;
    match d {
      case Move => v, top := AdvancePaths(paths, curpath, c, Nodes(host.open, fds[..fd + 1]));
      case Follow(text) => v, top, count := PushPath(paths, curpath, expansions, text, cut.slashes != "", c);
      case Name(name) => v := Done(name);
      case Refuse(err) => v := Error(err);
    }
  }

  // How the loop of path_get ends, compared to the machine.
  ghost predicate EndsAs(r: Result, v: Verdict, dirs: seq<Node>) {
    match r
    case Success(ds, name) => v == Done(name) && ds == dirs
    case Failure(_, err, _) => v == Error(err)
  }

  /* The loop of path_get. */
  method Search(host: Host, p: Lookup, fds: array<nat>, paths: array<string>, ghost before: map<nat, Node>)
    returns (v: Verdict, curfd: nat)
    requires host.Valid() && p.fs == host.fs && host.open == before
    requires fds.Length == MAX_DIRECTORIES && paths.Length == MAX_PATHS && fds[0] in before
    modifies host, fds, paths
    ensures host.Valid() && curfd < fds.Length && Stack(host.open, before, fds[..curfd + 1]) && fds[0] == old(fds[0])
    ensures EndsAs(Resolve(p, before[old(fds[0])], old(paths[0])), v, Nodes(host.open, fds[..curfd + 1]))
  {
    hide Step;
    curfd := 0;
    var curpath: nat, expansions: nat := 0, 0;
    assert fds[..1] == [fds[0]] && paths[..1] == [paths[0]];
    ghost var r := Resolve(p, before[fds[0]], paths[0]);
    assert Nodes(host.open, fds[..1]) == [before[fds[0]]];
    v := GoOn;
    while v == GoOn
      invariant host.Valid() && curfd < fds.Length && curpath < paths.Length
      invariant Stack(host.open, before, fds[..curfd + 1]) && fds[0] == old(fds[0])
      invariant v == GoOn ==> expansions < MAX_EXPANSIONS
      invariant v == GoOn ==>
                  Run(p, Config(Nodes(host.open, fds[..curfd + 1]), paths[..curpath + 1], expansions)) == r
      invariant v != GoOn ==> EndsAs(r, v, Nodes(host.open, fds[..curfd + 1]))
      decreases v == GoOn, MAX_EXPANSIONS - expansions, Unread(paths[..curpath + 1])
    {
      ghost var c := Config(Nodes(host.open, fds[..curfd + 1]), paths[..curpath + 1], expansions);
      v, curfd, curpath, expansions := Round(host, p, fds, curfd, paths, curpath, expansions, before);
      if v == GoOn {
        StepDecreases(p, c);
      }
    }
  }

  function ErrorOf(e: Fd.Errno): Errno {
    if e == Fd.EBADF then EBADF else ENOTCAPABLE
  }

  /* path_get. A path with a null character, a bad descriptor and missing rights are
     refused, in this order; otherwise the result is that of the machine. Whatever is
     refused leaves the host's descriptors and all reference counts as they were. A
     lease has one more reference to the directory's object, and exactly one more
     descriptor open, for the directory found, unless that is the object's own. */
  method PathGet(host: Host, table: FdTable, numbers: map<nat, nat>, p: Lookup, fd: nat, need: Fd.Grant, path: string,
                 ghost held: multiset<nat>)
    returns (r: Access)
    requires host.Valid() && p.fs == host.fs
    requires Fd.Inv(table.View(), held) && Numbered(table.counts, numbers, host.open)
    modifies host, table`counts, table`closed
    ensures host.Valid() && table.entries[..] == old(table.entries[..])
    ensures '\0' in path ==> r == Refused(EILSEQ)
    ensures var e := Fd.Access(table.entries[..], fd, need);
            '\0' !in path && e != Fd.Success ==>
              r == Refused(if fd >= table.entries.Length || table.entries[fd].Free? then EBADF else ENOTCAPABLE)
    ensures '\0' !in path && Fd.Access(table.entries[..], fd, need) == Fd.Success ==>
              var id := table.entries[fd].id;
              && id in numbers && numbers[id] in old(host.open)
              && Leads(r, id, numbers[id], Resolve(p, old(host.open)[numbers[id]], path), host.open, old(host.open))
    ensures r.Refused? ==> host.open == old(host.open) && table.View() == old(table.View())
    ensures r.Lease? ==> Fd.Some(table.View()) == Fd.Acquire(old(table.View()), r.id)
    ensures r.Lease? ==> r.id in old(table.counts) && old(table.counts)[r.id] > 0
    ensures r.Lease? ==> Fd.Inv(table.View(), held + multiset{r.id})
  {
    hide Run, Fd.Inv, Leads, Opened, Fd.AcquireAll;
    if '\0' in path {
      return Refused(EILSEQ);
    }
    var error, ids := table.GetLocked(fd, need, held);
    if error != Fd.Success {
      AcquireNone(old(table.View()));
      return Refused(ErrorOf(error));
    }
    var id := ids[0];
    OneReference(old(table.View()), fd, need, held);
    r := Walk(host, p, numbers[id], path, id);
    if r.Refused? {
      table.Release(id, held + multiset{id});
      Returned(old(table.View()), id);
    }
  }

  // The reference that fd_object_get hands out.
  lemma OneReference(t: Fd.Table, fd: nat, need: Fd.Grant, held: multiset<nat>)
    requires Fd.Inv(t, held) && Fd.Access(t.slots, fd, need) == Fd.Success
    ensures var id := t.slots[fd].id;
            && id in t.counts && t.counts[id] > 0 && Fd.Fetched(t, fd, need) == [id]
            && Fd.AcquireAll(t, [id]) == Fd.Acquire(t, id)
  {
    Fd.FetchedLive(t, fd, need, held);
    var id := t.slots[fd].id;
    assert id in Fd.Fetched(t, fd, need);
    assert [id][..0] == [];
    assert Fd.AcquireAll(t, [id][..0]) == Fd.Some(t);
  }

  // Giving back a reference on top of others.
  lemma Returned(t: Fd.Table, id: nat)
    requires id in t.counts && t.counts[id] > 0
    ensures Fd.Acquire(t, id).Some? && Fd.Release(Fd.Acquire(t, id).value, id) == Fd.Some(t)
  {
    assert t.counts[id := t.counts[id] + 1][id := t.counts[id]] == t.counts;
  }

  // What a lookup from host descriptor base gives, according to the machine's result.
  ghost predicate Leads(r: Access, id: nat, base: nat, result: Result, open: map<nat, Node>, before: map<nat, Node>) {
    match result
    case Failure(_, err, _) => r == Refused(err)
    case Success(dirs, name) =>
      && r.Lease? && r.path == name && r.id == id
      && dirs != [] && r.fd in open && open[r.fd] == dirs[|dirs| - 1]
      && (r.fd == base <==> |dirs| == 1)
      && Opened(r.fd, base, open, before)
  }

  // Nothing was opened but fd, and that only if it is not the base.
  ghost predicate Opened(fd: nat, base: nat, open: map<nat, Node>, before: map<nat, Node>) {
    if fd == base then open == before
    else fd !in before && fd in open && open == before[fd := open[fd]]
  }

  // The part of path_get that walks along the path.
  method Walk(host: Host, p: Lookup, base: nat, path: string, id: nat) returns (r: Access)
    requires host.Valid() && p.fs == host.fs && base in host.open
    modifies host
    ensures host.Valid()
    ensures Leads(r, id, base, Resolve(p, old(host.open)[base], path), host.open, old(host.open))
    ensures r.Refused? ==> host.open == old(host.open)
    ensures r.Lease? ==> r.id == id
  {
    hide Run;
    ghost var before := host.open;
    var fds := new nat[MAX_DIRECTORIES];
    fds[0] := base;
    var paths := new string[MAX_PATHS];
    paths[0] := path;
    var v, curfd := Search(host, p, fds, paths, before);
    if v.Done? {
      r := Finish(host, fds, curfd, v.name, id, before);
    } else {
      CloseUpTo(host, fds, curfd, curfd, before);
      assert [fds[0]] + fds[curfd + 1..curfd + 1] == [fds[0]];
      StackBottom(host.open, before, [fds[0]]);
      r := Refused(v.err);
    }
  }

  // The end of a successful lookup.
  method Finish(host: Host, fds: array<nat>, curfd: nat, name: string, id: nat, ghost before: map<nat, Node>)
    returns (r: Access)
    requires host.Valid() && curfd < fds.Length && Stack(host.open, before, fds[..curfd + 1])
    modifies host
    ensures host.Valid() && r == Lease(fds[curfd], name, id)
    ensures r.fd in old(host.open) && r.fd in host.open && host.open[r.fd] == old(host.open)[r.fd]
    ensures r.fd == fds[0] <==> curfd == 0
    ensures Opened(r.fd, fds[0], host.open, before)
  {
    r := Lease(fds[curfd], name, id);
    assert fds[..curfd + 1][curfd] == fds[curfd];
    if curfd > 0 {
      CloseUpTo(host, fds, curfd - 1, curfd, before);
      assert [fds[0]] + fds[curfd..curfd + 1] == [fds[0], fds[curfd]];
      StackTwo(host.open, before, [fds[0], fds[curfd]]);
    } else {
      StackBottom(host.open, before, fds[..1]);
    }
  }

  /* path_put undoes what a successful path_get left behind, and releases the object. */
  method PathPut(host: Host, table: FdTable, numbers: map<nat, nat>, r: Access, ghost before: map<nat, Node>,
                 ghost held: multiset<nat>)
    requires host.Valid() && r.Lease? && r.id in numbers && Fd.Inv(table.View(), held) && r.id in held
    requires Opened(r.fd, numbers[r.id], host.open, before)
    modifies host, table`counts, table`closed
    ensures host.Valid() && host.open == before
    ensures Fd.Some(table.View()) == Fd.Release(old(table.View()), r.id)
    ensures Fd.Inv(table.View(), held - multiset{r.id})
  {
    if numbers[r.id] != r.fd {
      host.Close(r.fd);
      SameMap(host.open, before);
    }
    table.Release(r.id, held);
  }

  /* A lookup and its release, together: the host's descriptors, the table and all
     reference counts are as before, whatever the path, the descriptor, the rights
     and the file system. */
  method LookupAndRelease(host: Host, table: FdTable, numbers: map<nat, nat>, p: Lookup, fd: nat, need: Fd.Grant,
                          path: string, ghost held: multiset<nat>)
    requires host.Valid() && p.fs == host.fs
    requires Fd.Inv(table.View(), held) && Numbered(table.counts, numbers, host.open)
    modifies host, table`counts, table`closed
    ensures host.Valid() && host.open == old(host.open) && table.View() == old(table.View())
  {
    hide Fd.Inv, Run;
    ghost var before := host.open;
    var r := PathGet(host, table, numbers, p, fd, need, path, held);
    if r.Lease? {
      PathPut(host, table, numbers, r, before, held + multiset{r.id});
      Returned(old(table.View()), r.id);
    }
  }
}
