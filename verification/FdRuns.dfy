/**
 Threads working on one descriptor table. A system call locks the table for one
 step and keeps the references it was handed until later steps release them, so
 that the steps of different calls interleave freely.
 */
module FdRuns {
  import opened FdTables

  /* What a thread has at hand between two steps.
     Busy: a call that still has to release the references held.
     Opening: file_open between its rights check and its new object, with the rights asked for.
     Installing: new objects that fd_table_insert is about to attach. */
  datatype Phase =
    | Busy(held: seq<nat>)
    | Opening(held: seq<nat>, asked: Grant)
    | Installing(items: seq<Item>)

  datatype State = State(table: Table, threads: seq<Phase>)

  // The open and descriptor flags that ask for more rights on the directory.
  datatype Flag = Append | Creat | Dsync | Rsync | Sync | Trunc

  datatype Op =
    | Spawn
    | Close(t: nat, fd: nat)
    | Replace(t: nat, from: nat, to: nat)
    | Dup(t: nat, fd: nat, slot: nat, memory: bool)
    | PutRights(t: nat, fd: nat, grant: Grant)
    | Get(t: nat, fd: nat, need: Grant)
    | Poll(t: nat, fds: seq<nat>, need: Grant)
    | Send(t: nat, fds: seq<nat>, bare: set<nat>)
    | Put(t: nat)
    | OpenCheck(t: nat, fd: nat, asked: Grant, flags: set<Flag>)
    | OpenFail(t: nat)
    | OpenDone(t: nat, id: nat, limit: Grant)
    | Create(t: nat, items: seq<Item>)
    | Install(t: nat, slots: seq<nat>, memory: bool)
    | InstallAt(t: nat, slot: nat, memory: bool)

  datatype Outcome = Fault | Next(state: State)

  predicate Distinct<T(==)>(s: seq<T>) {
    forall i, j :: 0 <= i < j < |s| ==> s[i] != s[j]
  }

  // The slots are picked by fd_table_unused in the grown table.
  predicate AllFree(slots: seq<Slot>, picked: seq<nat>) {
    && (forall i :: 0 <= i < |picked| ==> picked[i] < |slots| && slots[picked[i]].Free?)
    && Distinct(picked)
  }

  predicate IsNew(t: Table, id: nat) {
    id !in t.counts && id !in t.closed
  }

  function Ids(items: seq<Item>): seq<nat> {
    seq(|items|, i requires 0 <= i < |items| => items[i].id)
  }

  predicate Idle(p: Phase) {
    p == Busy([])
  }

  predicate Enabled(s: State, op: Op) {
    op.Spawn? || (
      && op.t < |s.threads|
      && var p := s.threads[op.t];
      match op
      case Get(_, _, _) => p.Busy?
      case Put(_) => !p.Installing? && p.held != []
      case OpenFail(_) => p.Opening?
      case OpenDone(_, id, _) => p.Opening? && p.held == [] && IsNew(s.table, id)
      case Create(_, items) =>
        Idle(p) && Distinct(Ids(items)) && forall i :: 0 <= i < |items| ==> IsNew(s.table, items[i].id)
      case Install(_, slots, _) =>
        p.Installing? && |slots| == |p.items| && AllFree(Grow(s.table, 0, |slots|).slots, slots)
      case InstallAt(_, _, _) => p.Installing? && |p.items| == 1
      case Dup(_, _, slot, _) => Idle(p) && AllFree(Grow(s.table, 0, 1).slots, [slot])
      case _ => Idle(p))
  }

  function Become(s: State, t: nat, table: Maybe<Table>, p: Phase): Outcome
    requires t < |s.threads|
  {
    if table.None? then Fault else Next(State(table.value, s.threads[t := p]))
  }

  // sys_fd_close
  function CloseStep(s: State, t: nat, fd: nat): Outcome
    requires t < |s.threads|
  {
    if Access(s.table.slots, fd, NOTHING) != Success then Next(s)
    else Become(s, t, Detach(s.table, fd), Busy([s.table.slots[fd].id]))
  }

  /* sys_fd_replace. The entry to copy from is read after the other one was detached,
     so it is empty by then if the two are the same. */
  function ReplaceStep(s: State, t: nat, from: nat, to: nat): Outcome
    requires t < |s.threads|
  {
    var table := s.table;
    if Access(table.slots, from, NOTHING) != Success || Access(table.slots, to, NOTHING) != Success then Next(s)
    else
      var detached := Detach(table, to);
      if detached.None? || detached.value.slots[from].Free? then Fault
      else
        var source := detached.value.slots[from];
        var acquired := Acquire(detached.value, source.id);
        if acquired.None? then Fault
        else Become(s, t, Attach(acquired.value, to, source.id, source.grant), Busy([table.slots[to].id]))
  }

  // sys_fd_dup
  function DupStep(s: State, t: nat, fd: nat, slot: nat, memory: bool): Outcome
    requires t < |s.threads|
  {
    var table := s.table;
    if Access(table.slots, fd, NOTHING) != Success then Next(s)
    else if Full(|table.slots|, table.used, 0, 1) && !memory then Next(s)
    else
      var source := table.slots[fd];
      var acquired := Acquire(Grow(table, 0, 1), source.id);
      if acquired.None? then Fault
      else Become(s, t, Attach(acquired.value, slot, source.id, source.grant), Busy([]))
  }

  function Take(s: State, t: nat, ids: seq<nat>): Outcome
    requires t < |s.threads| && s.threads[t].Busy?
  {
    Become(s, t, AcquireAll(s.table, ids), Busy(s.threads[t].held + ids))
  }

  // The rights that sys_file_open asks of the directory.
  function Needed(asked: Grant, flags: set<Flag>): Grant {
    var write := asked.base * {FdDatasync, FdWrite, FileAllocate, FileStatFputSize} != {};
    Grant(
      {FileOpen} + (if Creat in flags then {FileCreateFile} else {}),
      asked.base + asked.inheriting
      + (if Trunc in flags then {FileStatFputSize} else {})
      + (if Dsync in flags then {FdDatasync} else {})
      + (if Rsync in flags || Sync in flags then {FdSync} else {})
      + (if write && Append !in flags && Trunc !in flags then {FdSeek} else {}))
  }

  // The part of sys_file_open up to the point where path_get has its reference.
  function OpenStep(s: State, t: nat, fd: nat, asked: Grant, flags: set<Flag>): Outcome
    requires t < |s.threads|
  {
    if Access(s.table.slots, fd, Needed(asked, flags)) != Success then Next(s)
    else Become(s, t, Acquire(s.table, s.table.slots[fd].id), Opening([s.table.slots[fd].id], asked))
  }

  // fd_object_release
  function PutStep(s: State, t: nat): Outcome
    requires t < |s.threads| && !s.threads[t].Installing? && s.threads[t].held != []
  {
    var p := s.threads[t];
    Become(s, t, Release(s.table, p.held[0]), p.(held := p.held[1..]))
  }

  function NewAll(t: Table, ids: seq<nat>): Table {
    if ids == [] then t else New(NewAll(t, ids[..|ids| - 1]), ids[|ids| - 1])
  }

  /* The insertion of new objects: fd_table_insert with one, fd_table_insert_fdpair with
     two, fd_table_insert_existing at a given place. Without memory they are released. */
  function InstallStep(s: State, t: nat, min: nat, slots: seq<nat>, memory: bool): Outcome
    requires t < |s.threads| && s.threads[t].Installing? && |slots| == |s.threads[t].items|
  {
    var items := s.threads[t].items;
    if Full(|s.table.slots|, s.table.used, min, |items|) && !memory
    then Next(s.(threads := s.threads[t := Busy(Ids(items))]))
    else Become(s, t, AttachAll(Grow(s.table, min, |items|), slots, items), Busy([]))
  }

  function Step(s: State, op: Op): Outcome
    requires Enabled(s, op)
  {
    match op
    case Spawn => Next(s.(threads := s.threads + [Busy([])]))
    case Close(t, fd) => CloseStep(s, t, fd)
    case Replace(t, from, to) => ReplaceStep(s, t, from, to)
    case Dup(t, fd, slot, memory) => DupStep(s, t, fd, slot, memory)
    case PutRights(t, fd, grant) => Next(s.(table := Restrict(s.table, fd, grant)))
    case Get(t, fd, need) => Take(s, t, Fetched(s.table, fd, need))
    case Poll(t, fds, need) => Take(s, t, PollFetched(s.table, fds, need))
    case Send(t, fds, bare) => Take(s, t, SendFetched(s.table, fds, bare))
    case Put(t) => PutStep(s, t)
    case OpenCheck(t, fd, asked, flags) => OpenStep(s, t, fd, asked, flags)
    case OpenFail(t) => Next(s.(threads := s.threads[t := Busy(s.threads[t].held)]))
    case OpenDone(t, id, limit) =>
      var asked := s.threads[t].asked;
      var g := Grant(asked.base * limit.base, asked.inheriting * limit.inheriting);
      Next(State(New(s.table, id), s.threads[t := Installing([Item(id, g)])]))
    case Create(t, items) =>
      Next(State(NewAll(s.table, Ids(items)), s.threads[t := Installing(items)]))
    case Install(t, slots, memory) => InstallStep(s, t, 0, slots, memory)
    case InstallAt(t, slot, memory) => InstallStep(s, t, slot, [slot], memory)
  }

  const START := State(EMPTY, [Busy([])])

  ghost predicate Runs(s: State, ops: seq<Op>, end: State)
    decreases |ops|
  {
    if ops == [] then end == s
    else Enabled(s, ops[0]) && Step(s, ops[0]).Next? && Runs(Step(s, ops[0]).state, ops[1..], end)
  }

  // The references a thread has at hand.
  function References(p: Phase): multiset<nat> {
    if p.Installing? then multiset(Ids(p.items)) else multiset(p.held)
  }

  function Held(threads: seq<Phase>): multiset<nat> {
    if threads == [] then multiset{}
    else Held(threads[..|threads| - 1]) + References(threads[|threads| - 1])
  }

  lemma {:induction false} HeldUpdate(threads: seq<Phase>, t: nat, p: Phase)
    requires t < |threads|
    ensures Held(threads[t := p]) + References(threads[t]) == Held(threads) + References(p)
    decreases |threads|
  {
    hide References;
    var n := |threads| - 1;
    if t == n {
      assert threads[t := p][..n] == threads[..n];
    } else {
      assert threads[t := p][..n] == threads[..n][t := p];
      HeldUpdate(threads[..n], t, p);
      var rest := threads[..n];
      assert Held(threads[t := p]) + References(threads[t])
          == Held(rest[t := p]) + References(rest[t]) + References(threads[n]);
      assert Held(threads) + References(p) == Held(rest) + References(p) + References(threads[n]);
    }
  }

  // The references that the other threads hold.
  function Others(threads: seq<Phase>, t: nat): multiset<nat>
    requires t < |threads|
  {
    Held(threads[t := Busy([])])
  }

  lemma HeldSplit(threads: seq<Phase>, t: nat, p: Phase)
    requires t < |threads|
    ensures Held(threads) == Others(threads, t) + References(threads[t])
    ensures Held(threads[t := p]) == Others(threads, t) + References(p)
  {
    hide Held, References;
    assert References(Busy([])) == multiset{} by {
      EmptyHands();
    }
    HeldUpdate(threads, t, Busy([]));
    HeldUpdate(threads[t := p], t, Busy([]));
    assert threads[t := p][t := Busy([])] == threads[t := Busy([])];
  }

  lemma EmptyHands()
    ensures References(Busy([])) == multiset{}
  {
  }

  ghost predicate StateInv(s: State) {
    Inv(s.table, Held(s.threads))
  }

  // A thread passes from one phase to another together with the table.
  lemma BecomeKeeps(s: State, t: nat, table: Table, p: Phase)
    requires t < |s.threads| && Inv(table, Others(s.threads, t) + References(p))
    ensures Become(s, t, Some(table), p).Next? && StateInv(Become(s, t, Some(table), p).state)
  {
    hide Inv, References, Held, Others;
    HeldSplit(s.threads, t, p);
  }

  // The invariant, seen from thread t.
  lemma Apart(s: State, t: nat)
    requires StateInv(s) && t < |s.threads|
    ensures Inv(s.table, Others(s.threads, t) + References(s.threads[t]))
    ensures s.threads[t].Busy? && s.threads[t].held == [] ==> Inv(s.table, Others(s.threads, t))
  {
    hide Inv, References, Held, Others;
    HeldSplit(s.threads, t, s.threads[t]);
    if Idle(s.threads[t]) {
      EmptyHands();
      assert Others(s.threads, t) + multiset{} == Others(s.threads, t);
    }
  }

  lemma CloseKeeps(s: State, t: nat, fd: nat)
    requires StateInv(s) && t < |s.threads| && Idle(s.threads[t])
    ensures CloseStep(s, t, fd).Next? && StateInv(CloseStep(s, t, fd).state)
  {
    hide Inv, Held, Others;
    if Access(s.table.slots, fd, NOTHING) == Success {
      Apart(s, t);
      DetachKeeps(s.table, fd, Others(s.threads, t));
      BecomeKeeps(s, t, Detach(s.table, fd).value, Busy([s.table.slots[fd].id]));
    }
  }

  lemma ReplaceTable(t: Table, from: nat, to: nat, held: multiset<nat>)
    requires Inv(t, held) && from != to
    requires Access(t.slots, from, NOTHING) == Success && Access(t.slots, to, NOTHING) == Success
    ensures Detach(t, to).Some? && Acquire(Detach(t, to).value, t.slots[from].id).Some?
    ensures var acquired := Acquire(Detach(t, to).value, t.slots[from].id).value;
            var done := Attach(acquired, to, t.slots[from].id, t.slots[from].grant);
            done.Some? && Inv(done.value, held + multiset{t.slots[to].id})
  {
    hide Inv;
    var o := t.slots[from].id;
    var mid := held + multiset{t.slots[to].id};
    DetachKeeps(t, to, held);
    var detached := Detach(t, to).value;
    SlotCounted(detached.slots, from);
    LiveObjects(detached, mid, o);
    AcquireKeeps(detached, o, mid);
    Roomy(t, held);
    AttachKeeps(Acquire(detached, o).value, to, o, t.slots[from].grant, mid + multiset{o});
    assert mid + multiset{o} - multiset{o} == mid;
  }

  lemma Roomy(t: Table, held: multiset<nat>)
    requires Inv(t, held)
    ensures |t.slots| >= t.used * 2
  {
  }

  /* Replacing faults exactly when the two descriptors are one valid descriptor. */
  lemma ReplaceKeeps(s: State, t: nat, from: nat, to: nat)
    requires StateInv(s) && t < |s.threads| && Idle(s.threads[t])
    ensures ReplaceStep(s, t, from, to).Fault? <==>
            from == to && Access(s.table.slots, to, NOTHING) == Success
    ensures ReplaceStep(s, t, from, to).Next? ==> StateInv(ReplaceStep(s, t, from, to).state)
  {
    hide Inv, Held, Others;
    var slots := s.table.slots;
    if Access(slots, from, NOTHING) == Success && Access(slots, to, NOTHING) == Success && from != to {
      Apart(s, t);
      ReplaceTable(s.table, from, to, Others(s.threads, t));
      var acquired := Acquire(Detach(s.table, to).value, slots[from].id).value;
      var done := Attach(acquired, to, slots[from].id, slots[from].grant).value;
      BecomeKeeps(s, t, done, Busy([slots[to].id]));
    }
  }

  // A new entry for a live object, in a table that was grown for it.
  lemma CopyTable(t: Table, id: nat, g: Grant, slot: nat, held: multiset<nat>)
    requires Inv(t, held) && id in t.counts && AllFree(Grow(t, 0, 1).slots, [slot])
    ensures var grown := Grow(t, 0, 1);
            && Acquire(grown, id).Some? && Attach(Acquire(grown, id).value, slot, id, g).Some?
            && Inv(Attach(Acquire(grown, id).value, slot, id, g).value, held)
  {
    hide Inv;
    var grown := Grow(t, 0, 1);
    GrowKeeps(t, 0, 1, held);
    AcquireKeeps(grown, id, held);
    assert [slot][0] == slot;
    AttachKeeps(Acquire(grown, id).value, slot, id, g, held + multiset{id});
    assert held + multiset{id} - multiset{id} == held;
  }

  lemma DupKeeps(s: State, t: nat, fd: nat, slot: nat, memory: bool)
    requires StateInv(s) && t < |s.threads| && Idle(s.threads[t])
    requires AllFree(Grow(s.table, 0, 1).slots, [slot])
    ensures DupStep(s, t, fd, slot, memory).Next? && StateInv(DupStep(s, t, fd, slot, memory).state)
  {
    hide Inv, Held, Others;
    if Access(s.table.slots, fd, NOTHING) == Success && !(Full(|s.table.slots|, s.table.used, 0, 1) && !memory) {
      var held, source := Others(s.threads, t), s.table.slots[fd];
      Apart(s, t);
      FetchedLive(s.table, fd, NOTHING, held);
      assert source.id in Fetched(s.table, fd, NOTHING);
      CopyTable(s.table, source.id, source.grant, slot, held);
      var acquired := Acquire(Grow(s.table, 0, 1), source.id).value;
      assert held + References(Busy([])) == held;
      BecomeKeeps(s, t, Attach(acquired, slot, source.id, source.grant).value, Busy([]));
    }
  }

  lemma TakeKeeps(s: State, t: nat, ids: seq<nat>)
    requires StateInv(s) && t < |s.threads| && s.threads[t].Busy?
    requires forall o :: o in ids ==> o in s.table.counts
    ensures Take(s, t, ids).Next? && StateInv(Take(s, t, ids).state)
  {
    hide Inv, Held, Others;
    var p := s.threads[t];
    Apart(s, t);
    AcquireAllKeeps(s.table, ids, Others(s.threads, t) + References(p));
    assert Others(s.threads, t) + References(p) + multiset(ids)
        == Others(s.threads, t) + References(Busy(p.held + ids));
    BecomeKeeps(s, t, AcquireAll(s.table, ids).value, Busy(p.held + ids));
  }

  lemma PutKeeps(s: State, t: nat)
    requires StateInv(s) && t < |s.threads| && !s.threads[t].Installing? && s.threads[t].held != []
    ensures PutStep(s, t).Next? && StateInv(PutStep(s, t).state)
  {
    hide Inv, Held, Others;
    var p := s.threads[t];
    var held := Others(s.threads, t) + References(p);
    assert p.held == [p.held[0]] + p.held[1..];
    Apart(s, t);
    ReleaseKeeps(s.table, p.held[0], held);
    assert held - multiset{p.held[0]} == Others(s.threads, t) + References(p.(held := p.held[1..]));
    BecomeKeeps(s, t, Release(s.table, p.held[0]).value, p.(held := p.held[1..]));
  }

  lemma OpenKeeps(s: State, t: nat, fd: nat, asked: Grant, flags: set<Flag>)
    requires StateInv(s) && t < |s.threads| && Idle(s.threads[t])
    ensures OpenStep(s, t, fd, asked, flags).Next? && StateInv(OpenStep(s, t, fd, asked, flags).state)
  {
    hide Inv, Held, Others, Needed;
    var need := Needed(asked, flags);
    if Access(s.table.slots, fd, need) == Success {
      var o := s.table.slots[fd].id;
      Apart(s, t);
      FetchedLive(s.table, fd, need, Others(s.threads, t));
      assert o in Fetched(s.table, fd, need);
      AcquireKeeps(s.table, o, Others(s.threads, t));
      BecomeKeeps(s, t, Acquire(s.table, o).value, Opening([o], asked));
    }
  }

  lemma {:induction false} NewAllKeeps(table: Table, ids: seq<nat>, held: multiset<nat>)
    requires Inv(table, held) && Distinct(ids)
    requires forall i :: 0 <= i < |ids| ==> IsNew(table, ids[i])
    ensures Inv(NewAll(table, ids), held + multiset(ids))
    ensures NewAll(table, ids).closed == table.closed
    ensures forall o :: o in NewAll(table, ids).counts ==> o in table.counts || o in ids
    decreases |ids|
  {
    hide Inv;
    if ids == [] {
      assert held + multiset(ids) == held;
    } else {
      var n := |ids| - 1;
      NewAllKeeps(table, ids[..n], held);
      assert ids == ids[..n] + [ids[n]];
      assert ids[n] !in ids[..n];
      NewKeeps(NewAll(table, ids[..n]), ids[n], held + multiset(ids[..n]));
      assert held + multiset(ids) == held + multiset(ids[..n]) + multiset{ids[n]};
    }
  }

  lemma CreateKeeps(s: State, t: nat, items: seq<Item>)
    requires StateInv(s) && t < |s.threads| && Idle(s.threads[t]) && Distinct(Ids(items))
    requires forall i :: 0 <= i < |items| ==> IsNew(s.table, items[i].id)
    ensures StateInv(State(NewAll(s.table, Ids(items)), s.threads[t := Installing(items)]))
  {
    hide Inv, Held, Others;
    Apart(s, t);
    NewAllKeeps(s.table, Ids(items), Others(s.threads, t));
    BecomeKeeps(s, t, NewAll(s.table, Ids(items)), Installing(items));
  }

  lemma OpenDoneKeeps(s: State, t: nat, id: nat, g: Grant)
    requires StateInv(s) && t < |s.threads| && s.threads[t].Opening? && s.threads[t].held == []
    requires IsNew(s.table, id)
    ensures StateInv(State(New(s.table, id), s.threads[t := Installing([Item(id, g)])]))
  {
    hide Inv, Held, Others;
    var held := Others(s.threads, t);
    Apart(s, t);
    assert held + References(s.threads[t]) == held;
    NewKeeps(s.table, id, held);
    assert Ids([Item(id, g)]) == [id];
    BecomeKeeps(s, t, New(s.table, id), Installing([Item(id, g)]));
  }

  lemma {:induction false} AttachAllKeeps(t: Table, slots: seq<nat>, items: seq<Item>, held: multiset<nat>)
    requires |slots| == |items| && Inv(t, held + multiset(Ids(items)))
    requires AllFree(t.slots, slots) && |t.slots| >= (t.used + |items|) * 2
    ensures AttachAll(t, slots, items).Some? && Inv(AttachAll(t, slots, items).value, held)
    decreases |slots|
  {
    hide Inv;
    if slots == [] {
      assert held + multiset(Ids(items)) == held;
    } else {
      var o := items[0].id;
      var all := held + multiset(Ids(items));
      assert Ids(items) == [o] + Ids(items[1..]);
      assert all - multiset{o} == held + multiset(Ids(items[1..]));
      AttachKeeps(t, slots[0], o, items[0].grant, all);
      var t' := Attach(t, slots[0], o, items[0].grant).value;
      assert AllFree(t'.slots, slots[1..]);
      AttachAllKeeps(t', slots[1..], items[1..], held);
    }
  }

  /* Installing at free places never faults: the references pass to the table, or stay
     with the call if there is no memory to grow. */
  lemma InstallKeeps(s: State, t: nat, min: nat, slots: seq<nat>, memory: bool)
    requires StateInv(s) && t < |s.threads| && s.threads[t].Installing? && |slots| == |s.threads[t].items|
    requires AllFree(Grow(s.table, min, |slots|).slots, slots)
    ensures InstallStep(s, t, min, slots, memory).Next?
    ensures StateInv(InstallStep(s, t, min, slots, memory).state)
  {
    hide Inv, Held, Others;
    var items, held := s.threads[t].items, Others(s.threads, t);
    Apart(s, t);
    if Full(|s.table.slots|, s.table.used, min, |items|) && !memory {
      BecomeKeeps(s, t, s.table, Busy(Ids(items)));
    } else {
      GrowKeeps(s.table, min, |items|, held + multiset(Ids(items)));
      AttachAllKeeps(Grow(s.table, min, |items|), slots, items, held);
      assert held + References(Busy([])) == held;
      BecomeKeeps(s, t, AttachAll(Grow(s.table, min, |items|), slots, items).value, Busy([]));
    }
  }
}
