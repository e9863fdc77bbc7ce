/**
 What holds in every run of the descriptor table: which uses of it fail, that
 references are conserved, and that an object is cleaned up once and not while it
 is in use.
 */
module FdTheorems {
  import opened FdTables
  import opened FdRuns

  /* The two uses of the table that fail an assertion or read an empty entry: replacing
     a descriptor by itself, and inserting an existing descriptor over another one. */
  predicate Faulty(s: State, op: Op) {
    match op
    case Replace(_, from, to) => from == to && Access(s.table.slots, to, NOTHING) == Success
    case InstallAt(_, slot, memory) =>
      && slot < |s.table.slots| && s.table.slots[slot].Used?
      && (memory || !Full(|s.table.slots|, s.table.used, slot, 1))
    case _ => false
  }

  lemma InstallAtKeeps(s: State, t: nat, slot: nat, memory: bool)
    requires StateInv(s) && Enabled(s, InstallAt(t, slot, memory))
    ensures InstallStep(s, t, slot, [slot], memory).Fault? <==> Faulty(s, InstallAt(t, slot, memory))
    ensures InstallStep(s, t, slot, [slot], memory).Next? ==>
              StateInv(InstallStep(s, t, slot, [slot], memory).state)
  {
    hide StateInv;
    var grown := Grow(s.table, slot, 1);
    if Full(|s.table.slots|, s.table.used, slot, 1) && !memory {
      HandBack(s, t);
    } else if slot < |s.table.slots| && s.table.slots[slot].Used? {
      assert grown.slots[slot].Used?;
    } else {
      assert AllFree(grown.slots, [slot]);
      InstallKeeps(s, t, slot, [slot], memory);
    }
  }

  lemma HandBack(s: State, t: nat)
    requires StateInv(s) && t < |s.threads| && s.threads[t].Installing?
    ensures StateInv(s.(threads := s.threads[t := Busy(Ids(s.threads[t].items))]))
  {
    hide Inv, Held, Others;
    Apart(s, t);
    BecomeKeeps(s, t, s.table, Busy(Ids(s.threads[t].items)));
  }

  lemma OpenFailKeeps(s: State, t: nat)
    requires StateInv(s) && t < |s.threads| && s.threads[t].Opening?
    ensures StateInv(s.(threads := s.threads[t := Busy(s.threads[t].held)]))
  {
    hide Inv, Held, Others;
    Apart(s, t);
    BecomeKeeps(s, t, s.table, Busy(s.threads[t].held));
  }

  lemma SpawnKeeps(s: State)
    requires StateInv(s)
    ensures StateInv(s.(threads := s.threads + [Busy([])]))
  {
    var threads := s.threads + [Busy([])];
    assert threads[..|threads| - 1] == s.threads;
    assert Held(threads) == Held(s.threads);
  }

  lemma TakeStepKeeps(s: State, op: Op)
    requires StateInv(s) && Enabled(s, op) && (op.Get? || op.Poll? || op.Send?)
    ensures Step(s, op).Next? && StateInv(Step(s, op).state)
  {
    hide StateInv, Take, Enabled;
    assert op.t < |s.threads| && s.threads[op.t].Busy? by {
      TakeEnabled(s, op);
    }
    Tabled(s);
    match op
    case Get(t, fd, need) =>
      FetchedLive(s.table, fd, need, Held(s.threads));
      TakeKeeps(s, t, Fetched(s.table, fd, need));
    case Poll(t, fds, need) =>
      PollFetchedLive(s.table, fds, need, Held(s.threads));
      TakeKeeps(s, t, PollFetched(s.table, fds, need));
    case Send(t, fds, bare) =>
      SendFetchedLive(s.table, fds, bare, Held(s.threads));
      TakeKeeps(s, t, SendFetched(s.table, fds, bare));
  }

  lemma TakeEnabled(s: State, op: Op)
    requires Enabled(s, op) && (op.Get? || op.Poll? || op.Send?)
    ensures op.t < |s.threads| && s.threads[op.t].Busy?
  {
  }

  lemma Tabled(s: State)
    requires StateInv(s)
    ensures Inv(s.table, Held(s.threads))
  {
  }

  lemma PutRightsKeeps(s: State, fd: nat, g: Grant)
    requires StateInv(s)
    ensures StateInv(s.(table := Restrict(s.table, fd, g)))
  {
    RestrictKeeps(s.table, fd, g, Held(s.threads));
  }

  /* Every step keeps the invariant, and an assertion fails, or an empty entry is
     dereferenced, in the two cases named and in no other. */
  lemma StepKeeps(s: State, op: Op)
    requires StateInv(s) && Enabled(s, op)
    ensures Step(s, op).Fault? <==> Faulty(s, op)
    ensures Step(s, op).Next? ==> StateInv(Step(s, op).state)
  {
    hide StateInv, CloseStep, DupStep, ReplaceStep, OpenStep, PutStep, InstallStep;
    hide Take, NewAll, New, Restrict, Grow, AllFree;
    match op
    case Spawn => SpawnKeeps(s);
    case Close(t, fd) => CloseKeeps(s, t, fd);
    case Replace(t, from, to) => ReplaceKeeps(s, t, from, to);
    case Dup(t, fd, slot, memory) => DupKeeps(s, t, fd, slot, memory);
    case PutRights(t, fd, g) => PutRightsKeeps(s, fd, g);
    case Get(_, _, _) => TakeStepKeeps(s, op);
    case Poll(_, _, _) => TakeStepKeeps(s, op);
    case Send(_, _, _) => TakeStepKeeps(s, op);
    case Put(t) => PutKeeps(s, t);
    case OpenCheck(t, fd, asked, flags) => OpenKeeps(s, t, fd, asked, flags);
    case OpenFail(t) => OpenFailKeeps(s, t);
    case OpenDone(t, id, limit) =>
      var asked := s.threads[t].asked;
      OpenDoneKeeps(s, t, id, Grant(asked.base * limit.base, asked.inheriting * limit.inheriting));
    case Create(t, items) => CreateKeeps(s, t, items);
    case Install(t, slots, memory) => InstallKeeps(s, t, 0, slots, memory);
    case InstallAt(t, slot, memory) => InstallAtKeeps(s, t, slot, memory);
  }

  lemma {:induction false} RunKeeps(s: State, ops: seq<Op>, end: State)
    requires StateInv(s) && Runs(s, ops, end)
    ensures StateInv(end)
    decreases |ops|
  {
    hide StateInv, Step, Enabled;
    if ops != [] {
      StepKeeps(s, ops[0]);
      RunKeeps(Step(s, ops[0]).state, ops[1..], end);
    }
  }

  ghost predicate Reachable(s: State) {
    exists ops :: Runs(START, ops, s)
  }

  lemma ReachableInv(s: State)
    requires Reachable(s)
    ensures StateInv(s)
  {
    var ops :| Runs(START, ops, s);
    assert Held([Busy([])]) == multiset{};
    RunKeeps(START, ops, s);
  }

  /* In every reachable state the table is at most half full, its size is zero or a
     power of two, and used is the number of its entries. */
  lemma TableHalfFree(s: State)
    requires Reachable(s)
    ensures s.table.used == |Objects(s.table.slots)| && |s.table.slots| >= s.table.used * 2
    ensures |s.table.slots| == 0 || PowerOfTwo(|s.table.slots|)
  {
    ReachableInv(s);
  }

  /* In every reachable state the reference count of an object is the number of its
     entries in the table plus the references that calls in progress hold. */
  lemma ReferencesConserved(s: State, o: nat)
    requires Reachable(s)
    ensures Count(s.table, o) == Objects(s.table.slots)[o] + Held(s.threads)[o]
  {
    ReachableInv(s);
  }

  lemma AssertionsHold(s: State, op: Op)
    requires Reachable(s) && Enabled(s, op)
    ensures Step(s, op).Fault? <==> Faulty(s, op)
  {
    hide StateInv, Step, Enabled, Faulty;
    ReachableInv(s);
    StepKeeps(s, op);
  }

  // After one object was created and installed at slot 0.
  function OneEntry(item: Item): State {
    State(Table([Used(item.id, item.grant), Free], 1, map[item.id := 1], multiset{}), [Busy([])])
  }

  lemma OneEntryReachable(item: Item)
    ensures Reachable(OneEntry(item))
  {
    var create, install := Create(0, [item]), Install(0, [0], true);
    var mid := State(EMPTY.(counts := map[item.id := 1]), [Installing([item])]);
    assert Ids([item]) == [item.id];
    assert NewAll(EMPTY, [item.id]) == New(NewAll(EMPTY, []), item.id);
    assert Step(START, create) == Next(mid);
    assert Doubled(1, 0, 0, 1) == Doubled(2, 0, 0, 1) == 2;
    assert Grown([], 0, 0, 1) == [Free, Free];
    var grown := Grow(mid.table, 0, 1);
    var done := OneEntry(item);
    assert grown.slots == [Free, Free] && grown.used == 0;
    assert [Free, Free][0 := Used(item.id, item.grant)] == [Used(item.id, item.grant), Free];
    assert Attach(grown, 0, item.id, item.grant) == Some(done.table);
    assert [0][1..] == [] && [item][1..] == [];
    assert AttachAll(done.table, [0][1..], [item][1..]) == Some(done.table);
    assert AttachAll(grown, [0], [item]) == Some(done.table);
    assert Step(mid, install) == Next(done);
    assert Runs(done, [], done);
    assert [install][1..] == [] && Runs(mid, [install], done);
    assert [create, install][1..] == [install];
    assert Runs(START, [create, install], done);
  }

  /* A table that has to grow when its only entry is duplicated is within reach, too. */
  lemma DupMustGrow(item: Item)
    ensures var s := OneEntry(item);
            && Reachable(s) && Enabled(s, Dup(0, 0, 1, true))
            && Access(s.table.slots, 0, NOTHING) == Success && Full(|s.table.slots|, s.table.used, 0, 1)
  {
    OneEntryReachable(item);
    var slots := Grow(OneEntry(item).table, 0, 1).slots;
    assert slots[1] == OneEntry(item).table.slots[1];
    assert AllFree(slots, [1]);
  }

  /* Replacing a valid descriptor by itself is within a program's reach. */
  lemma ReplaceBySelfFaults(item: Item)
    ensures Reachable(OneEntry(item)) && Enabled(OneEntry(item), Replace(0, 0, 0))
    ensures Step(OneEntry(item), Replace(0, 0, 0)).Fault?
  {
    OneEntryReachable(item);
    AssertionsHold(OneEntry(item), Replace(0, 0, 0));
  }

  lemma {:induction false} RunAppend(s: State, ops: seq<Op>, mid: State, op: Op)
    requires Runs(s, ops, mid) && Enabled(mid, op) && Step(mid, op).Next?
    ensures Runs(s, ops + [op], Step(mid, op).state)
    decreases |ops|
  {
    hide Step, Enabled;
    if ops == [] {
      assert ops + [op] == [op] && [op][1..] == [];
      assert Runs(Step(mid, op).state, [], Step(mid, op).state);
    } else {
      assert (ops + [op])[1..] == ops[1..] + [op];
      RunAppend(Step(s, ops[0]).state, ops[1..], mid, op);
    }
  }

  lemma ReachableStep(s: State, op: Op)
    requires Reachable(s) && Enabled(s, op) && Step(s, op).Next?
    ensures Reachable(Step(s, op).state)
  {
    hide Step, Enabled;
    var ops :| Runs(START, ops, s);
    RunAppend(START, ops, s, op);
  }

  /* So is inserting an existing descriptor over another one. */
  lemma InsertOverFaults(item: Item, other: Item) returns (s: State)
    requires other.id != item.id
    ensures Reachable(s) && Enabled(s, InstallAt(0, 0, true)) && Step(s, InstallAt(0, 0, true)).Fault?
  {
    hide Reachable;
    OneEntryReachable(item);
    var create := Create(0, [other]);
    assert Ids([other]) == [other.id];
    ReachableStep(OneEntry(item), create);
    s := Step(OneEntry(item), create).state;
    NewAllKnows(OneEntry(item).table, [other.id], item.id);
    assert NewAll(OneEntry(item).table, [other.id]) == New(NewAll(OneEntry(item).table, []), other.id);
    AssertionsHold(s, InstallAt(0, 0, true));
  }

  // The object has existed at some time.
  predicate Known(t: Table, o: nat) {
    o in t.counts || o in t.closed
  }

  lemma {:induction false} AcquireAllKnows(t: Table, os: seq<nat>)
    ensures var r := AcquireAll(t, os);
            r.Some? ==> r.value.counts.Keys == t.counts.Keys && r.value.closed == t.closed && r.value.slots == t.slots
    decreases |os|
  {
    if os != [] {
      AcquireAllKnows(t, os[..|os| - 1]);
    }
  }

  lemma {:induction false} AttachAllKnows(t: Table, fds: seq<nat>, items: seq<Item>)
    requires |fds| == |items|
    ensures var r := AttachAll(t, fds, items); r.Some? ==> r.value.counts == t.counts && r.value.closed == t.closed
    decreases |fds|
  {
    if fds != [] {
      var r := Attach(t, fds[0], items[0].id, items[0].grant);
      if r.Some? {
        AttachAllKnows(r.value, fds[1..], items[1..]);
      }
    }
  }

  lemma {:induction false} NewAllKnows(t: Table, ids: seq<nat>, o: nat)
    requires Known(t, o)
    ensures Known(NewAll(t, ids), o)
    decreases |ids|
  {
    if ids != [] {
      NewAllKnows(t, ids[..|ids| - 1], o);
    }
  }

  lemma {:induction false} NewAllSlots(t: Table, ids: seq<nat>)
    ensures NewAll(t, ids).slots == t.slots
    decreases |ids|
  {
    if ids != [] {
      NewAllSlots(t, ids[..|ids| - 1]);
    }
  }

  lemma StepKnows(s: State, op: Op, o: nat)
    requires Enabled(s, op) && Step(s, op).Next? && Known(s.table, o)
    ensures Known(Step(s, op).state.table, o)
  {
    match op
    case Get(t, fd, need) => AcquireAllKnows(s.table, Fetched(s.table, fd, need));
    case Poll(t, fds, need) => AcquireAllKnows(s.table, PollFetched(s.table, fds, need));
    case Send(t, fds, bare) => AcquireAllKnows(s.table, SendFetched(s.table, fds, bare));
    case Create(t, items) => NewAllKnows(s.table, Ids(items), o);
    case Install(t, slots, memory) => AttachAllKnows(Grow(s.table, 0, |slots|), slots, s.threads[t].items);
    case InstallAt(t, slot, memory) => AttachAllKnows(Grow(s.table, slot, 1), [slot], s.threads[t].items);
    case _ =>
  }

  lemma {:induction false} RunKnows(s: State, ops: seq<Op>, end: State, o: nat)
    requires Runs(s, ops, end) && Known(s.table, o)
    ensures Known(end.table, o)
    decreases |ops|
  {
    hide Step, Enabled, Known;
    if ops != [] {
      StepKnows(s, ops[0], o);
      RunKnows(Step(s, ops[0]).state, ops[1..], end, o);
    }
  }

  /* Whatever happens after an object came into being, it has been cleaned up once if
     no entry and no call in progress refers to it any more, and not at all otherwise. */
  lemma CleanedUpOnce(s: State, ops: seq<Op>, end: State, o: nat)
    requires Reachable(s) && o in s.table.counts && Runs(s, ops, end)
    ensures end.table.closed[o] ==
            if o in Objects(end.table.slots) || o in Held(end.threads) then 0 else 1
  {
    ReachableInv(s);
    RunKeeps(s, ops, end);
    RunKnows(s, ops, end, o);
    assert Count(end.table, o) == Objects(end.table.slots)[o] + Held(end.threads)[o];
  }
}
