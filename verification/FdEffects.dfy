/**
 What every step on the descriptor table leaves behind, entry by entry, and how long
 an entry stays.
 */
module FdEffects {
  import opened FdTables
  import opened FdRuns
  import opened FdTheorems

  // A descriptor is in use.
  predicate Valid(s: State, fd: nat) {
    fd < |s.table.slots| && s.table.slots[fd].Used?
  }

  // The rights of a valid descriptor.
  function Rights(s: State, fd: nat): Grant
    requires Valid(s, fd)
  {
    s.table.slots[fd].grant
  }

  /* Closing empties the entry, and leaves its reference to the call. */
  lemma CloseEffect(s: State, t: nat, fd: nat)
    requires StateInv(s) && Enabled(s, Close(t, fd))
    ensures var r := Step(s, Close(t, fd));
            && r.Next?
            && (!Valid(s, fd) ==> r.state == s)
            && (Valid(s, fd) ==>
                  && r.state.table.slots == s.table.slots[fd := Free] && r.state.table.used + 1 == s.table.used
                  && r.state.table.counts == s.table.counts && r.state.table.closed == s.table.closed
                  && r.state.threads == s.threads[t := Busy([s.table.slots[fd].id])])
  {
    hide StateInv;
    CloseKeeps(s, t, fd);
  }

  lemma ReplacedTable(t: Table, from: nat, to: nat)
    requires from < |t.slots| && t.slots[from].Used? && from != to
    requires Detach(t, to).Some? && Acquire(Detach(t, to).value, t.slots[from].id).Some?
    requires var x := t.slots[from]; Attach(Acquire(Detach(t, to).value, x.id).value, to, x.id, x.grant).Some?
    ensures var x := t.slots[from];
            var r := Attach(Acquire(Detach(t, to).value, x.id).value, to, x.id, x.grant).value;
            && r.slots == t.slots[to := x] && r.used == t.used && r.closed == t.closed
            && r.counts == t.counts[x.id := Count(t, x.id) + 1]
  {
    assert t.slots[to := Free][to := t.slots[from]] == t.slots[to := t.slots[from]];
  }

  /* Replacing makes the one entry a copy of the other, with all its rights, and leaves
     the reference of the replaced one to the call. */
  lemma ReplaceEffect(s: State, t: nat, from: nat, to: nat)
    requires StateInv(s) && Enabled(s, Replace(t, from, to))
    ensures !Valid(s, from) || !Valid(s, to) ==> Step(s, Replace(t, from, to)) == Next(s)
    ensures Valid(s, from) && Valid(s, to) && from != to ==>
              var r := Step(s, Replace(t, from, to));
              var (slots, x) := (s.table.slots, s.table.slots[from]);
              && r.Next? && r.state.table.slots == slots[to := Used(x.id, x.grant)]
              && r.state.table.used == s.table.used && r.state.table.closed == s.table.closed
              && r.state.table.counts == s.table.counts[x.id := Count(s.table, x.id) + 1]
              && r.state.threads == s.threads[t := Busy([slots[to].id])]
  {
    hide StateInv, Detach, Acquire, Attach;
    ReplaceKeeps(s, t, from, to);
    if Valid(s, from) && Valid(s, to) && from != to {
      DetachedFrom(s.table, from, to);
      ReplacedTable(s.table, from, to);
    }
  }

  // Detaching one entry does not touch another.
  lemma DetachedFrom(t: Table, from: nat, to: nat)
    requires Detach(t, to).Some? && from != to && from < |t.slots|
    ensures |Detach(t, to).value.slots| == |t.slots| && Detach(t, to).value.slots[from] == t.slots[from]
  {
  }

  lemma CopiedTable(t: Table, id: nat, g: Grant, slot: nat)
    requires Acquire(Grow(t, 0, 1), id).Some? && Attach(Acquire(Grow(t, 0, 1), id).value, slot, id, g).Some?
    ensures var r := Attach(Acquire(Grow(t, 0, 1), id).value, slot, id, g).value;
            Copied(t.slots, r.slots, [slot], [Item(id, g)]) && r.used == t.used + 1 && r.closed == t.closed
  {
    assert [slot][0] == slot && [Item(id, g)][0] == Item(id, g);
    assert forall j :: j != slot ==> j !in [slot];
  }

  /* Duplicating puts a copy of the entry, with all its rights, at the slot picked; no
     other entry changes, whether the table grows or not. */
  lemma DupEffect(s: State, t: nat, fd: nat, slot: nat, memory: bool)
    requires StateInv(s) && Enabled(s, Dup(t, fd, slot, memory))
    ensures var r := Step(s, Dup(t, fd, slot, memory));
            var full := |s.table.slots| == 0 || |s.table.slots| < (s.table.used + 1) * 2;
            && r.Next?
            && (!Valid(s, fd) || (full && !memory) ==> r.state == s)
            && (Valid(s, fd) && (memory || !full) ==>
                  && Copied(s.table.slots, r.state.table.slots, [slot], [Item(s.table.slots[fd].id, Rights(s, fd))])
                  && r.state.table.used == s.table.used + 1 && r.state.threads == s.threads)
  {
    hide StateInv, Acquire, Attach, Grow, Copied;
    DupKeeps(s, t, fd, slot, memory);
    if Valid(s, fd) && (memory || !Full(|s.table.slots|, s.table.used, 0, 1)) {
      CopiedTable(s.table, s.table.slots[fd].id, s.table.slots[fd].grant, slot);
      assert s.threads[t := Busy([])] == s.threads;
    }
  }

  // The slots hold the items at the places, and otherwise what they held, or nothing.
  ghost predicate Copied(before: seq<Slot>, after: seq<Slot>, places: seq<nat>, items: seq<Item>) {
    && |places| == |items| && |before| <= |after|
    && (forall i :: 0 <= i < |places| ==> places[i] < |after| && after[places[i]] == Used(items[i].id, items[i].grant))
    && (forall j :: 0 <= j < |after| && j !in places ==> after[j] == if j < |before| then before[j] else Free)
  }

  /* Restricting stores the new rights if they are within the old ones, and otherwise
     changes nothing. */
  lemma PutRightsEffect(s: State, t: nat, fd: nat, g: Grant)
    requires Enabled(s, PutRights(t, fd, g))
    ensures var r := Step(s, PutRights(t, fd, g));
            var ok := Valid(s, fd) && g.base <= Rights(s, fd).base && g.inheriting <= Rights(s, fd).inheriting;
            && r.Next? && r.state.threads == s.threads
            && (ok ==> r.state.table == s.table.(slots := s.table.slots[fd := Used(s.table.slots[fd].id, g)]))
            && (!ok ==> r.state.table == s.table)
  {
  }

  lemma {:induction false} AttachAllPlaces(t: Table, fds: seq<nat>, items: seq<Item>)
    requires |fds| == |items| && AllFree(t.slots, fds) && |t.slots| >= (t.used + |items|) * 2
    ensures var r := AttachAll(t, fds, items);
            r.Some? && r.value.used == t.used + |items| && Copied(t.slots, r.value.slots, fds, items)
            && r.value.counts == t.counts && r.value.closed == t.closed
    decreases |fds|
  {
    if fds != [] {
      var t' := Attach(t, fds[0], items[0].id, items[0].grant).value;
      assert AllFree(t'.slots, fds[1..]);
      AttachAllPlaces(t', fds[1..], items[1..]);
      var r := AttachAll(t', fds[1..], items[1..]).value;
      assert fds == [fds[0]] + fds[1..];
      assert fds[0] !in fds[1..];
      forall i | 0 <= i < |fds| ensures fds[i] < |r.slots| && r.slots[fds[i]] == Used(items[i].id, items[i].grant) {
        if i > 0 {
          assert fds[i] == fds[1..][i - 1] && items[i] == items[1..][i - 1];
        }
      }
    }
  }

  /* Installing puts every new object, with exactly the rights it comes with, at the slot
     picked for it; no other entry changes. Without memory nothing is installed. */
  lemma InstallEffect(s: State, t: nat, slots: seq<nat>, memory: bool)
    requires StateInv(s) && Enabled(s, Install(t, slots, memory))
    ensures var r := Step(s, Install(t, slots, memory));
            var items := s.threads[t].items;
            var full := |s.table.slots| == 0 || |s.table.slots| < (s.table.used + |items|) * 2;
            && r.Next?
            && (full && !memory ==> r.state.table == s.table && r.state.threads == s.threads[t := Busy(Ids(items))])
            && (memory || !full ==>
                  && Copied(s.table.slots, r.state.table.slots, slots, items)
                  && r.state.table.used == s.table.used + |items| && r.state.threads == s.threads[t := Busy([])])
  {
    hide StateInv;
    InstallKeeps(s, t, 0, slots, memory);
    AttachAllPlaces(Grow(s.table, 0, |slots|), slots, s.threads[t].items);
  }

  /* The same for an existing descriptor at a given place. */
  lemma InstallAtEffect(s: State, t: nat, slot: nat, memory: bool)
    requires StateInv(s) && Enabled(s, InstallAt(t, slot, memory)) && Step(s, InstallAt(t, slot, memory)).Next?
    ensures var r := Step(s, InstallAt(t, slot, memory)).state;
            var items := s.threads[t].items;
            var full := |s.table.slots| <= slot || |s.table.slots| < (s.table.used + 1) * 2;
            && (full && !memory ==> r.table == s.table && r.threads == s.threads[t := Busy(Ids(items))])
            && (memory || !full ==>
                  && Copied(s.table.slots, r.table.slots, [slot], items)
                  && r.table.used == s.table.used + 1 && r.threads == s.threads[t := Busy([])])
  {
    hide StateInv, AttachAll, Attach;
    var items := s.threads[t].items;
    if memory || !Full(|s.table.slots|, s.table.used, slot, 1) {
      assert items == [items[0]];
      AttachOne(Grow(s.table, slot, 1), slot, items[0]);
      AttachUsed(Grow(s.table, slot, 1), slot, items[0]);
      assert forall j :: j != slot ==> j !in [slot];
    }
  }

  lemma AttachUsed(t: Table, slot: nat, item: Item)
    ensures Attach(t, slot, item.id, item.grant).Some? ==>
              Attach(t, slot, item.id, item.grant).value.used == t.used + 1
  {
  }

  /* New objects have one reference each, held by the call that is to install them. */
  lemma CreateEffect(s: State, t: nat, items: seq<Item>, o: nat)
    requires StateInv(s) && Enabled(s, Create(t, items))
    ensures var r := Step(s, Create(t, items));
            && r.Next? && r.state.table.slots == s.table.slots && r.state.threads == s.threads[t := Installing(items)]
            && Count(r.state.table, o) == Count(s.table, o) + multiset(Ids(items))[o]
  {
    hide StateInv, Inv, Others, NewAll, Count, Ids;
    NewAllSlots(s.table, Ids(items));
    Apart(s, t);
    AllNew(s.table, items);
    NewAllKeeps(s.table, Ids(items), Others(s.threads, t));
    CountBoth(s.table, NewAll(s.table, Ids(items)), Others(s.threads, t), multiset(Ids(items)), o);
  }

  lemma AllNew(t: Table, items: seq<Item>)
    requires forall i :: 0 <= i < |items| ==> IsNew(t, items[i].id)
    ensures forall i :: 0 <= i < |Ids(items)| ==> IsNew(t, Ids(items)[i])
  {
  }

  lemma CountBoth(t: Table, t': Table, held: multiset<nat>, more: multiset<nat>, o: nat)
    requires Inv(t, held) && Inv(t', held + more) && t'.slots == t.slots
    ensures Count(t', o) == Count(t, o) + more[o]
  {
    assert (held + more)[o] == held[o] + more[o];
  }

  // ---------- Opening ----------

  // The request is for a descriptor to write with.
  predicate Writes(asked: Grant) {
    FdDatasync in asked.base || FdWrite in asked.base || FileAllocate in asked.base || FileStatFputSize in asked.base
  }

  // The rights of a directory allow opening something below it.
  ghost predicate MayOpen(dir: Grant, asked: Grant, flags: set<Flag>) {
    && FileOpen in dir.base
    && (Creat in flags ==> FileCreateFile in dir.base)
    && (forall r :: r in asked.base + asked.inheriting ==> r in dir.inheriting)
    && (Trunc in flags ==> FileStatFputSize in dir.inheriting)
    && (Dsync in flags ==> FdDatasync in dir.inheriting)
    && (Rsync in flags || Sync in flags ==> FdSync in dir.inheriting)
    && (Writes(asked) && Append !in flags && Trunc !in flags ==> FdSeek in dir.inheriting)
  }

  lemma WritesIff(asked: Grant)
    ensures asked.base * {FdDatasync, FdWrite, FileAllocate, FileStatFputSize} != {} <==> Writes(asked)
  {
    var all := asked.base * {FdDatasync, FdWrite, FileAllocate, FileStatFputSize};
    if Writes(asked) {
      var r :| r in {FdDatasync, FdWrite, FileAllocate, FileStatFputSize} && r in asked.base;
      assert r in all;
    } else {
      assert forall r :: r !in all;
    }
  }

  lemma NeededIff(dir: Grant, asked: Grant, flags: set<Flag>)
    ensures Within(Needed(asked, flags), dir) <==> MayOpen(dir, asked, flags)
  {
    WritesIff(asked);
    var need := Needed(asked, flags);
    if MayOpen(dir, asked, flags) {
      assert forall r :: r in need.base ==> r in dir.base;
      assert forall r :: r in need.inheriting ==> r in dir.inheriting;
    }
    if Within(need, dir) {
      assert FileOpen in need.base && (Creat in flags ==> FileCreateFile in need.base);
      assert forall r :: r in asked.base || r in asked.inheriting ==> r in need.inheriting;
      assert Trunc in flags ==> FileStatFputSize in need.inheriting;
      assert Dsync in flags ==> FdDatasync in need.inheriting;
      assert Rsync in flags || Sync in flags ==> FdSync in need.inheriting;
      assert Writes(asked) && Append !in flags && Trunc !in flags ==> FdSeek in need.inheriting;
    }
  }

  /* Opening gets past its rights check exactly if the directory is valid and has every
     right that the request and its flags ask for; otherwise nothing changes. */
  lemma OpenEffect(s: State, t: nat, fd: nat, asked: Grant, flags: set<Flag>)
    requires StateInv(s) && Enabled(s, OpenCheck(t, fd, asked, flags))
    ensures var r := Step(s, OpenCheck(t, fd, asked, flags));
            && r.Next?
            && (Valid(s, fd) && MayOpen(Rights(s, fd), asked, flags) ==>
                  && r.state.threads == s.threads[t := Opening([s.table.slots[fd].id], asked)]
                  && r.state.table.slots == s.table.slots)
            && (!Valid(s, fd) || !MayOpen(Rights(s, fd), asked, flags) ==> r.state == s)
  {
    hide StateInv, Needed, MayOpen;
    OpenKeeps(s, t, fd, asked, flags);
    if Valid(s, fd) {
      NeededIff(Rights(s, fd), asked, flags);
    }
  }

  /* The new object is to be installed with exactly those of the rights asked for that
     its type allows. */
  lemma OpenDoneEffect(s: State, t: nat, id: nat, limit: Grant)
    requires Enabled(s, OpenDone(t, id, limit))
    ensures var r := Step(s, OpenDone(t, id, limit));
            && r.Next? && r.state.table == s.table.(counts := s.table.counts[id := 1])
            && r.state.threads[t].Installing? && |r.state.threads[t].items| == 1
            && var (item, asked) := (r.state.threads[t].items[0], s.threads[t].asked);
            && item.id == id
            && (forall x :: x in item.grant.base <==> x in asked.base && x in limit.base)
            && (forall x :: x in item.grant.inheriting <==> x in asked.inheriting && x in limit.inheriting)
  {
  }

  // ---------- Taking references ----------

  /* A look-up adds exactly one reference, to the object of the descriptor, to those that
     the thread holds, if the descriptor is valid and has the rights needed. */
  lemma GetEffect(s: State, t: nat, fd: nat, need: Grant)
    requires StateInv(s) && Enabled(s, Get(t, fd, need))
    ensures var r := Step(s, Get(t, fd, need));
            var ok := Valid(s, fd) && need.base <= Rights(s, fd).base && need.inheriting <= Rights(s, fd).inheriting;
            && r.Next?
            && (!ok ==> r.state == s)
            && (ok ==>
                  var (id, held) := (s.table.slots[fd].id, s.threads[t].held);
                  && r.state.threads == s.threads[t := Busy(held + [id])]
                  && r.state.table == s.table.(counts := s.table.counts[id := Count(s.table, id) + 1]))
  {
    hide StateInv;
    TakeStepKeeps(s, Get(t, fd, need));
    var held := s.threads[t].held;
    assert held + [] == held && s.threads[t := Busy(held)] == s.threads;
    if Valid(s, fd) {
      assert AcquireAll(s.table, [s.table.slots[fd].id][..0]) == Some(s.table);
    }
  }

  /* After the step of poll the thread holds a reference to the object of every valid
     descriptor that it named with the rights needed, once for each time it is named. */
  lemma PollEffect(s: State, t: nat, fds: seq<nat>, need: Grant, o: nat)
    requires StateInv(s) && Enabled(s, Poll(t, fds, need))
    ensures var r := Step(s, Poll(t, fds, need));
            && r.Next? && r.state.table.slots == s.table.slots && r.state.threads[t].Busy?
            && multiset(r.state.threads[t].held)[o] == |Naming(s.table.slots, fds, need, o)|
            && Count(r.state.table, o) == Count(s.table, o) + |Naming(s.table.slots, fds, need, o)|
  {
    hide StateInv, Inv, Held, PollFetched, AcquireAll, Naming, Count;
    TakeStepKeeps(s, Poll(t, fds, need));
    AcquireAllKnows(s.table, PollFetched(s.table, fds, need));
    PollFetchedCounts(s.table, fds, need, o);
    Tabled(s);
    PollCounts(s.table, fds, need, Held(s.threads), o);
    assert [] + PollFetched(s.table, fds, need) == PollFetched(s.table, fds, need);
  }

  /* After the step of sock_send the thread holds a reference for every descriptor up to
     where it stops. */
  lemma SendEffect(s: State, t: nat, fds: seq<nat>, bare: set<nat>)
    requires StateInv(s) && Enabled(s, Send(t, fds, bare))
    ensures var r := Step(s, Send(t, fds, bare));
            && r.Next? && r.state.table.slots == s.table.slots && r.state.threads[t].Busy?
            && SendStops(s.table.slots, fds, bare, r.state.threads[t].held)
  {
    hide StateInv, Inv, Held, SendFetched, AcquireAll, SendStops;
    TakeStepKeeps(s, Send(t, fds, bare));
    AcquireAllKnows(s.table, SendFetched(s.table, fds, bare));
    SendFetchedStops(s.table, fds, bare);
    assert [] + SendFetched(s.table, fds, bare) == SendFetched(s.table, fds, bare);
  }

  // ---------- How long an entry stays ----------

  // The step makes another descriptor of this one, or none.
  predicate Ends(op: Op, fd: nat) {
    (op.Close? && op.fd == fd) || (op.Replace? && op.to == fd)
  }

  predicate Restricts(op: Op, fd: nat) {
    op.PutRights? && op.fd == fd
  }

  // The entry is for the same object, with no more rights.
  predicate Remains(x: Slot, y: Slot) {
    x.Used? && y.Used? && y.id == x.id && Within(y.grant, x.grant)
  }

  // Steps that leave every entry as it is.
  predicate KeepsSlots(op: Op) {
    || op.Spawn? || op.Get? || op.Poll? || op.Send? || op.Put? || op.Create?
    || op.OpenCheck? || op.OpenFail? || op.OpenDone?
  }

  lemma StepKeepsSlots(s: State, op: Op)
    requires Enabled(s, op) && Step(s, op).Next? && KeepsSlots(op)
    ensures Step(s, op).state.table.slots == s.table.slots
  {
    hide Needed, PollFetched, SendFetched, NewAll, AcquireAll;
    match op
    case Get(t, k, need) => AcquireAllKnows(s.table, Fetched(s.table, k, need));
    case Poll(t, fds, need) => AcquireAllKnows(s.table, PollFetched(s.table, fds, need));
    case Send(t, fds, bare) => AcquireAllKnows(s.table, SendFetched(s.table, fds, bare));
    case Create(t, items) => NewAllSlots(s.table, Ids(items));
    case _ =>
  }

  lemma StepRemains(s: State, op: Op, fd: nat)
    requires StateInv(s) && Enabled(s, op) && Step(s, op).Next? && Valid(s, fd) && !Ends(op, fd)
    ensures Valid(Step(s, op).state, fd)
    ensures Remains(s.table.slots[fd], Step(s, op).state.table.slots[fd])
    ensures !Restricts(op, fd) ==> Step(s, op).state.table.slots[fd] == s.table.slots[fd]
  {
    hide StateInv, Step, Enabled;
    if KeepsSlots(op) {
      StepKeepsSlots(s, op);
    } else {
      match op
      case Close(t, k) => CloseEffect(s, t, k);
      case Replace(t, from, to) => ReplaceRemains(s, op, fd);
      case PutRights(t, k, g) => PutRightsEffect(s, t, k, g);
      case Dup(t, k, slot, memory) => DupRemains(s, t, k, slot, memory, fd);
      case Install(t, slots, memory) => InstallRemains(s, t, slots, memory, fd);
      case InstallAt(t, slot, memory) => InstallAtRemains(s, t, slot, memory, fd);
    }
  }

  lemma ReplaceRemains(s: State, op: Op, fd: nat)
    requires StateInv(s) && Enabled(s, op) && op.Replace? && Step(s, op).Next? && Valid(s, fd) && op.to != fd
    ensures Valid(Step(s, op).state, fd) && Step(s, op).state.table.slots[fd] == s.table.slots[fd]
  {
    hide StateInv, Enabled;
    ReplaceEffect(s, op.t, op.from, op.to) by { hide Step; }
    ReplaceKeeps(s, op.t, op.from, op.to) by { IdleReplacer(s, op); }
  }

  lemma IdleReplacer(s: State, op: Op)
    requires Enabled(s, op) && op.Replace?
    ensures op.t < |s.threads| && Idle(s.threads[op.t])
  {
  }

  lemma DupRemains(s: State, t: nat, k: nat, slot: nat, memory: bool, fd: nat)
    requires StateInv(s) && Enabled(s, Dup(t, k, slot, memory)) && Valid(s, fd)
    ensures var r := Step(s, Dup(t, k, slot, memory));
            r.Next? && Valid(r.state, fd) && r.state.table.slots[fd] == s.table.slots[fd]
  {
    hide StateInv, Step;
    DupEffect(s, t, k, slot, memory);
    var grown := Grow(s.table, 0, 1).slots;
    assert [slot][0] == slot && grown[slot].Free? && grown[fd] == s.table.slots[fd];
    assert fd !in [slot];
  }

  lemma InstallRemains(s: State, t: nat, slots: seq<nat>, memory: bool, fd: nat)
    requires StateInv(s) && Enabled(s, Install(t, slots, memory)) && Valid(s, fd)
    ensures var r := Step(s, Install(t, slots, memory));
            r.Next? && Valid(r.state, fd) && r.state.table.slots[fd] == s.table.slots[fd]
  {
    hide StateInv, Step;
    InstallEffect(s, t, slots, memory);
    assert Grow(s.table, 0, |slots|).slots[fd] == s.table.slots[fd];
    assert fd !in slots;
  }

  lemma InstallAtRemains(s: State, t: nat, slot: nat, memory: bool, fd: nat)
    requires StateInv(s) && Enabled(s, InstallAt(t, slot, memory)) && Step(s, InstallAt(t, slot, memory)).Next?
    requires Valid(s, fd)
    ensures var r := Step(s, InstallAt(t, slot, memory)).state;
            Valid(r, fd) && r.table.slots[fd] == s.table.slots[fd]
  {
    hide StateInv, AttachAll, Attach;
    var items := s.threads[t].items;
    if memory || !Full(|s.table.slots|, s.table.used, slot, 1) {
      AttachOne(Grow(s.table, slot, 1), slot, items[0]);
      assert items == [items[0]];
      assert Grow(s.table, slot, 1).slots[fd] == s.table.slots[fd];
    }
  }

  lemma AttachOne(t: Table, slot: nat, item: Item)
    ensures AttachAll(t, [slot], [item]) == Attach(t, slot, item.id, item.grant)
    ensures Attach(t, slot, item.id, item.grant).Some? ==>
              && slot < |t.slots| && t.slots[slot].Free?
              && Attach(t, slot, item.id, item.grant).value.slots == t.slots[slot := Used(item.id, item.grant)]
  {
    var r := Attach(t, slot, item.id, item.grant);
    assert [slot][1..] == [] && [item][1..] == [];
    assert r.Some? ==> AttachAll(r.value, [slot][1..], [item][1..]) == r;
  }

  /* An entry stays until it is closed or replaced. It is for the same object, has no
     right beyond those it has now, and loses none unless it is restricted. */
  lemma {:induction false} EntryLasts(s: State, ops: seq<Op>, end: State, fd: nat)
    requires StateInv(s) && Runs(s, ops, end) && Valid(s, fd)
    requires forall op :: op in ops ==> !Ends(op, fd)
    ensures Valid(end, fd) && Remains(s.table.slots[fd], end.table.slots[fd])
    ensures (forall op :: op in ops ==> !Restricts(op, fd)) ==> end.table.slots[fd] == s.table.slots[fd]
    decreases |ops|
  {
    hide StateInv, Step, Enabled, Ends, Restricts;
    if ops != [] {
      assert ops[0] in ops && forall op :: op in ops[1..] ==> op in ops;
      StepKeeps(s, ops[0]);
      StepRemains(s, ops[0], fd);
      EntryLasts(Step(s, ops[0]).state, ops[1..], end, fd);
    }
  }

  /* Over runs: after rights were put on a descriptor, and until it is closed or replaced,
     a right outside of them is not on it. */
  lemma PutRightsLast(s: State, t: nat, fd: nat, g: Grant, ops: seq<Op>, end: State, right: Right)
    requires Reachable(s) && Enabled(s, PutRights(t, fd, g)) && Valid(s, fd) && Within(g, Rights(s, fd))
    requires Runs(Step(s, PutRights(t, fd, g)).state, ops, end) && forall op :: op in ops ==> !Ends(op, fd)
    ensures Valid(end, fd) && end.table.slots[fd].id == s.table.slots[fd].id
    ensures right !in g.base ==> right !in Rights(end, fd).base
    ensures right !in g.inheriting ==> right !in Rights(end, fd).inheriting
  {
    hide StateInv, Step, Enabled, Ends, Reachable;
    ReachableInv(s);
    PutRightsEffect(s, t, fd, g);
    StepKeeps(s, PutRights(t, fd, g));
    EntryLasts(Step(s, PutRights(t, fd, g)).state, ops, end, fd);
  }
}
