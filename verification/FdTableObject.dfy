/**
 The descriptor table as the object that the source updates in place: an array of
 entries that is reallocated when it grows, the number of used entries, and the
 reference counts. Every method is proved against the function of the table's
 value that the run theorems are about.
 */
module FdTableObject {
  import Random = RandomUniform
  import opened FdTables
  import opened FdRuns

  class FdTable {
    var entries: array<Slot>
    var used: nat
    var counts: map<nat, nat>
    var closed: multiset<nat>

    function View(): Table
      reads this, entries
    {
      Table(entries[..], used, counts, closed)
    }

    constructor ()
      ensures View() == EMPTY && Inv(View(), multiset{}) && fresh(entries)
    {
      entries := new Slot[0];
      used, counts, closed := 0, map[], multiset{};
    }

    method GetEntry(fd: nat, need: Grant) returns (error: Errno)
      ensures error == Access(entries[..], fd, need)
      ensures error in {Success, EBADF, ENOTCAPABLE}
      ensures error != EBADF <==> fd < entries.Length && entries[fd].Used?
      ensures error == Success <==>
              && fd < entries.Length && entries[fd].Used?
              && need.base <= entries[fd].grant.base && need.inheriting <= entries[fd].grant.inheriting
    {
      if fd >= entries.Length {
        return EBADF;
      }
      match entries[fd]
      case Free => return EBADF;
      case Used(_, grant) =>
        if need.base - grant.base != {} || need.inheriting - grant.inheriting != {} {
          assert !Within(need, grant);
          return ENOTCAPABLE;
        }
        assert forall r :: r in need.base ==> r !in need.base - grant.base ==> r in grant.base;
        assert forall r :: r in need.inheriting ==> r !in need.inheriting - grant.inheriting ==> r in grant.inheriting;
        return Success;
    }

    method Grow(min: nat, incr: nat, memory: bool) returns (ok: bool)
      modifies this`entries
      ensures ok <==> memory || !Full(old(entries.Length), used, min, incr)
      ensures View() == if ok then FdTables.Grow(old(View()), min, incr) else old(View())
      ensures entries == old(entries) || fresh(entries)
      ensures entries == old(entries) <==> !ok || !Full(old(entries.Length), used, min, incr)
    {
      if entries.Length <= min || entries.Length < (used + incr) * 2 {
        var size := if entries.Length == 0 then 1 else entries.Length;
        ghost var first := size;
        while size <= min || size < (used + incr) * 2
          invariant size >= first > 0 && entries == old(entries)
          invariant Doubled(size, used, min, incr) == Doubled(first, used, min, incr)
          decreases min + (used + incr) * 2 - size
        {
          size := size * 2;
        }
        if !memory {
          return false;
        }
        var bigger := new Slot[size](_ => Free);
        var i := 0;
        while i < entries.Length
          invariant entries == old(entries) && 0 <= i <= entries.Length <= bigger.Length == size
          invariant bigger[..i] == entries[..i]
          invariant forall j :: i <= j < size ==> bigger[j] == Free
        {
          bigger[i] := entries[i];
          i := i + 1;
        }
        GrownIs(entries[..], used, min, incr, bigger[..]);
        entries := bigger;
      }
      return true;
    }

    method Attach(fd: nat, id: nat, grant: Grant)
      requires FdTables.Attach(View(), fd, id, grant).Some?
      modifies this`used, entries
      ensures View() == FdTables.Attach(old(View()), fd, id, grant).value
      ensures entries[..] == old(entries[..])[fd := Used(id, grant)] && used == old(used) + 1
    {
      assert entries.Length > fd;
      assert entries[fd].Free?;
      entries[fd] := Used(id, grant);
      used := used + 1;
      assert entries.Length >= used * 2;
    }

    method Detach(fd: nat) returns (id: nat)
      requires FdTables.Detach(View(), fd).Some?
      modifies this`used, entries
      ensures View() == FdTables.Detach(old(View()), fd).value && id == old(entries[fd].id)
      ensures entries[..] == old(entries[..])[fd := Free] && used == old(used) - 1
    {
      assert entries.Length > fd;
      id := entries[fd].id;
      entries[fd] := Free;
      assert used > 0;
      used := used - 1;
    }

    method Acquire(id: nat)
      requires id in counts
      modifies this`counts
      ensures View() == FdTables.Acquire(old(View()), id).value
      ensures counts == old(counts)[id := old(counts)[id] + 1]
    {
      counts := counts[id := counts[id] + 1];
    }

    /* fd_object_release of a reference that the caller holds: it was counted, the
       others still are, and the object is cleaned up exactly if there are no others,
       in the table or held by anybody. */
    method Release(id: nat, ghost held: multiset<nat>)
      requires Inv(View(), held) && id in held
      modifies this`counts, this`closed
      ensures Inv(View(), held - multiset{id}) && entries[..] == old(entries[..])
      ensures id in closed <==> id !in Objects(entries[..]) && held[id] == 1
      ensures Some(View()) == FdTables.Release(old(View()), id)
    {
      hide Inv;
      ReleaseKeeps(View(), id, held);
      var was := counts[id];
      assert was != 0;
      if was == 1 {
        counts, closed := counts - {id}, closed + multiset{id};
      } else {
        counts := counts[id := was - 1];
      }
    }

    /* fd_table_unused on a supply of random words: the first accepted word that
       names a free slot decides; None when the supply runs out before. */
    method Unused(words: seq<nat>) returns (fd: Maybe<nat>)
      requires used < entries.Length < Random.WORDS
      requires forall i :: 0 <= i < |words| ==> words[i] < Random.WORDS
      ensures fd.Some? ==> fd.value < entries.Length && entries[fd.value].Free?
      ensures fd.Some? ==> exists k :: 0 <= k < |words|
                                       && words[k] >= Random.Threshold(entries.Length)
                                       && Random.Mod(words[k], entries.Length) == fd.value
                                       && forall i :: 0 <= i < k ==> Misses(words[i])
      ensures fd.None? ==> forall i :: 0 <= i < |words| ==> Misses(words[i])
    {
      var from := 0;
      while from < |words|
        invariant 0 <= from <= |words|
        invariant forall i :: 0 <= i < from ==> Misses(words[i])
      {
        var d := Random.RandomUniform(entries.Length, words[from..]);
        match d {
          case Exhausted =>
            assert forall i :: from <= i < |words| ==> words[i] == words[from..][i - from];
            return None;
          case Drawn(value, n) =>
            var k := from + n - 1;
            assert words[from..][n - 1] == words[k];
            assert forall i :: from <= i < k ==> words[i] == words[from..][i - from];
            if entries[value].Free? {
              return Some(value);
            }
            from := k + 1;
        }
      }
      return None;
    }

    // A random word that does not decide: rejected, or for a slot in use.
    predicate Misses(word: nat)
      requires 0 < entries.Length < Random.WORDS
      reads this, entries
    {
      word < Random.Threshold(entries.Length) || entries[Random.Mod(word, entries.Length)].Used?
    }

    // The rights case of sys_fd_stat_put.
    method PutRights(fd: nat, grant: Grant) returns (error: Errno)
      modifies entries
      ensures error == Access(old(entries[..]), fd, grant)
      ensures View() == Restrict(old(View()), fd, grant)
      ensures error == Success ==>
                fd < |old(entries[..])| && old(entries[..])[fd].Used?
                && entries[..] == old(entries[..])[fd := Used(old(entries[..])[fd].id, grant)]
      ensures error != Success ==> entries[..] == old(entries[..])
    {
      error := GetEntry(fd, grant);
      if error == Success {
        entries[fd] := entries[fd].(grant := grant);
      }
    }

    // The part of sys_fd_close under the lock; ids are the references left to release.
    method CloseLocked(fd: nat, ghost held: multiset<nat>) returns (error: Errno, ids: seq<nat>)
      requires Inv(View(), held)
      modifies this`used, entries
      ensures error == Access(old(entries[..]), fd, NOTHING)
      ensures CloseStep(Alone(old(View()), []), 0, fd) == Next(Alone(View(), ids))
      ensures error == Success ==>
                fd < |old(entries[..])| && old(entries[..])[fd].Used?
                && entries[..] == old(entries[..])[fd := Free] && ids == [old(entries[..])[fd].id]
      ensures error != Success ==> View() == old(View()) && ids == []
      ensures Inv(View(), held + multiset(ids))
    {
      hide Inv;
      ids := [];
      assert held + multiset(ids) == held;
      error := GetEntry(fd, NOTHING);
      if error == Success {
        DetachKeeps(View(), fd, held);
        var id := Detach(fd);
        ids := [id];
      }
    }

    method Close(fd: nat, ghost held: multiset<nat>) returns (error: Errno)
      requires Inv(View(), held)
      modifies this`used, this`counts, this`closed, entries
      ensures Inv(View(), held)
      ensures error == Access(old(entries[..]), fd, NOTHING)
      ensures entries[..] == if error == Success then old(entries[..])[fd := Free] else old(entries[..])
      ensures error != Success ==> View() == old(View())
    {
      hide Inv;
      ghost var was := View();
      var ids;
      error, ids := CloseLocked(fd, held);
      ghost var mid := View();
      ReleaseEach(ids, held + multiset(ids));
      assert held + multiset(ids) - multiset(ids) == held;
      ReleaseAllSlots(mid, ids);
    }

    /* The part of sys_fd_replace under the lock. The entry to copy is read after the
       other one was detached; it faults if there is none any more. */
    method ReplaceLocked(from: nat, to: nat, ghost held: multiset<nat>)
      returns (error: Errno, ids: seq<nat>, fault: bool)
      requires Inv(View(), held)
      modifies this`used, this`counts, entries
      ensures error == if Access(old(entries[..]), from, NOTHING) != Success
                       then Access(old(entries[..]), from, NOTHING) else Access(old(entries[..]), to, NOTHING)
      ensures fault <==> from == to && error == Success
      ensures ReplaceStep(Alone(old(View()), []), 0, from, to) == if fault then Fault else Next(Alone(View(), ids))
      ensures error == Success && !fault ==>
                && from < |old(entries[..])| && to < |old(entries[..])| && old(entries[..])[to].Used?
                && entries[..] == old(entries[..])[to := old(entries[..])[from]]
                && ids == [old(entries[..])[to].id] && used == old(used)
      ensures error != Success ==> View() == old(View()) && ids == []
      ensures !fault ==> Inv(View(), held + multiset(ids))
    {
      hide Inv;
      ids, fault := [], false;
      assert held + multiset(ids) == held;
      error := GetEntry(from, NOTHING);
      if error != Success {
        return;
      }
      error := GetEntry(to, NOTHING);
      if error != Success {
        return;
      }
      if from != to {
        ReplaceTable(View(), from, to, held);
      }
      DetachKeeps(View(), to, held);
      var id := Detach(to);
      if entries[from].Free? {
        fault := true;
        return;
      }
      Acquire(entries[from].id);
      Attach(to, entries[from].id, entries[from].grant);
      ids := [id];
    }

    /* sys_fd_dup. The entry is read through the array that was in place before the
       table grew, as the source does. That is still the table's array exactly if the
       table was large enough; otherwise the array was given to realloc, and stale is
       what is found in its memory. The descriptor is duplicated if the array is still
       the table's or its memory still holds the entry; otherwise the call faults if it
       finds no live object there, and makes an entry of what it finds if it does. */
    method Dup(fd: nat, slot: nat, memory: bool, stale: Slot, ghost held: multiset<nat>)
      returns (error: Errno, current: bool, fault: bool)
      requires Inv(View(), held) && AllFree(FdTables.Grow(View(), 0, 1).slots, [slot])
      modifies this`entries, this`used, this`counts, entries
      ensures error == if Access(old(entries[..]), fd, NOTHING) != Success then EBADF
                       else if Full(old(entries.Length), old(used), 0, 1) && !memory then ENOMEM else Success
      ensures error != Success ==> View() == old(View()) && !fault
      ensures error == Success ==> fd < |old(entries[..])| && (current <==> !Full(old(entries.Length), old(used), 0, 1))
      ensures error != Success || current || stale == old(entries[..])[fd] ==>
                !fault && DupStep(Alone(old(View()), []), 0, fd, slot, memory) == Next(Alone(View(), []))
      ensures error == Success && !fault ==>
                slot < entries.Length && entries[slot] == if current then old(entries[..])[fd] else stale
      ensures fault <==> error == Success && !current && (stale.Free? || stale.id !in old(counts))
      ensures !fault ==> Inv(View(), held)
    {
      hide Inv;
      ghost var was := View();
      current, fault := true, false;
      error := GetEntry(fd, NOTHING);
      if error != Success {
        return;
      }
      OneLive(was, fd, held);
      var table := entries;
      var ok := Grow(0, 1, memory);
      if !ok {
        return ENOMEM, current, fault;
      }
      current := table == entries;
      var entry := if current then table[fd] else stale;
      if entry.Free? || entry.id !in counts {
        return error, current, true;
      }
      CopyTable(was, entry.id, entry.grant, slot, held);
      Acquire(entry.id);
      Attach(slot, entry.id, entry.grant);
    }

    // fd_table_insert: the reference to the object passes to the table, or is released.
    method Insert(id: nat, grant: Grant, slot: nat, memory: bool, ghost held: multiset<nat>) returns (error: Errno)
      requires Inv(View(), held) && id in held && AllFree(FdTables.Grow(View(), 0, 1).slots, [slot])
      modifies this`entries, this`used, this`counts, this`closed, entries
      ensures Inv(View(), held - multiset{id})
      ensures error == if Full(old(entries.Length), old(used), 0, 1) && !memory then ENOMEM else Success
      ensures error == Success ==>
                && slot < entries.Length && entries[slot] == Used(id, grant) && used == old(used) + 1
                && (forall j :: 0 <= j < entries.Length && j != slot ==>
                      entries[j] == if j < |old(entries[..])| then old(entries[..])[j] else Free)
      ensures error == Success ==>
                Some(View()) == FdTables.Attach(FdTables.Grow(old(View()), 0, 1), slot, id, grant)
      ensures error != Success ==> Some(View()) == FdTables.Release(old(View()), id)
    {
      hide Inv;
      GrowKeeps(View(), 0, 1, held);
      var ok := Grow(0, 1, memory);
      assert [slot][0] == slot;
      if !ok {
        Release(id, held);
        return ENOMEM;
      }
      AttachKeeps(View(), slot, id, grant, held);
      Attach(slot, id, grant);
      return Success;
    }

    /* fd_object_get_locked: a reference to the object of a descriptor, or an error. */
    method GetLocked(fd: nat, need: Grant, ghost held: multiset<nat>) returns (error: Errno, ids: seq<nat>)
      requires Inv(View(), held)
      modifies this`counts
      ensures error == Access(entries[..], fd, need) && ids == Fetched(old(View()), fd, need)
      ensures error == Success ==> fd < entries.Length && entries[fd].Used? && ids == [entries[fd].id]
      ensures error != Success ==> ids == []
      ensures Inv(View(), held + multiset(ids)) && View().slots == old(View()).slots
      ensures Some(View()) == AcquireAll(old(View()), ids)
    {
      hide Inv;
      error := GetEntry(fd, need);
      ids := [];
      assert held + multiset(ids) == held;
      if error == Success {
        var id := entries[fd].id;
        FetchedLive(View(), fd, need, held);
        assert id in Fetched(View(), fd, need);
        AcquireKeeps(View(), id, held);
        Acquire(id);
        ids := [id];
        assert AcquireAll(old(View()), ids[..0]) == Some(old(View()));
      }
    }

    // The loop of poll that takes references.
    method PollLoop(fds: seq<nat>, need: Grant, ghost held: multiset<nat>) returns (ids: seq<nat>)
      requires Inv(View(), held)
      modifies this`counts
      ensures ids == PollFetched(old(View()), fds, need) && View().slots == old(View()).slots
      ensures Some(View()) == AcquireAll(old(View()), ids) && Inv(View(), held + multiset(ids))
    {
      hide Inv, AcquireAll, PollFetched, Access;
      ids := [];
      AcquireNone(View());
      PollNone(View(), fds[..0], need);
      assert held + multiset(ids) == held;
      var i := 0;
      while i < |fds|
        invariant 0 <= i <= |fds| && View().slots == old(View()).slots
        invariant ids == PollFetched(old(View()), fds[..i], need)
        invariant Some(View()) == AcquireAll(old(View()), ids) && Inv(View(), held + multiset(ids))
      {
        PollUnfold(old(View()), fds, need, i);
        ghost var mid, was := View(), ids;
        var _, more := GetLocked(fds[i], need, held + multiset(ids));
        AcquireMore(old(View()), was, mid, more);
        assert held + multiset(was + more) == held + multiset(was) + multiset(more);
        ids := ids + more;
        i := i + 1;
      }
      assert fds[..i] == fds;
    }

    /* The references that poll takes: one to an object for every place that names it
       with the rights needed. */
    method PollAcquire(fds: seq<nat>, need: Grant, ghost held: multiset<nat>) returns (ids: seq<nat>)
      requires Inv(View(), held)
      modifies this`counts
      ensures entries[..] == old(entries[..])
      ensures forall o :: Count(View(), o) == Count(old(View()), o) + |Naming(entries[..], fds, need, o)|
      ensures forall o :: multiset(ids)[o] == |Naming(entries[..], fds, need, o)|
      ensures ids == PollFetched(old(View()), fds, need)
      ensures Some(View()) == AcquireAll(old(View()), ids) && Inv(View(), held + multiset(ids))
    {
      hide Inv, AcquireAll, PollFetched, Naming, Count;
      ids := PollLoop(fds, need, held);
      assert entries[..] == old(View()).slots;
      forall o: nat ensures Count(View(), o) == Count(old(View()), o) + |Naming(entries[..], fds, need, o)|
                            && multiset(ids)[o] == |Naming(entries[..], fds, need, o)| {
        PollCounts(old(View()), fds, need, held, o);
        PollFetchedCounts(old(View()), fds, need, o);
      }
    }

    // One round of the loop of sock_send: a reference, on top of those taken so far.
    method SendOne(fd: nat, ids: seq<nat>, ghost start: Table, ghost held: multiset<nat>)
      returns (error: Errno, more: seq<nat>)
      requires Inv(View(), held + multiset(ids)) && Some(View()) == AcquireAll(start, ids)
      modifies this`counts
      ensures error == Access(entries[..], fd, NOTHING) && View().slots == old(View()).slots
      ensures error == Success ==> fd < entries.Length && entries[fd].Used? && more == [entries[fd].id]
      ensures error != Success ==> error == EBADF && more == []
      ensures Inv(View(), held + multiset(ids + more)) && Some(View()) == AcquireAll(start, ids + more)
    {
      hide Inv, AcquireAll, Access, Fetched;
      NothingNeeded(View().slots, fd);
      error, more := GetLocked(fd, NOTHING, held + multiset(ids));
      AcquireMore(start, ids, old(View()), more);
      assert held + multiset(ids + more) == held + multiset(ids) + multiset(more);
    }

    // The loop of sock_send that takes references.
    method SendLoop(fds: seq<nat>, bare: set<nat>, ghost held: multiset<nat>) returns (error: Errno, ids: seq<nat>)
      requires Inv(View(), held)
      modifies this`counts
      ensures ids == SendFetched(old(View()), fds, bare) && View().slots == old(View()).slots
      ensures error == Success <==> |ids| == |fds| && Sendable(ids, bare)
      ensures error == Success || error == EBADF
      ensures Some(View()) == AcquireAll(old(View()), ids) && Inv(View(), held + multiset(ids))
    {
      hide Inv, AcquireAll, SendFetched, Access, Sendable;
      error, ids := Success, [];
      AcquireNone(View());
      SendableMore([], bare);
      assert held + multiset(ids) == held;
      var i := 0;
      assert fds[0..] == fds;
      while i < |fds|
        invariant 0 <= i <= |fds| && View().slots == old(View()).slots && |ids| == i && error == Success
        invariant Sendable(ids, bare)
        invariant ids + SendFetched(old(View()), fds[i..], bare) == SendFetched(old(View()), fds, bare)
        invariant Some(View()) == AcquireAll(old(View()), ids) && Inv(View(), held + multiset(ids))
      {
        SendUnfold(old(View()), fds, bare, i);
        var more;
        error, more := SendOne(fds[i], ids, old(View()), held);
        SendableMore(ids + more, bare);
        ids := ids + more;
        if error != Success {
          return;
        }
        if more[0] in bare {
          return EBADF, ids;
        }
        i := i + 1;
      }
      SendNone(old(View()), fds[i..], bare);
    }

    /* The references that sock_send takes: for every descriptor up to the first bad one,
       or up to and with the first whose object has no host descriptor to send. It fails,
       with EBADF, exactly if there is one of the two; what it took is to be released. */
    method SendAcquire(fds: seq<nat>, bare: set<nat>, ghost held: multiset<nat>) returns (error: Errno, ids: seq<nat>)
      requires Inv(View(), held)
      modifies this`counts
      ensures SendStops(entries[..], fds, bare, ids) && entries[..] == old(entries[..])
      ensures error == if |ids| == |fds| && forall id :: id in ids ==> id !in bare then Success else EBADF
      ensures forall o :: Count(View(), o) == Count(old(View()), o) + multiset(ids)[o]
      ensures ids == SendFetched(old(View()), fds, bare)
      ensures Some(View()) == AcquireAll(old(View()), ids) && Inv(View(), held + multiset(ids))
    {
      hide Inv, AcquireAll, SendFetched, SendStops, Count;
      SendFetchedStops(View(), fds, bare);
      error, ids := SendLoop(fds, bare, held);
      forall o: nat ensures Count(View(), o) == Count(old(View()), o) + multiset(ids)[o] {
        SendCounts(old(View()), fds, bare, held, o);
      }
    }

    // The loops of poll and sock_send that give references back.
    method ReleaseEach(ids: seq<nat>, ghost held: multiset<nat>)
      requires Inv(View(), held) && multiset(ids) <= held
      modifies this`counts, this`closed
      ensures Some(View()) == ReleaseAll(old(View()), ids) && Inv(View(), held - multiset(ids))
    {
      hide Inv;
      var i := 0;
      ghost var left := held;
      assert ids[i..] == ids;
      while i < |ids|
        invariant 0 <= i <= |ids| && ReleaseAll(View(), ids[i..]) == ReleaseAll(old(View()), ids)
        invariant Inv(View(), left) && multiset(ids[i..]) <= left
        invariant left - multiset(ids[i..]) == held - multiset(ids)
      {
        assert ids[i..] == [ids[i]] + ids[i + 1..];
        Release(ids[i], left);
        left := left - multiset{ids[i]};
        i := i + 1;
      }
      assert left - multiset(ids[i..]) == left;
    }
  }

  // All of the objects have host descriptors.
  predicate Sendable(ids: seq<nat>, bare: set<nat>) {
    forall id :: id in ids ==> id !in bare
  }

  lemma SendableMore(ids: seq<nat>, bare: set<nat>)
    ensures ids == [] ==> Sendable(ids, bare)
    ensures ids != [] ==> (Sendable(ids, bare) <==> Sendable(ids[..|ids| - 1], bare) && ids[|ids| - 1] !in bare)
  {
    if ids != [] {
      assert ids == ids[..|ids| - 1] + [ids[|ids| - 1]];
    }
  }

  lemma PollNone(t: Table, fds: seq<nat>, need: Grant)
    requires fds == []
    ensures PollFetched(t, fds, need) == []
  {
  }

  lemma PollUnfold(t: Table, fds: seq<nat>, need: Grant, i: nat)
    requires i < |fds|
    ensures PollFetched(t, fds[..i + 1], need) == PollFetched(t, fds[..i], need) + Fetched(t, fds[i], need)
  {
    assert fds[..i + 1][..i] == fds[..i];
  }

  lemma SendNone(t: Table, fds: seq<nat>, bare: set<nat>)
    requires fds == []
    ensures SendFetched(t, fds, bare) == []
  {
  }

  lemma NothingNeeded(slots: seq<Slot>, fd: nat)
    ensures Access(slots, fd, NOTHING) == Success || Access(slots, fd, NOTHING) == EBADF
  {
  }

  lemma SendCounts(t: Table, fds: seq<nat>, bare: set<nat>, held: multiset<nat>, o: nat)
    requires Inv(t, held)
    ensures var os := SendFetched(t, fds, bare);
            AcquireAll(t, os).Some? && Count(AcquireAll(t, os).value, o) == Count(t, o) + multiset(os)[o]
  {
    hide Inv, SendFetched;
    var os := SendFetched(t, fds, bare);
    SendFetchedLive(t, fds, bare, held);
    AcquireAllLends(t, os);
    if o !in t.counts {
      assert o !in os && o !in multiset(os);
    }
  }

  // At most one more reference.
  lemma AcquireMore(t: Table, taken: seq<nat>, mid: Table, more: seq<nat>)
    requires AcquireAll(t, taken) == Some(mid) && |more| <= 1
    ensures AcquireAll(t, taken + more) == AcquireAll(mid, more)
  {
    if more == [] {
      assert taken + more == taken;
    } else {
      assert (taken + more)[..|taken|] == taken;
      assert AcquireAll(mid, more[..0]) == Some(mid);
    }
  }

  lemma AcquireNone(t: Table)
    ensures AcquireAll(t, []) == Some(t)
  {
  }

  lemma OneLive(t: Table, fd: nat, held: multiset<nat>)
    requires Inv(t, held) && Access(t.slots, fd, NOTHING) == Success
    ensures t.slots[fd].id in t.counts
  {
    FetchedLive(t, fd, NOTHING, held);
    assert t.slots[fd].id in Fetched(t, fd, NOTHING);
  }

  // One thread at the table, with the references ids.
  ghost function Alone(t: Table, ids: seq<nat>): State {
    State(t, [Busy(ids)])
  }

  lemma SendUnfold(t: Table, fds: seq<nat>, bare: set<nat>, i: nat)
    requires i < |fds|
    ensures SendFetched(t, fds[i..], bare) ==
            if Access(t.slots, fds[i], NOTHING) != Success then []
            else if t.slots[fds[i]].id in bare then [t.slots[fds[i]].id]
            else [t.slots[fds[i]].id] + SendFetched(t, fds[i + 1..], bare)
  {
    assert fds[i..][1..] == fds[i + 1..];
  }

  lemma {:induction false} ReleaseAllSlots(t: Table, os: seq<nat>)
    ensures var r := ReleaseAll(t, os); r.Some? ==> r.value.slots == t.slots
    ensures os == [] ==> ReleaseAll(t, os) == Some(t)
    decreases |os|
  {
    if os != [] && Release(t, os[0]).Some? {
      ReleaseAllSlots(Release(t, os[0]).value, os[1..]);
    }
  }

  lemma GrownIs(slots: seq<Slot>, used: nat, min: nat, incr: nat, bigger: seq<Slot>)
    requires Full(|slots|, used, min, incr)
    requires |bigger| == Doubled(if |slots| == 0 then 1 else |slots|, used, min, incr)
    requires slots <= bigger && forall j :: |slots| <= j < |bigger| ==> bigger[j] == Free
    ensures bigger == Grown(slots, used, min, incr)
  {
    assert bigger == slots + bigger[|slots|..];
  }

  lemma {:induction false} PowersDivide(a: nat, b: nat)
    requires PowerOfTwo(a) && PowerOfTwo(b) && a <= b
    ensures Random.Mod(b, a) == 0
  {
    if a > 1 {
      hide Random.Div, Random.Mod;
      var h := a / 2;
      PowersDivide(h, b / 2);
      var q := Random.Div(b / 2, h);
      Random.DivMod(b / 2, h);
      assert 2 * (q * h) == q * (2 * h);
      Random.QuotientUnique(b, a, q, 0);
    } else {
      Random.QuotientUnique(b, a, b, 0);
    }
  }

  lemma {:induction false} PowerProduct(a: nat, b: nat)
    requires PowerOfTwo(a) && PowerOfTwo(b)
    ensures PowerOfTwo(a * b)
  {
    if a > 1 {
      PowerProduct(a / 2, b);
      assert a * b == 2 * (a / 2 * b);
    }
  }

  lemma WordsPower()
    ensures PowerOfTwo(Random.WORDS)
  {
    assert PowerOfTwo(4) by { assert PowerOfTwo(2); }
    PowerProduct(4, 4);
    PowerProduct(16, 16);
    PowerProduct(256, 256);
    PowerProduct(0x1_0000, 0x1_0000);
    PowerProduct(0x1_0000_0000, 0x1_0000_0000);
  }

  /* On a table, whose size is a power of two, no random word is rejected, and every
     slot is named by equally many words, so every free slot is equally likely. */
  lemma UnusedUniform(size: nat, fd: nat)
    requires PowerOfTwo(size) && size < Random.WORDS && fd < size
    ensures Random.Threshold(size) == 0
    ensures |Random.Accepted(size, fd)| == Random.Div(Random.WORDS, size)
  {
    hide Random.Div, Random.Mod;
    WordsPower();
    PowersDivide(size, Random.WORDS);
    Random.ThresholdIsRemainder(size);
    Random.Unbiased(size, fd);
  }
}
