/**
 The lock object of futex.c and its userspace word, updated in place.

 The word is the raw 32-bit word, the queues are linked lists, and other threads
 may change the word before every atomic access to it. Each routine is proved to
 do to the lock what the function of the same name in FutexLocks does to its value
 at the moment of the routine's last access: it takes effect atomically there.
 */
module FutexLockObject {
  import opened LockWords
  import Spec = FutexLocks
  import opened TailQueue

  type Errno = Spec.Errno
  type LockView = Spec.LockView

  // What happens before an atomic access: the word, and who holds the lock, as
  // userspace leaves them; and whether a weak compare-exchange fails for no reason.
  datatype Interference = Interference(raw: Raw, hold: Spec.Holders, spurious: bool)

  function After(v: LockView, i: Interference): LockView {
    v.(word := Decode(i.raw), hold := i.hold)
  }

  // The lock was before, and is at once only rest is left to happen of todo.
  predicate Reached(before: LockView, todo: seq<Interference>, rest: seq<Interference>, at: LockView) {
    && |rest| <= |todo| && rest == todo[|todo| - |rest|..]
    && at == if |rest| == |todo| then before else After(before, todo[|todo| - |rest| - 1])
  }

  lemma ReachedStart(v: LockView, todo: seq<Interference>)
    ensures Reached(v, todo, todo, v)
  {
    assert todo == todo[0..];
  }

  // The owner is not what other threads change.
  lemma ReachedOwner(before: LockView, todo: seq<Interference>, rest: seq<Interference>, at: LockView, owner: nat)
    requires Reached(before.(owner := owner), todo, rest, at)
    ensures Reached(before, todo, rest, at.(owner := before.owner))
  {
  }

  lemma ReachedNext(before: LockView, todo: seq<Interference>, rest: seq<Interference>, at: LockView)
    requires Reached(before, todo, rest, at) && rest != []
    ensures Reached(before, todo, rest[1..], After(at, rest[0]))
  {
    assert rest[0] == todo[|todo| - |rest|];
  }

  // struct futex_lock, with the word at fl_address.
  class FutexLock {
    var word: Raw
    var owner: nat
    const writers: FutexQueue
    const readers: FutexQueue
    ghost var hold: Spec.Holders
    var others: seq<Interference>   // what is going to happen, one entry for each atomic access

    ghost predicate Valid()
      reads writers, readers, writers.contents, readers.contents
    {
      && writers != readers && writers.Valid() && readers.Valid()
      && (forall x :: x in writers.contents ==> x !in readers.contents && ValidTid(x.tid))
      && readers.count < WRLOCKED
    }

    ghost function View(): LockView
      reads this`word, this`owner, this`hold, writers`contents, readers`contents
    {
      Spec.LockView(Decode(word), owner, Tids(writers.contents), Tids(readers.contents), hold)
    }

    /* The object made by futex_lock_lookup_locked for a lock without one. */
    constructor (word: Raw, ghost hold: Spec.Holders, others: seq<Interference>)
      ensures Valid() && fresh(writers) && fresh(readers) && this.others == others
      ensures View() == Spec.LockView(Decode(word), Spec.LOCK_UNMANAGED, [], [], hold)
    {
      this.word := word;
      this.hold := hold;
      this.others := others;
      owner := Spec.LOCK_UNMANAGED;
      var w := new FutexQueue();
      var r := new FutexQueue();
      writers := w;
      readers := r;
      new;
      assert Tids(writers.contents) == [] && Tids(readers.contents) == [];
    }

    // Other threads act, before an atomic access of this one.
    method Disturb() returns (spurious: bool)
      modifies this`word, this`hold, this`others
      ensures others == (if old(others) == [] then [] else old(others)[1..])
      ensures View() == (if old(others) == [] then old(View()) else After(old(View()), old(others)[0]))
      ensures spurious ==> old(others) != []
    {
      spurious := false;
      if others != [] {
        word, hold, spurious := others[0].raw, others[0].hold, others[0].spurious;
        others := others[1..];
      }
    }

    // atomic_load
    method Load(ghost before: LockView, ghost todo: seq<Interference>) returns (seen: Raw)
      requires Reached(before, todo, others, View())
      modifies this`word, this`hold, this`others
      ensures Reached(before, todo, others, View()) && seen == word && owner == old(owner)
    {
      if others != [] {
        ReachedNext(before, todo, others, View());
      }
      var _ := Disturb();
      seen := word;
    }

    /* atomic_compare_exchange_weak. The lock is at when the exchange happens or
       fails; a failure tells what the word is. */
    method CompareExchange(expected: Raw, desired: Raw, ghost before: LockView, ghost todo: seq<Interference>)
      returns (ok: bool, seen: Raw, ghost at: LockView)
      requires Reached(before, todo, others, View())
      modifies this`word, this`hold, this`others
      ensures Reached(before, todo, others, at)
      ensures ok ==> at.word == Decode(expected) && View() == at.(word := Decode(desired)) && seen == expected
      ensures !ok ==> View() == at && seen == word
      ensures others == (if old(others) == [] then [] else old(others)[1..])
      ensures !ok && old(others) == [] ==> word != expected && word == old(word)
    {
      if others != [] {
        ReachedNext(before, todo, others, View());
      }
      var spurious := Disturb();
      at := View();
      seen := word;
      ok := word == expected && !spurious;
      if ok {
        word := desired;
      }
    }

    /* futex_lock_set_owner: the owner is the thread or number in the word, if there
       is one, and never says that the lock is not managed. */
    method SetOwner(lock: Raw)
      modifies this`owner
      ensures owner == Spec.OwnerOf(Decode(lock))
      ensures owner == (if Decode(lock).count == 0 then Spec.LOCK_OWNER_UNKNOWN else Decode(lock).count)
      ensures owner != Spec.LOCK_UNMANAGED
    {
      OwnerMasks(lock);
      if ClearBit(lock, WRLOCKED) == 0 {
        owner := Spec.LOCK_OWNER_UNKNOWN;
        return;
      }
      var count := ClearBit(ClearBit(lock, WRLOCKED), KERNEL_MANAGED);
      if count == Spec.LOCK_UNMANAGED {
        owner := Spec.LOCK_OWNER_UNKNOWN;
        return;
      }
      owner := count;
    }

    /* futex_lock_update_owner. A known owner stays. An unknown one of a write-locked
       lock is the thread that holds it; so the exclusive holder passes for the owner
       afterwards exactly if the owner was unset, unknown or the holder before. */
    method UpdateOwner() returns (ghost at: LockView)
      modifies this`word, this`hold, this`others, this`owner
      ensures Reached(old(View()), old(others), others, at)
      ensures View() == Spec.UpdateOwner(at)
      ensures old(owner) != Spec.LOCK_OWNER_UNKNOWN ==> View() == at == old(View())
      ensures forall tid :: Spec.Settled(at) && ValidTid(tid) && at.hold.writers == {tid} ==>
                (owner in {Spec.LOCK_UNMANAGED, tid}
                 <==> old(owner) in {Spec.LOCK_UNMANAGED, Spec.LOCK_OWNER_UNKNOWN, tid})
    {
      at := View();
      if owner == Spec.LOCK_OWNER_UNKNOWN {
        var lock := Load(old(View()), old(others));
        at := View();
        SetOwner(lock);
      }
    }

    /* futex_lock_tryrdlock. Incrementing the word is what the function says unless
       there are as many readers as the word can count. */
    method TryRdlock(ghost tid: nat) returns (e: Errno, ghost at: LockView)
      modifies this`word, this`hold, this`others, this`owner
      ensures Reached(old(View()), old(others), others, at)
      ensures at.word.count + 1 < WRLOCKED ==> (View(), e) == Spec.TryRdlock(at, tid)
      ensures at.word.count + 1 >= WRLOCKED && e == Spec.OK ==> Decode(word) == LockWord(0, true, false)
    {
      hide Decode, HasBit, SetBit, ClearBit, AddOne, Reached, Tids;
      at := View();
      ReachedStart(at, others);
      if owner != Spec.LOCK_UNMANAGED {
        return Spec.EBUSY, at;
      }
      ZeroWord();
      var seen: Raw := 0;
      while true
        invariant owner == old(owner) && at == View()
        invariant Reached(old(View()), old(others), others, View())
        invariant seen == 0 || seen == word
        decreases |others|, if seen == word then 0 else 1
      {
        Flags(seen);
        if HasBit(seen, KERNEL_MANAGED) {
          return Spec.EINVAL, at;
        }
        var ok;
        if !HasBit(seen, WRLOCKED) {
          AddReader(seen);
          ok, seen, at := CompareExchange(seen, AddOne(seen), old(View()), old(others));
          if ok {
            hold := Spec.Shared(hold, multiset{tid});
            return Spec.OK, at;
          }
        } else {
          ManagedBit(seen);
          ok, seen, at := CompareExchange(seen, SetBit(seen, KERNEL_MANAGED), old(View()), old(others));
          if ok {
            SetOwner(seen);
            return Spec.EBUSY, at;
          }
        }
      }
    }

    /* futex_lock_trywrlock. */
    method TryWrlock(tid: nat, force: bool) returns (e: Errno, ghost at: LockView)
      requires ValidTid(tid)
      modifies this`word, this`hold, this`others, this`owner
      ensures Reached(old(View()), old(others), others, at)
      ensures (View(), e) == Spec.TryWrlock(at, tid, force)
    {
      hide Decode, HasBit, SetBit, ClearBit, AddOne, Reached, Tids;
      at := View();
      ReachedStart(at, others);
      if owner == tid {
        return Spec.EDEADLK, at;
      }
      if owner != Spec.LOCK_UNMANAGED {
        return Spec.EBUSY, at;
      }
      WriterWord(tid);
      ZeroWord();
      var seen: Raw := 0;
      while true
        invariant owner == old(owner) && at == View()
        invariant Reached(old(View()), old(others), others, View())
        invariant seen == 0 || seen == word
        decreases |others|, if seen == word then 0 else 1
      {
        Flags(seen);
        if HasBit(seen, KERNEL_MANAGED) {
          return Spec.EINVAL, at;
        }
        if seen == SetBit(tid, WRLOCKED) {
          return Spec.EDEADLK, at;
        }
        var ok;
        if seen == 0 {
          var desired := SetBit(tid, WRLOCKED);
          if force {
            desired := SetBit(desired, KERNEL_MANAGED);
          }
          ok, seen, at := CompareExchange(seen, desired, old(View()), old(others));
          if ok {
            hold := hold.(writers := hold.writers + {tid});
            if force {
              owner := tid;
            }
            return Spec.OK, at;
          }
        } else {
          Busy(seen, tid);
          ManagedBit(seen);
          ok, seen, at := CompareExchange(seen, SetBit(seen, KERNEL_MANAGED), old(View()), old(others));
          if ok {
            SetOwner(seen);
            return Spec.EBUSY, at;
          }
        }
      }
    }

    // The loop that clears the kernel-managed bit.
    method ClearManaged() returns (ghost at: LockView)
      modifies this`word, this`hold, this`others
      ensures Reached(old(View()), old(others), others, at)
      ensures View() == at.(word := at.word.(managed := false))
    {
      hide Decode, HasBit, SetBit, ClearBit, AddOne, Reached, Tids;
      at := View();
      ReachedStart(at, others);
      var seen := Load(old(View()), old(others));
      var ok := false;
      while !ok
        invariant !ok ==> Reached(old(View()), old(others), others, View()) && seen == word
        invariant ok ==> Reached(old(View()), old(others), others, at)
        invariant ok ==> View() == at.(word := at.word.(managed := false))
        decreases !ok, |others|
      {
        ManagedBit(seen);
        ok, seen, at := CompareExchange(seen, ClearBit(seen, KERNEL_MANAGED), old(View()), old(others));
      }
    }

    /* futex_lock_unmanage. */
    method Unmanage() returns (ghost at: LockView)
      requires Valid()
      modifies this`word, this`hold, this`others, this`owner
      ensures Valid() && Reached(old(View()), old(others), others, at)
      ensures View() == Spec.Unmanage(at)
    {
      hide Decode, Reached;
      at := View();
      ReachedStart(at, others);
      if readers.count == 0 && writers.count == 0 {
        owner := Spec.LOCK_UNMANAGED;
        at := ClearManaged();
        ReachedOwner(old(View()), old(others), others, at, Spec.LOCK_UNMANAGED);
        at := at.(owner := old(owner));
      }
    }

    // The oldest writer is woken up.
    method WakeUpWriter()
      requires Valid() && writers.count > 0
      modifies writers, writers.contents
      ensures Valid() && View() == old(View()).(writers := old(View()).writers[1..])
      ensures writers.contents == old(writers.contents)[1..] && readers.contents == old(readers.contents)
      ensures old(writers.contents)[0].queue == null
    {
      hide Decode, ValidTid;
      var w := writers.WakeUpBest();
      assert Tids(writers.contents) == Tids(old(writers.contents))[1..];
      assert forall x :: x in writers.contents ==> x in old(writers.contents);
    }

    // The thread identifier of the oldest writer.
    method TidBest() returns (tid: nat)
      requires Valid() && writers.count > 0
      ensures ValidTid(tid) && tid == View().writers[0]
    {
      assert writers.first == writers.contents[0];
      assert writers.contents[0] in writers.contents;
      tid := writers.first.tid;
    }

    // The word of a writer is stored.
    method StoreWriter(tid: nat, stays: bool)
      requires ValidTid(tid)
      modifies this`word
      ensures View() == old(View()).(word := LockWord(tid, true, stays))
    {
      hide Decode, HasBit, SetBit;
      WriterWord(tid);
      word := SetBit(tid, WRLOCKED);
      if stays {
        word := SetBit(word, KERNEL_MANAGED);
      }
    }

    // Ownership goes to the oldest writer.
    method GrantWriter()
      requires Valid() && writers.count > 0
      modifies this`word, this`hold, this`owner, writers, writers.contents
      ensures Valid() && View() == Spec.WakeUpNext(old(View()))
      ensures writers.contents == old(writers.contents)[1..] && readers.contents == old(readers.contents)
      ensures old(writers.contents)[0].queue == null
    {
      hide Decode, ValidTid, Tids, FutexQueue.Linked, FutexQueue.LinkedAt;
      var stays := writers.count > 1 || readers.count > 0;
      var tid := TidBest();
      StoreWriter(tid, stays);
      WakeUpWriter();
      hold := hold.(writers := hold.writers + {tid});
      owner := if stays then tid else Spec.LOCK_UNMANAGED;
    }

    // Ownership goes to all readers, if any.
    method GrantReaders()
      requires Valid() && writers.count == 0
      modifies this`word, this`hold, this`owner, readers, readers.contents
      ensures Valid() && View() == Spec.WakeUpNext(old(View()))
      ensures writers.contents == readers.contents == []
      ensures forall x :: x in old(readers.contents) ==> x.queue == null
    {
      ReadersWord(readers.count);
      word := readers.count;
      hold := Spec.Shared(hold, multiset(Tids(readers.contents)));
      readers.WakeUpAll();
      assert Tids(writers.contents) == [];
      owner := Spec.LOCK_UNMANAGED;
    }

    /* futex_lock_wake_up_next. Only the holder gets here, and until its store nobody
       else changes the word. */
    method WakeUpNext()
      requires Valid()
      modifies this`word, this`hold, this`owner, writers, readers, writers.contents, readers.contents
      ensures Valid() && View() == Spec.WakeUpNext(old(View()))
      ensures forall x :: x in old(writers.contents + readers.contents) && x !in writers.contents + readers.contents
                ==> x.queue == null
    {
      if writers.count > 0 {
        GrantWriter();
      } else {
        GrantReaders();
      }
    }

    /* futex_lock_unlock. */
    method Unlock(tid: nat) returns (e: Errno, ghost at: LockView)
      requires Valid()
      modifies this, writers, readers, writers.contents, readers.contents
      ensures Valid() && Reached(old(View()), old(others), others, at)
      ensures (View(), e) == Spec.Unlock(at, tid)
    {
      hide Decode, Reached, Tids, Spec.WakeUpNext, Spec.Settled, ValidTid;
      at := UpdateOwner();
      if owner != Spec.LOCK_UNMANAGED && owner != tid {
        return Spec.EPERM, at;
      }
      hold := hold.(writers := hold.writers - {tid});
      WakeUpNext();
      return Spec.OK, at;
    }
  }

  // A word that is neither unlocked nor the caller's own, as a lock word.
  lemma Busy(raw: Raw, tid: nat)
    requires ValidTid(tid) && raw != 0 && raw != SetBit(tid, WRLOCKED)
    ensures Decode(raw) != UNLOCKED && Decode(raw) != LockWord(tid, true, false)
  {
    WriterWord(tid);
    if Decode(raw) == UNLOCKED {
      DecodeInjective(raw, 0);
    }
    if Decode(raw) == LockWord(tid, true, false) {
      DecodeInjective(raw, SetBit(tid, WRLOCKED));
    }
  }
}
