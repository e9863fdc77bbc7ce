/**
 One read-write lock: its userspace word, its kernel object and, as a history
 variable, the threads that were told they hold it.

 The functions are the futex_lock_* routines as transformations of values; the
 class FutexLock is the same routines updating fields in place, proved equal
 to the functions.
 */
module FutexLocks {
  import opened LockWords

  datatype Errno = OK | EBUSY | EDEADLK | EINVAL | EPERM | ETIMEDOUT | ENOTSUP | ENOENT

  const LOCK_UNMANAGED: nat := 0
  const LOCK_OWNER_UNKNOWN: nat := 1

  // The threads holding a lock. Nothing in the type rules out two writers, or
  // a writer next to readers: that they never occur is proved.
  // The peak is the largest number of readers the lock has had at once.
  datatype Holders = Holders(writers: set<nat>, readers: multiset<nat>, peak: nat)

  const NOBODY := Holders({}, multiset{}, 0)

  predicate Idle(h: Holders) {
    h.writers == {} && h.readers == multiset{}
  }

  predicate HeldBy(h: Holders, tid: nat) {
    h.writers == {tid} && h.readers == multiset{}
  }

  // Further readers were told they hold the lock.
  function Shared(h: Holders, ts: multiset<nat>): Holders {
    var readers := h.readers + ts;
    h.(readers := readers, peak := if |readers| > h.peak then |readers| else h.peak)
  }

  datatype LockView = LockView(word: LockWord, owner: nat, writers: seq<nat>, readers: seq<nat>, hold: Holders)

  predicate Queued(v: LockView) {
    v.writers != [] || v.readers != []
  }

  // ---------- The routines of futex.c on values ----------

  /* futex_lock_set_owner. */
  function OwnerOf(w: LockWord): nat {
    if w.count == 0 && !w.managed then LOCK_OWNER_UNKNOWN
    else if w.count == LOCK_UNMANAGED then LOCK_OWNER_UNKNOWN
    else w.count
  }

  /* futex_lock_tryrdlock on behalf of tid. */
  function TryRdlock(v: LockView, tid: nat): (LockView, Errno) {
    if v.owner != LOCK_UNMANAGED then (v, EBUSY)
    else if v.word.managed then (v, EINVAL)
    else if !v.word.wrlocked then
      (v.(word := v.word.(count := v.word.count + 1),
          hold := Shared(v.hold, multiset{tid})), OK)
    else
      (v.(word := v.word.(managed := true), owner := OwnerOf(v.word)), EBUSY)
  }

  /* futex_lock_trywrlock on behalf of tid. */
  function TryWrlock(v: LockView, tid: nat, force: bool): (LockView, Errno) {
    if v.owner == tid then (v, EDEADLK)
    else if v.owner != LOCK_UNMANAGED then (v, EBUSY)
    else if v.word.managed then (v, EINVAL)
    else if v.word == LockWord(tid, true, false) then (v, EDEADLK)
    else if v.word == UNLOCKED then
      (v.(word := LockWord(tid, true, force),
          owner := if force then tid else v.owner,
          hold := v.hold.(writers := v.hold.writers + {tid})), OK)
    else
      (v.(word := v.word.(managed := true), owner := OwnerOf(v.word)), EBUSY)
  }

  /* futex_lock_unmanage. */
  function Unmanage(v: LockView): LockView {
    if Queued(v) then v
    else v.(owner := LOCK_UNMANAGED, word := v.word.(managed := false))
  }

  /* futex_lock_wake_up_next: the lock passes to the oldest writer or to all readers. */
  function WakeUpNext(v: LockView): LockView {
    if v.writers != [] then
      var stays := |v.writers| > 1 || v.readers != [];
      var tid := v.writers[0];
      v.(word := LockWord(tid, true, stays),
         owner := if stays then tid else LOCK_UNMANAGED,
         writers := v.writers[1..],
         hold := v.hold.(writers := v.hold.writers + {tid}))
    else
      v.(word := LockWord(|v.readers|, false, false),
         owner := LOCK_UNMANAGED,
         readers := [],
         hold := Shared(v.hold, multiset(v.readers)))
  }

  // The threads whose fw_queue WakeUpNext clears.
  function Woken(v: LockView): seq<nat> {
    if v.writers != [] then [v.writers[0]] else v.readers
  }

  /* futex_lock_update_owner. */
  function UpdateOwner(v: LockView): LockView {
    if v.owner == LOCK_OWNER_UNKNOWN then v.(owner := OwnerOf(v.word)) else v
  }

  // futex_lock_unlock refuses exactly then.
  predicate Refused(v: LockView, tid: nat) {
    var owner := UpdateOwner(v).owner;
    owner != LOCK_UNMANAGED && owner != tid
  }

  /* futex_lock_unlock by tid. */
  function Unlock(v: LockView, tid: nat): (LockView, Errno) {
    if Refused(v, tid) then (UpdateOwner(v), EPERM)
    else
      var u := UpdateOwner(v);
      (WakeUpNext(u.(hold := u.hold.(writers := u.hold.writers - {tid}))), OK)
  }

  // ---------- The invariant of one lock ----------

  predicate Held(h: Holders) {
    h.writers != {} || |h.readers| > 0
  }

  // The word says exactly who holds the lock: one writer, or so many readers.
  predicate WordEncodes(w: LockWord, h: Holders) {
    if w.wrlocked then h.writers == {w.count} && h.readers == multiset{}
    else h.writers == {} && w.count == |h.readers|
  }

  predicate Distinct(s: seq<nat>) {
    forall i, j :: 0 <= i < j < |s| ==> s[i] != s[j]
  }

  predicate ValidTids(s: seq<nat>) {
    forall t :: t in s ==> ValidTid(t)
  }

  // What holds of a lock in the middle of a system call.
  ghost predicate Loose(v: LockView) {
    && WordEncodes(v.word, v.hold)
    && (v.word.managed <==> v.owner != LOCK_UNMANAGED)
    && (Queued(v) ==> v.word.managed)
    && (v.word.managed ==> Held(v.hold))
    && (v.word.wrlocked ==> ValidTid(v.word.count))
    && Distinct(v.writers) && Distinct(v.readers)
    && ValidTids(v.writers) && ValidTids(v.readers)
    && |v.hold.readers| <= v.hold.peak
    && (v.word.managed ==> OwnerKnown(v))
  }

  // The recorded owner is right as long as the lock never had two readers at once.
  predicate OwnerKnown(v: LockView) {
    && (v.hold.peak == 0 ==> v.word.wrlocked && v.owner == v.word.count)
    && (v.hold.peak == 1 ==> v.owner == LOCK_OWNER_UNKNOWN || (v.word.wrlocked && v.owner == v.word.count))
  }

  // A thread that does not hold the lock can only be taken for its owner when
  // the lock has had two readers at once.
  predicate Stale(h: Holders, tid: nat) {
    tid !in h.writers && h.peak >= 2
  }

  // What holds of it whenever the global mutex is released.
  ghost predicate Settled(v: LockView) {
    Loose(v) && (v.word.managed ==> Queued(v))
  }

  lemma TryRdlockFacts(v: LockView, tid: nat)
    requires Settled(v) && ValidTid(tid)
    ensures var (w, e) := TryRdlock(v, tid);
            && Loose(w)
            && (e == OK || e == EBUSY)
            && w.writers == v.writers && w.readers == v.readers
            && (e == OK ==> Settled(w) && w.hold == Shared(v.hold, multiset{tid})
                            && v.hold.writers == {})
            && (e == EBUSY ==> w.owner != LOCK_UNMANAGED && w.hold == v.hold
                               && w.(word := v.word.(managed := true), owner := v.owner)
                                  == v.(word := v.word.(managed := true)))
  {
  }

  lemma TryWrlockFacts(v: LockView, tid: nat, force: bool)
    requires Settled(v) && ValidTid(tid)
    ensures var (w, e) := TryWrlock(v, tid, force);
            && Loose(w)
            && e in {OK, EBUSY, EDEADLK}
            && w.writers == v.writers && w.readers == v.readers
            && (e == OK ==> !Queued(v) && Idle(v.hold) && HeldBy(w.hold, tid)
                            && (w.owner != LOCK_UNMANAGED <==> force))
            && (e == EBUSY ==> w.owner != LOCK_UNMANAGED && w.hold == v.hold)
            && (e == EDEADLK ==> w == v && (tid in v.hold.writers || (v.owner == tid && Stale(v.hold, tid))))
            && (e == EDEADLK <==> v.owner == tid || v.word == LockWord(tid, true, false))
  {
    if v.word == UNLOCKED {
      assert |v.hold.readers| == 0;
      assert Idle(v.hold);
    }
  }

  lemma UnmanageFacts(v: LockView)
    requires Loose(v)
    ensures Settled(Unmanage(v))
    ensures Unmanage(v).(word := v.word, owner := v.owner) == v
  {
  }

  lemma DistinctTail(s: seq<nat>)
    requires Distinct(s) && s != []
    ensures Distinct(s[1..]) && s[0] !in s[1..]
    ensures forall t :: t in s <==> t == s[0] || t in s[1..]
  {
    assert s == [s[0]] + s[1..];
  }

  /* The exclusive holder passes the lock on: exactly one hand-over happens, to
     the oldest writer before any reader, or else to all waiting readers. */
  lemma UnlockFacts(v: LockView, tid: nat)
    requires Settled(v) && ValidTid(tid) && v.hold.writers == {tid}
    ensures var (w, e) := Unlock(v, tid);
            && (e == OK <==> v.owner in {LOCK_UNMANAGED, LOCK_OWNER_UNKNOWN, tid})
            && (e == OK || e == EPERM)
            && (e == EPERM ==> w == v)
            && (e == OK ==>
                  && Settled(w)
                  && (v.writers != [] ==> HeldBy(w.hold, v.writers[0])
                                          && w.writers == v.writers[1..] && w.readers == v.readers)
                  && (v.writers == [] ==> w.hold.writers == {} && w.hold.readers == multiset(v.readers)
                                          && w.writers == [] && w.readers == []))
  {
    if v.writers != [] {
      DistinctTail(v.writers);
    } else {
      assert |multiset(v.readers)| == |v.readers|;
    }
  }

  /* The userspace fast paths: each keeps the lock settled. */
  lemma FastAcquireFacts(v: LockView, tid: nat)
    requires Settled(v) && ValidTid(tid)
    ensures !v.word.managed && !v.word.wrlocked ==>
              Settled(v.(word := v.word.(count := v.word.count + 1), hold := Shared(v.hold, multiset{tid})))
    ensures v.word == UNLOCKED ==>
              Settled(v.(word := LockWord(tid, true, false), hold := v.hold.(writers := v.hold.writers + {tid})))
  {
    if v.word == UNLOCKED {
      assert |v.hold.readers| == 0;
    }
  }

  lemma FastReleaseFacts(v: LockView, tid: nat)
    requires Settled(v) && ValidTid(tid)
    ensures tid in v.hold.readers && (v.word.managed ==> v.word.count > 1) ==>
              v.word.count > 0 &&
              Settled(v.(word := v.word.(count := v.word.count - 1),
                         hold := v.hold.(readers := v.hold.readers - multiset{tid})))
    ensures tid in v.hold.writers && !v.word.managed ==>
              Settled(v.(word := UNLOCKED, hold := v.hold.(writers := v.hold.writers - {tid})))
  {
    if tid in v.hold.readers {
      assert v.hold.readers == (v.hold.readers - multiset{tid}) + multiset{tid};
    }
  }

  lemma UpgradeFacts(v: LockView, tid: nat)
    requires Settled(v) && ValidTid(tid) && tid in v.hold.readers && v.word == LockWord(1, false, true)
    ensures Settled(v.(word := LockWord(tid, true, true),
                       hold := v.hold.(writers := v.hold.writers + {tid}, readers := v.hold.readers - multiset{tid})))
  {
    assert v.hold.readers == (v.hold.readers - multiset{tid}) + multiset{tid};
    assert |v.hold.readers - multiset{tid}| == 0;
  }

  /* Entering a queue settles the lock. */
  lemma EnqueueFacts(v: LockView, tid: nat)
    requires Loose(v) && v.owner != LOCK_UNMANAGED && ValidTid(tid)
    ensures tid !in v.writers ==> Settled(v.(writers := v.writers + [tid]))
    ensures tid !in v.readers ==> Settled(v.(readers := v.readers + [tid]))
  {
  }
}
