/**
 Every call on a lock keeps the invariant of the futex service.
 */
module FutexLockCalls {
  import opened LockWords
  import opened FutexLocks
  import opened FutexSteps
  import opened FutexInvariant
  import opened FutexFrames

  lemma InvExcept(s: State, l: Addr, cs: set<Addr>)
    requires Inv(s) && forall k :: k in cs && k in s.condvars ==> s.condvars[k].lock == l
    ensures Except(s, l, cs) && CallersOf(s, l, cs)
    ensures LockInv(s, l)
    ensures LockAssert(Object(s, l))
  {
    hide CvInv;
    hide SleeperInv;
    assert LockInv(s, l);
    hide LockInv;
    LocalWaiters(s, l, cs);
  }

  // A writer is alone.
  lemma ExclusiveWriter(s: State, t: nat, l: Addr)
    requires Settled(View(s, l)) && t in Hold(s, l).writers
    ensures HeldBy(Hold(s, l), t) && Word(s, l).wrlocked && Word(s, l).count == t
  {
  }

  // The object of a lock on which a thread went to sleep.
  lemma SleepLock(s: State, l: Addr, v: LockView, t: nat, call: Call)
    requires LockCore(s, l) && Settled(v) && v.hold == Hold(s, l)
    requires t !in s.calls && t !in s.fwq && call.lock == l
    requires v.writers == Object(s, l).writers + (if call.Entered() == LockWriters(l) then [t] else [])
    requires v.readers == Object(s, l).readers + (if call.Entered() == LockReaders(l) then [t] else [])
    ensures LockInv(Sleep(s, l, v, t, call), l)
    ensures LockAssert(Object(Sleep(s, l, v, t, call), l))
  {
    var s' := Sleep(s, l, v, t, call);
    CountOnLock(s.calls, s'.calls, t, l);
    assert View(s', l) == v;
    assert LockCore(s', l);
  }

  lemma HoldsNow(s: State, l: Addr)
    requires forall t :: t in s.calls ==> SleeperInv(s, t)
    ensures HoldsFor(s, l, s.fwq, Hold(s, l))
  {
    forall u | u in s.calls && s.calls[u].lock == l
      ensures if u in s.fwq then s.calls[u].OnCondvar() ==> u !in Hold(s, l).writers
              else if s.calls[u].Rdlock? then u in Hold(s, l).readers
              else u in Hold(s, l).writers
    {
      assert SleeperInv(s, u);
    }
  }

  lemma SleepersNow(s: State, l: Addr)
    requires Inv(s)
    ensures HoldsFor(s, l, s.fwq, Hold(s, l))
  {
    HoldsNow(s, l);
  }

  // A thread that is not asleep took the lock.
  lemma HoldsMore(s: State, l: Addr, h: Holders, h': Holders, t: nat)
    requires HoldsFor(s, l, s.fwq, h) && t !in s.calls
    requires h.writers <= h'.writers <= h.writers + {t} && h.readers <= h'.readers
    ensures HoldsFor(s, l, s.fwq, h')
  {
  }

  // The object of lock l after a change that leaves the sleepers alone.
  ghost predicate QueuesMatch(s: State, l: Addr, v: LockView) {
    && Object(s, l).waitcount == |OnLock(s.calls, l)|
    && Members(s.fwq, LockWriters(l), v.writers)
    && Members(s.fwq, LockReaders(l), v.readers)
  }

  lemma FinishKeeps(s: State, l: Addr, v: LockView, err: Errno, mid: bool)
    requires Except(s, l, {}) && CallersOf(s, l, {}) && QueuesMatch(s, l, v)
    requires Loose(v) && (err == OK ==> Settled(v)) && HoldsFor(s, l, s.fwq, v.hold)
    ensures var r := Finish(s, l, v, err, mid);
            Inv(r.state) && r.asserted == mid && r.outcome == Done(err) && Hold(r.state, l) == v.hold
  {
    UnmanageFacts(v);
    var v' := if err == OK then v else Unmanage(v);
    var s' := Put(s, l, v', Object(s, l).waitcount);
    KeepPut(s, l, {}, v', Object(s, l).waitcount, s.fwq);
    assert s' == s'.(fwq := s.fwq);
    assert View(s', l) == v';
    ReleaseLock(s', l);
    assert Hold(Release(s', l), l) == Hold(s', l);
  }

  lemma SettledNow(s: State, t: nat, l: Addr)
    requires Inv(s) && Awake(s, t)
    ensures Settled(View(s, l)) && LockCore(s, l)
    ensures t !in s.fwq && t !in Object(s, l).writers && t !in Object(s, l).readers
    ensures LockAssert(Object(s, l))
  {
    assert LockInv(s, l);
  }

  lemma RdlockSleeps(s: State, t: nat, l: Addr)
    requires Inv(s) && Awake(s, t) && TryRdlock(View(s, l), t).1 == EBUSY
    ensures var r := RdlockStep(s, t, l, true);
            Inv(r.state) && r.asserted && r.outcome == Blocked
  {
    hide Inv, LockInv, Settled, Loose;
    InvExcept(s, l, {});
    SettledNow(s, t, l);
    var (v, e) := TryRdlock(View(s, l), t);
    TryRdlockFacts(View(s, l), t);
    var v' := v.(readers := v.readers + [t]);
    EnqueueFacts(v, t);
    SleepLock(s, l, v', t, Rdlock(l));
    KeepSleep(s, l, {}, v', t, Rdlock(l));
    Whole(Sleep(s, l, v', t, Rdlock(l)), l, {});
  }

  /* futex_op_lock_rdlock: it sleeps, returns the lock, or rejects the clock. */
  lemma RdlockKeeps(s: State, t: nat, l: Addr, clock: bool)
    requires Inv(s) && Awake(s, t)
    ensures var r := RdlockStep(s, t, l, clock);
            && Inv(r.state) && r.asserted
            && (r.outcome == Blocked || r.outcome == Done(OK) || (!clock && r.outcome == Done(ENOTSUP)))
            && (r.outcome == Done(OK) ==> Hold(r.state, l) == Shared(Hold(s, l), multiset{t}))
            && (r.outcome != Done(OK) ==> Hold(r.state, l) == Hold(s, l))
  {
    hide Inv, LockInv, Settled, Loose, HoldsFor, Except, CallersOf, LockAssert, Unmanage, Release, QueuesMatch;
    SettledNow(s, t, l);
    var (v, e) := TryRdlock(View(s, l), t);
    TryRdlockFacts(View(s, l), t);
    if e == EBUSY && clock {
      RdlockSleeps(s, t, l);
    } else {
      InvExcept(s, l, {});
      SleepersNow(s, l);
      HoldsMore(s, l, Hold(s, l), v.hold, t);
      FinishKeeps(s, l, v, if e == EBUSY then ENOTSUP else e, true);
    }
  }

  lemma WrlockSleeps(s: State, t: nat, l: Addr)
    requires Inv(s) && Awake(s, t) && TryWrlock(View(s, l), t, false).1 == EBUSY
    ensures var r := WrlockStep(s, t, l, true);
            Inv(r.state) && r.asserted && r.outcome == Blocked
  {
    hide Inv, LockInv, Settled, Loose;
    InvExcept(s, l, {});
    SettledNow(s, t, l);
    var (v, e) := TryWrlock(View(s, l), t, false);
    TryWrlockFacts(View(s, l), t, false);
    var v' := v.(writers := v.writers + [t]);
    EnqueueFacts(v, t);
    SleepLock(s, l, v', t, Wrlock(l));
    KeepSleep(s, l, {}, v', t, Wrlock(l));
    Whole(Sleep(s, l, v', t, Wrlock(l)), l, {});
  }

  /* futex_op_lock_wrlock: it sleeps, returns the lock, rejects the clock, or
     reports a deadlock. */
  lemma WrlockKeeps(s: State, t: nat, l: Addr, clock: bool)
    requires Inv(s) && Awake(s, t)
    ensures var r := WrlockStep(s, t, l, clock);
            && Inv(r.state) && r.asserted
            && (r.outcome == Blocked || r.outcome == Done(OK) || (!clock && r.outcome == Done(ENOTSUP))
                || (r.outcome == Done(EDEADLK) && (t in Hold(s, l).writers || Stale(Hold(s, l), t))))
            && (r.outcome == Done(EDEADLK) <==> Object(s, l).owner == t || Word(s, l) == LockWord(t, true, false))
            && (r.outcome == Done(OK) ==> Idle(Hold(s, l)) && HeldBy(Hold(r.state, l), t))
            && (r.outcome != Done(OK) ==> Hold(r.state, l) == Hold(s, l))
  {
    hide Inv, LockInv, Settled, Loose, HoldsFor, Except, CallersOf, LockAssert, Unmanage, Release, QueuesMatch;
    SettledNow(s, t, l);
    var (v, e) := TryWrlock(View(s, l), t, false);
    TryWrlockFacts(View(s, l), t, false);
    if e == EBUSY && clock {
      WrlockSleeps(s, t, l);
    } else {
      InvExcept(s, l, {});
      SleepersNow(s, l);
      HoldsMore(s, l, Hold(s, l), v.hold, t);
      FinishKeeps(s, l, v, if e == EBUSY then ENOTSUP else e, true);
    }
  }

  lemma PassOnMoves(s: State, l: Addr, v: LockView, t: nat, cs: set<Addr>)
    requires Inv(s) && Unlock(View(s, l), t) == (v, OK)
    ensures Moved(s, Cleared(s.fwq, Woken(View(s, l))), l, cs)
  {
    hide Unlock;
    assert LockInv(s, l);
    var fwq := Cleared(s.fwq, Woken(View(s, l)));
    forall u | u in s.fwq && u !in fwq ensures Local(s.fwq[u], l, cs) {
      assert u in Object(s, l).writers || u in Object(s, l).readers;
    }
  }

  // A sleeper after the lock was passed on: served, or still in line.
  lemma PassOnServes(s: State, l: Addr, v: LockView, t: nat, u: nat)
    requires Inv(s) && t !in s.calls && Hold(s, l).writers == {t} && ValidTid(t)
    requires Unlock(View(s, l), t) == (v, OK) && u in s.calls && s.calls[u].lock == l
    ensures var fwq := Cleared(s.fwq, Woken(View(s, l)));
            if u in fwq then s.calls[u].OnCondvar() ==> u !in v.hold.writers
            else if s.calls[u].Rdlock? then u in v.hold.readers
            else u in v.hold.writers
  {
    assert LockInv(s, l);
    assert SleeperInv(s, u);
    UnlockFacts(View(s, l), t);
    hide Inv;
    hide Unlock;
  }

  // Passing the lock on satisfies exactly the threads it wakes up.
  lemma PassOnHolds(s: State, l: Addr, v: LockView, t: nat, cs: set<Addr>)
    requires Inv(s) && t !in s.calls && Hold(s, l).writers == {t} && ValidTid(t)
    requires Unlock(View(s, l), t) == (v, OK)
    ensures var fwq := Cleared(s.fwq, Woken(View(s, l)));
            HoldsFor(s, l, fwq, v.hold) && Moved(s, fwq, l, cs)
  {
    hide Inv, Moved;
    PassOnMoves(s, l, v, t, cs);
    var fwq := Cleared(s.fwq, Woken(View(s, l)));
    forall u | u in s.calls && s.calls[u].lock == l
      ensures if u in fwq then s.calls[u].OnCondvar() ==> u !in v.hold.writers
              else if s.calls[u].Rdlock? then u in v.hold.readers
              else u in v.hold.writers
    {
      PassOnServes(s, l, v, t, u);
    }
  }

  // The queues after passing the lock on.
  lemma PassOnQueues(s: State, l: Addr, v: LockView, t: nat)
    requires LockInv(s, l) && Hold(s, l).writers == {t} && ValidTid(t)
    requires Unlock(View(s, l), t) == (v, OK)
    ensures LockInvUnreleased(PassOn(s, l, v), l)
  {
    UnlockFacts(View(s, l), t);
    var s' := PassOn(s, l, v);
    assert View(s', l) == v;
    var w := Object(s, l).writers;
    if w != [] {
      DistinctTail(w);
    }
  }

  // Who holds the lock once its exclusive holder has passed it on.
  predicate PassedOn(v: LockView, h: Holders) {
    if v.writers != [] then HeldBy(h, v.writers[0])
    else h.writers == {} && h.readers == multiset(v.readers)
  }

  lemma UnlockPasses(s: State, t: nat, l: Addr)
    requires Inv(s) && Awake(s, t) && t in Hold(s, l).writers && Unlock(View(s, l), t).1 == OK
    ensures var s' := PassOn(s, l, Unlock(View(s, l), t).0);
            Inv(Release(s', l)) && LockAssert(Object(s', l)) && PassedOn(View(s, l), Hold(Release(s', l), l))
  {
    InvExcept(s, l, {});
    UnlockFacts(View(s, l), t);
    var v := Unlock(View(s, l), t).0;
    PassOnHolds(s, l, v, t, {});
    PassOnQueues(s, l, v, t);
    hide Inv;
    hide Settled;
    hide LockInv;
    hide LockInvUnreleased;
    KeepPut(s, l, {}, v, Object(s, l).waitcount, Cleared(s.fwq, Woken(View(s, l))));
    ReleaseLock(PassOn(s, l, v), l);
    assert View(PassOn(s, l, v), l).hold == v.hold;
  }

  /* The exclusive holder unlocks: it succeeds unless a stale owner is recorded,
     and then nobody else gets the lock. On success the lock goes to the oldest
     waiting writer, else to all waiting readers. */
  lemma UnlockKeeps(s: State, t: nat, l: Addr)
    requires Inv(s) && Awake(s, t) && t in Hold(s, l).writers
    ensures var r := UnlockStep(s, t, l);
            && Inv(r.state) && r.asserted
            && (r.outcome == Done(OK) <==> Object(s, l).owner in {LOCK_UNMANAGED, LOCK_OWNER_UNKNOWN, t})
            && (r.outcome == Done(OK) ==> PassedOn(View(s, l), Hold(r.state, l)))
            && (r.outcome != Done(OK) ==> r.outcome == Done(EPERM) && Hold(r.state, l) == Hold(s, l))
  {
    InvExcept(s, l, {});
    UnlockFacts(View(s, l), t);
    if Unlock(View(s, l), t).1 == OK {
      UnlockPasses(s, t, l);
    } else {
      HoldsNow(s, l);
      FinishKeeps(s, l, View(s, l), OK, true);
    }
  }
}
