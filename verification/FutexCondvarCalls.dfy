/**
 Every call on a condition variable keeps the invariant of the futex service.
 */
module FutexCondvarCalls {
  import opened LockWords
  import opened FutexLocks
  import opened FutexSteps
  import opened FutexInvariant
  import opened FutexFrames
  import opened FutexLockCalls

  // The condition variable c of lock l counts one thread more than sleep in it:
  // the thread that is executing.
  ghost predicate CountedIn(s: State, c: Addr, l: Addr) {
    && c in s.condvars && s.condvars[c].lock == l
    && s.condvars[c].waitcount == |OnCv(s.calls, c)| + 1
    && Distinct(s.condvars[c].waiters)
    && Members(s.fwq, CvWaiters(c), s.condvars[c].waiters)
  }

  // A change of lock l followed by one of its condition variable c.
  lemma KeepBoth(s: State, l: Addr, v: LockView, waitcount: int, fwq: map<nat, Queue>,
                 c: Addr, word: nat, cv: Condvar)
    requires Except(s, l, {c}) && CallersOf(s, l, {c}) && Moved(s, fwq, l, {c}) && HoldsFor(s, l, fwq, v.hold)
    requires cv.lock == l && (c in s.condvars ==> s.condvars[c].lock == l)
    ensures var s' := PutCv(Put(s, l, v, waitcount).(fwq := fwq), c, word, cv);
            Except(s', l, {c}) && CallersOf(s', l, {c})
  {
    hide Except;
    hide CallersOf;
    hide Moved;
    hide HoldsFor;
    var s1 := Put(s, l, v, waitcount).(fwq := fwq);
    KeepPut(s, l, {c}, v, waitcount, fwq);
    LocalWaiters(s1, l, {c});
    var s' := PutCv(s1, c, word, cv);
    KeepPutCv(s1, l, {c}, c, word, cv);
    LocalWaiters(s', l, {c});
  }

  lemma ReturnKeeps(s: State, c: Addr, l: Addr, v: LockView, err: Errno, mid: bool)
    requires Except(s, l, {c}) && CallersOf(s, l, {c}) && CountedIn(s, c, l)
    requires CvWord(s, c) != HAS_NO_WAITERS <==> s.condvars[c].waiters != []
    requires QueuesMatch(s, l, v) && Settled(v) && HoldsFor(s, l, s.fwq, v.hold)
    ensures var r := Return(s, c, l, v, err, mid);
            Inv(r.state) && r.asserted == mid && r.outcome == Done(err) && Hold(r.state, l) == v.hold
  {
    assert Moved(s, s.fwq, l, {c});
    hide Except;
    hide CallersOf;
    hide Moved;
    hide HoldsFor;
    hide Settled;
    var cv' := s.condvars[c].(waitcount := s.condvars[c].waitcount - 1);
    var s1 := Put(s, l, v, Object(s, l).waitcount);
    assert s1 == s1.(fwq := s.fwq);
    var s' := PutCv(s1, c, CvWord(s, c), cv');
    KeepBoth(s, l, v, Object(s, l).waitcount, s.fwq, c, CvWord(s, c), cv');
    assert View(s', l) == v;
    assert LockInvUnreleased(s', l);
    assert CvInvUnreleased(s', c);
    hide LockInvUnreleased;
    hide CvInvUnreleased;
    hide Inv;
    ReleaseCondvar(s', l, c);
    assert View(Return(s, c, l, v, err, mid).state, l).hold == v.hold;
  }

  lemma CvAfterSleep(s: State, l: Addr, v: LockView, t: nat, call: Call, c: Addr)
    requires CountedIn(s, c, l) && t !in s.calls && t !in s.fwq && call.OnCondvar() && call.lock == l && call.cv == c
    requires call.Entered() == LockWriters(l)
    requires CvWord(s, c) != HAS_NO_WAITERS <==> s.condvars[c].waiters != []
    ensures CvInv(Sleep(s, l, v, t, call), c)
  {
    CountOnCv(s.calls, Sleep(s, l, v, t, call).calls, t, c);
  }

  // Sleeping on lock l from inside a call on condition variable c.
  lemma SleepOnCv(s: State, l: Addr, v: LockView, t: nat, call: Call, c: Addr)
    requires Except(s, l, {c}) && CallersOf(s, l, {c}) && CountedIn(s, c, l)
    requires t !in s.calls && t !in s.fwq && ValidTid(t) && call.OnCondvar() && call.lock == l && call.cv == c
    requires LockInv(Sleep(s, l, v, t, call), l) && v.hold == Hold(s, l) && t !in v.hold.writers
    requires call.Entered() == LockWriters(l) && (call.Reacquire? ==> call.first in {ETIMEDOUT, ENOTSUP})
    requires CvWord(s, c) != HAS_NO_WAITERS <==> s.condvars[c].waiters != []
    ensures Inv(Sleep(s, l, v, t, call))
  {
    hide Inv, LockInv, CvInv, Except, CallersOf;
    CvAfterSleep(s, l, v, t, call, c);
    KeepSleep(s, l, {c}, v, t, call);
    Whole(Sleep(s, l, v, t, call), l, {c});
  }

  // The state in which a condition wait that did not end in a grant relocks.
  ghost predicate Relocking(s: State, t: nat, c: Addr, l: Addr) {
    && Except(s, l, {c}) && CallersOf(s, l, {c}) && CountedIn(s, c, l)
    && t !in s.calls && t !in s.fwq && ValidTid(t) && t !in Hold(s, l).writers
    && LockInvUnreleased(s, l)
  }

  lemma ReacquireSleeps(s: State, t: nat, c: Addr, l: Addr, first: Errno)
    requires Relocking(s, t, c, l)
    requires CvWord(s, c) != HAS_NO_WAITERS <==> s.condvars[c].waiters != []
    requires TryWrlock(View(s, l), t, false).1 == EBUSY && first in {ETIMEDOUT, ENOTSUP}
    ensures var s' := Sleep(s, l, TryWrlock(View(s, l), t, false).0.(writers := Object(s, l).writers + [t]), t,
                            Reacquire(l, c, first));
            && Inv(s') && LockAssert(Object(s', l))
            && Object(s, l).owner != t && TryWrlock(View(s, l), t, false).0.owner != LOCK_UNMANAGED
            && TryWrlock(View(s, l), t, false).0.writers == Object(s, l).writers
  {
    hide Except;
    hide CallersOf;
    var (v, e) := TryWrlock(View(s, l), t, false);
    TryWrlockFacts(View(s, l), t, false);
    var v' := v.(writers := v.writers + [t]);
    EnqueueFacts(v, t);
    SleepLock(s, l, v', t, Reacquire(l, c, first));
    SleepOnCv(s, l, v', t, Reacquire(l, c, first), c);
  }

  lemma ReacquireReturns(s: State, t: nat, c: Addr, l: Addr, err: Errno, mid: bool)
    requires Relocking(s, t, c, l)
    requires CvWord(s, c) != HAS_NO_WAITERS <==> s.condvars[c].waiters != []
    requires TryWrlock(View(s, l), t, false).1 != EBUSY
    ensures var (v, e) := TryWrlock(View(s, l), t, false);
            var r := Return(s, c, l, if e == OK then v else Unmanage(v), err, mid);
            && Inv(r.state) && r.asserted == mid && r.outcome == Done(err)
            && (e == OK ==> HeldBy(Hold(r.state, l), t))
            && (e == OK <==> Object(s, l).owner != t)
            && (e != OK ==> e == EDEADLK && Stale(Hold(r.state, l), t))
  {
    var (v, e) := TryWrlock(View(s, l), t, false);
    TryWrlockFacts(View(s, l), t, false);
    UnmanageFacts(v);
    assert Settled(if e == OK then v else Unmanage(v));
    HoldsNow(s, l);
    HoldsMore(s, l, Hold(s, l), v.hold, t);
    hide Except;
    hide CallersOf;
    hide HoldsFor;
    ReturnKeeps(s, c, l, if e == OK then v else Unmanage(v), err, mid);
  }

  /* Relocking after a condition wait timed out or was refused its clock: the
     thread sleeps on the lock, returns holding it, or is told of a deadlock
     because its identifier is recorded as the owner. */
  lemma ReacquireKeeps(s: State, t: nat, c: Addr, l: Addr, first: Errno, pre: bool)
    requires Relocking(s, t, c, l)
    requires s.condvars[c].waiters != [] ==> CvWord(s, c) != HAS_NO_WAITERS
    requires first in {ETIMEDOUT, ENOTSUP}
    ensures var r := ReacquireStep(s, t, c, l, first, pre);
            && Inv(r.state) && r.asserted == pre
            && (r.outcome == Done(EDEADLK) <==> Object(s, l).owner == t)
            && (|| r.outcome == Blocked
                || (r.outcome == Done(first) && HeldBy(Hold(r.state, l), t))
                || (r.outcome == Done(EDEADLK) && Stale(Hold(r.state, l), t)))
  {
    hide Relocking;
    hide Inv;
    hide TryWrlock;
    hide Return;
    hide LockAssert;
    RelockingAfterUnmanage(s, t, c, l);
    var cv := s.condvars[c];
    var s1 := PutCv(s, c, CvWordAfter(CvWord(s, c), cv.waiters), cv);
    assert View(s1, l) == View(s, l);
    var (v, e) := TryWrlock(View(s, l), t, false);
    if e == EBUSY {
      ReacquireSleeps(s1, t, c, l, first);
    } else {
      ReacquireReturns(s1, t, c, l, if e == OK then first else e, pre);
    }
  }

  // futex_condvar_unmanage in that state.
  lemma RelockingAfterUnmanage(s: State, t: nat, c: Addr, l: Addr)
    requires Relocking(s, t, c, l)
    ensures c in s.condvars
    ensures var cv := s.condvars[c];
            Relocking(PutCv(s, c, CvWordAfter(CvWord(s, c), cv.waiters), cv), t, c, l)
  {
    var cv := s.condvars[c];
    var word := CvWordAfter(CvWord(s, c), cv.waiters);
    var s1 := PutCv(s, c, word, cv);
    UnreleasedCongruence(s, s1, l);
    hide LockInvUnreleased;
    hide Except;
    hide CallersOf;
    hide CvWordAfter;
    KeepPutCv(s, l, {c}, c, word, cv);
    LocalWaiters(s1, l, {c});
  }

  lemma UnreleasedCongruence(s: State, s': State, l: Addr)
    requires LockInvUnreleased(s, l) && View(s', l) == View(s, l) && Object(s', l) == Object(s, l)
    requires s'.calls == s.calls && s'.fwq == s.fwq
    ensures LockInvUnreleased(s', l)
  {
  }

  // What the invariant says where a call on condition variable c of lock l starts.
  lemma Entry(s: State, c: Addr, l: Addr)
    requires Inv(s) && (c in s.condvars ==> s.condvars[c].lock == l)
    ensures Except(s, l, {c}) && CallersOf(s, l, {c}) && LockInv(s, l) && CvInv(s, c) && Settled(View(s, l))
    ensures LockAssert(Object(s, l)) && (c in s.condvars ==> CondvarAssert(s, s.condvars[c]))
  {
    InvExcept(s, l, {c});
    assert CvInv(s, c);
    if c in s.condvars {
      CvCountsWaiters(s, c);
    }
  }

  // The state right after a refusal, before the objects are released.
  function RefusedState(s: State, c: Addr, l: Addr): State {
    var cv := Cv(s, c, l);
    PutCv(Put(s, l, View(s, l), Object(s, l).waitcount), c, CvWordAfter(HAS_WAITERS, cv.waiters), cv)
  }

  lemma RefusedLock(s: State, c: Addr, l: Addr)
    requires LockInv(s, l)
    ensures LockInvUnreleased(RefusedState(s, c, l), l)
  {
    assert View(RefusedState(s, c, l), l) == View(s, l);
  }

  lemma RefusedCv(s: State, c: Addr, l: Addr)
    requires CvInv(s, c)
    ensures CvInvUnreleased(RefusedState(s, c, l), c)
  {
  }

  lemma NothingMoved(s: State, l: Addr, cs: set<Addr>)
    ensures Moved(s, s.fwq, l, cs)
  {
  }

  lemma RefusedHold(s: State, c: Addr, l: Addr)
    ensures Hold(Release(ReleaseCv(RefusedState(s, c, l), c), l), l) == Hold(s, l)
  {
  }

  lemma RefusalKeeps(s: State, c: Addr, l: Addr, e: Errno)
    requires Inv(s) && (c in s.condvars ==> s.condvars[c].lock == l)
    ensures var r := WaitRefused(Put(s, l, View(s, l), Object(s, l).waitcount), c, l, Cv(s, c, l), e, true);
            Inv(r.state) && r.asserted && r.outcome == Done(e) && Hold(r.state, l) == Hold(s, l)
  {
    hide Inv, Except, CallersOf, HoldsFor, Moved, LockInvUnreleased, CvInvUnreleased;
    hide LockInv, CvInv, SleeperInv, Settled;
    hide Release, ReleaseCv, CvWordAfter, Hold;
    Entry(s, c, l);
    SleepersNow(s, l);
    NothingMoved(s, l, {c});
    RefusedLock(s, c, l);
    RefusedCv(s, c, l);
    RefusedHold(s, c, l);
    var v, cv := View(s, l), Cv(s, c, l);
    assert Put(s, l, v, Object(s, l).waitcount).(fwq := s.fwq) == Put(s, l, v, Object(s, l).waitcount);
    KeepBoth(s, l, v, Object(s, l).waitcount, s.fwq, c, CvWordAfter(HAS_WAITERS, cv.waiters), cv);
    ReleaseCondvar(RefusedState(s, c, l), l, c);
  }

  // The state in which a condition wait has given up the lock.
  ghost predicate Dropped(s: State, t: nat, c: Addr, l: Addr) {
    && Except(s, l, {c}) && CallersOf(s, l, {c}) && LockInvUnreleased(s, l)
    && t !in s.calls && t !in s.fwq && ValidTid(t) && t !in Hold(s, l).writers && Object(s, l).owner != t
    && (c in s.condvars ==> s.condvars[c].lock == l)
    && Cv(s, c, l).waitcount == |OnCv(s.calls, c)|
    && Distinct(Cv(s, c, l).waiters)
    && Members(s.fwq, CvWaiters(c), Cv(s, c, l).waiters)
  }

  // Passing on the lock does not touch the waiters of a condition variable, nor
  // does the lock come back to the thread that gave it up.
  lemma PassOnOthers(s: State, t: nat, c: Addr, l: Addr)
    requires LockInv(s, l) && CvInv(s, c) && t !in s.fwq && ValidTid(t) && Hold(s, l).writers == {t}
    requires Unlock(View(s, l), t).1 == OK
    ensures var s1 := PassOn(s, l, Unlock(View(s, l), t).0);
            && t !in Hold(s1, l).writers && t !in s1.fwq && Members(s1.fwq, CvWaiters(c), Waiters(s, c))
            && Object(s1, l).owner != t
  {
    UnlockFacts(View(s, l), t);
  }

  lemma PassOnDrops(s: State, t: nat, c: Addr, l: Addr, v: LockView)
    requires Inv(s) && Awake(s, t) && Hold(s, l).writers == {t} && Unlock(View(s, l), t) == (v, OK)
    requires c in s.condvars ==> s.condvars[c].lock == l
    ensures Dropped(PassOn(s, l, v), t, c, l)
  {
    Entry(s, c, l);
    assert t !in s.fwq;
    var s1 := PassOn(s, l, v);
    PassOnHolds(s, l, v, t, {c});
    PassOnQueues(s, l, v, t);
    PassOnOthers(s, t, c, l);
    assert CvInv(s, c);
    hide Inv;
    hide Except;
    hide CallersOf;
    hide HoldsFor;
    hide Moved;
    hide LockInvUnreleased;
    hide LockInv;
    hide Unlock;
    hide Members;
    KeepPut(s, l, {c}, v, Object(s, l).waitcount, Cleared(s.fwq, Woken(View(s, l))));
    LocalWaiters(s1, l, {c});
  }

  // The lock and the condition variable once a thread waits on them.
  lemma WaitSleepLock(s: State, s1: State, t: nat, c: Addr, l: Addr)
    requires Dropped(s, t, c, l)
    requires s1.words == s.words && s1.locks == s.locks && s1.holders == s.holders
    requires s1.calls == s.calls && s1.fwq == s.fwq
    ensures LockInv(Sleep(s1, l, View(s, l), t, Wait(l, c)), l)
    ensures LockAssert(Object(Sleep(s1, l, View(s, l), t, Wait(l, c)), l))
  {
    hide Except;
    hide CallersOf;
    assert View(s1, l) == View(s, l) && LockCore(s1, l);
    SleepLock(s1, l, View(s, l), t, Wait(l, c));
  }

  lemma WaitSleepCv(s: State, t: nat, c: Addr, l: Addr)
    requires Dropped(s, t, c, l)
    ensures CvInv(WaitSleep(s, t, c, l, Cv(s, c, l), true).state, c)
  {
    hide Except;
    hide CallersOf;
    hide Settled;
    hide LockInvUnreleased;
    CountOnCv(s.calls, WaitSleep(s, t, c, l, Cv(s, c, l), true).state.calls, t, c);
  }

  lemma WaitSleepKeeps(s: State, t: nat, c: Addr, l: Addr)
    requires Dropped(s, t, c, l)
    ensures var r := WaitSleep(s, t, c, l, Cv(s, c, l), true);
            Inv(r.state) && r.asserted && r.outcome == Blocked
  {
    hide Inv;
    hide Except;
    hide CallersOf;
    hide LockInv;
    hide CvInv;
    hide LockInvUnreleased;
    hide Members;
    hide Distinct;
    var cv := Cv(s, c, l);
    var cv' := Condvar(l, cv.waiters + [t], cv.waitcount + 1);
    var s1 := PutCv(s, c, HAS_WAITERS, cv');
    WaitSleepLock(s, s1, t, c, l);
    WaitSleepCv(s, t, c, l);
    KeepPutCv(s, l, {c}, c, HAS_WAITERS, cv');
    LocalWaiters(s1, l, {c});
    KeepSleep(s1, l, {c}, View(s, l), t, Wait(l, c));
    Whole(Sleep(s1, l, View(s, l), t, Wait(l, c)), l, {c});
  }

  lemma DroppedRelocks(s: State, t: nat, c: Addr, l: Addr)
    requires Dropped(s, t, c, l)
    ensures var cv := Cv(s, c, l);
            Relocking(PutCv(s, c, HAS_WAITERS, cv.(waitcount := cv.waitcount + 1)), t, c, l)
  {
    hide Except;
    hide CallersOf;
    hide LockInvUnreleased;
    hide Members;
    hide Distinct;
    var cv := Cv(s, c, l);
    var cv' := cv.(waitcount := cv.waitcount + 1);
    var s1 := PutCv(s, c, HAS_WAITERS, cv');
    UnreleasedCongruence(s, s1, l);
    KeepPutCv(s, l, {c}, c, HAS_WAITERS, cv');
    LocalWaiters(s1, l, {c});
  }

  lemma DroppedOwner(s: State, t: nat, c: Addr, l: Addr)
    requires Dropped(s, t, c, l)
    ensures Object(s, l).owner != t
  {
  }

  // What follows once the lock was given up.
  lemma DroppedKeeps(s: State, t: nat, c: Addr, l: Addr)
    requires Dropped(s, t, c, l)
    ensures var cv := Cv(s, c, l);
            var s1 := PutCv(s, c, HAS_WAITERS, cv.(waitcount := cv.waitcount + 1));
            var r := ReacquireStep(s1, t, c, l, ENOTSUP, true);
            && Inv(r.state) && r.asserted
            && (r.outcome == Blocked || (r.outcome == Done(ENOTSUP) && HeldBy(Hold(r.state, l), t)))
  {
    hide Dropped;
    hide Relocking;
    hide ReacquireStep;
    hide Inv;
    DroppedRelocks(s, t, c, l);
    DroppedOwner(s, t, c, l);
    var cv := Cv(s, c, l);
    ReacquireKeeps(PutCv(s, c, HAS_WAITERS, cv.(waitcount := cv.waitcount + 1)), t, c, l, ENOTSUP, true);
  }

  /* futex_op_condvar_wait up to its first sleep or its return. Whenever it
     returns, the caller holds the lock. It names the wrong lock, or may not drop
     it, exactly when it returns EINVAL or EPERM. */
  lemma WaitKeeps(s: State, t: nat, c: Addr, l: Addr, clock: bool)
    requires Inv(s) && Awake(s, t) && t in Hold(s, l).writers
    ensures var r := WaitStep(s, t, c, l, clock);
            && Inv(r.state) && r.asserted && r.outcome != Fault
            && (r.outcome.Done? ==> r.outcome.err in {EINVAL, EPERM, ENOTSUP} && t in Hold(r.state, l).writers)
            && (r.outcome == Done(EINVAL) <==> c in s.condvars && s.condvars[c].lock != l)
            && (r.outcome == Done(EPERM) <==> (c in s.condvars ==> s.condvars[c].lock == l)
                                              && Object(s, l).owner !in {LOCK_UNMANAGED, LOCK_OWNER_UNKNOWN, t})
            && (clock ==> r.outcome != Done(ENOTSUP))
  {
    hide Inv;
    hide LockInv;
    hide CvInv;
    hide Except;
    hide CallersOf;
    hide LockAssert;
    hide CondvarAssert;
    hide Unlock;
    hide WaitRefused;
    hide WaitSleep;
    hide ReacquireStep;
    hide Dropped;
    hide Settled;
    if c in s.condvars && s.condvars[c].lock != l {
    } else {
      Entry(s, c, l);
      ExclusiveWriter(s, t, l);
      UnlockFacts(View(s, l), t);
      var (v, e) := Unlock(View(s, l), t);
      if e != OK {
        RefusalKeeps(s, c, l, e);
      } else {
        PassOnDrops(s, t, c, l, v);
        if clock {
          WaitSleepKeeps(PassOn(s, l, v), t, c, l);
        } else {
          DroppedKeeps(PassOn(s, l, v), t, c, l);
        }
      }
    }
  }
}
