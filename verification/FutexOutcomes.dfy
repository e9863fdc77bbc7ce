/**
 Who gets the lock, and when calls fail: the order of grants and signals, the
 accuracy of the recorded owner, and runs on which the code does not meet what
 its comments promise.
 */
module FutexOutcomes {
  import opened LockWords
  import opened FutexLocks
  import opened FutexSteps
  import opened FutexInvariant
  import opened FutexLockCalls
  import opened FutexCondvarCalls
  import opened FutexResume
  import opened FutexSignal
  import opened FutexRuns
  import opened FutexQueues

  // ---------- Order ----------

  /* Unless another owner is recorded, an unlock succeeds. It grants the lock to the
     oldest waiting writer, before any reader; without waiting writers, to all waiting
     readers together. All other waiters stay where they are. */
  lemma UnlockGrantsInOrder(s: State, t: nat, l: Addr)
    requires Reachable(s) && Enabled(s, SysUnlock(t, l))
    requires Object(s, l).owner in {LOCK_UNMANAGED, LOCK_OWNER_UNKNOWN, t}
    ensures UnlockStep(s, t, l).outcome == Done(OK)
    ensures var s' := UnlockStep(s, t, l).state;
            var (h, o, o') := (Hold(s', l), Object(s, l), Object(s', l));
            && (o.writers != [] ==> HeldBy(h, o.writers[0]))
            && (o.writers != [] ==> o'.writers == o.writers[1..] && o'.readers == o.readers)
            && (o.writers == [] ==> h.writers == {} && h.readers == multiset(o.readers))
            && (o.writers == [] ==> o'.writers == o'.readers == [])
            && SameWaiters(s, s', Woken(View(s, l)))
            && (forall u :: u in Woken(View(s, l)) ==> u !in s'.fwq)
  {
    hide Inv, UnlockStep, HeldBy, SameWaiters, Woken;
    ReachableInv(s);
    UnlockKeeps(s, t, l);
    UnlockQueues(s, t, l);
  }

  lemma TryWrlockBusy(v: LockView, tid: nat, force: bool)
    requires Settled(v) && ValidTid(tid) && TryWrlock(v, tid, force).1 == EBUSY
    ensures !Idle(v.hold)
  {
  }

  lemma SignalledCv(s: State, c: Addr, l: Addr)
    requires c in s.condvars && s.condvars[c].waitcount >= |s.condvars[c].waiters|
    ensures Waiters(Release(ReleaseCv(s, c), l), c) == s.condvars[c].waiters
    ensures Release(ReleaseCv(s, c), l).fwq == s.fwq
  {
  }

  // The condition variable and the lock after a signal that moved k waiters.
  lemma MovedInOrder(s: State, c: Addr, v: LockView, k: nat, granted: bool, s': State)
    requires Inv(s) && c in s.condvars && 1 <= k <= |s.condvars[c].waiters|
    requires var s1 := SignalMoves(s, c, v, k, granted);
             && CondvarAssert(s1, s1.condvars[c])
             && s' == Release(ReleaseCv(s1, c), s.condvars[c].lock)
             && View(s', s.condvars[c].lock) == View(s1, s.condvars[c].lock)
    ensures var w := s.condvars[c].waiters;
            && Waiters(s', c) == w[k..]
            && Object(s', s.condvars[c].lock).writers == v.writers + w[if granted then 1 else 0..k]
            && SameWaiters(s, s', w[..k])
  {
    hide Inv;
    hide CvInv;
    hide SignalQueues;
    hide Release;
    hide ReleaseCv;
    hide LockAssert;
    var w := s.condvars[c].waiters;
    var l := s.condvars[c].lock;
    CvHere(s, c);
    SignalTargets(s, c, k, granted);
    var s1 := SignalMoves(s, c, v, k, granted);
    SignalledCv(s1, c, l);
    assert View(s', l).writers == Object(s', l).writers;
    var i := if granted then 1 else 0;
    assert w[..k] == w[..i] + w[i..k];
  }

  lemma CvHere(s: State, c: Addr)
    requires Inv(s) && c in s.condvars
    ensures Distinct(s.condvars[c].waiters) && Members(s.fwq, CvWaiters(c), s.condvars[c].waiters)
  {
    assert CvInv(s, c);
  }

  /* A signal of n to a condition variable with waiters succeeds unless the oldest
     of them is the recorded owner of the lock. It then removes exactly the
     min(n, length) oldest waiters, in order. If the lock is free the first of them gets it and the others queue
     up for it; otherwise all of them queue up, behind the writers already there.
     All other waiters stay where they are. */
  lemma SignalTakesOldest(s: State, c: Addr, n: nat)
    requires Reachable(s) && n > 0 && c in s.condvars && s.condvars[c].waiters != []
    requires Object(s, s.condvars[c].lock).owner != s.condvars[c].waiters[0]
    ensures SignalStep(s, c, n).outcome == Done(OK)
    ensures var s' := SignalStep(s, c, n).state;
            var w := s.condvars[c].waiters;
            var l := s.condvars[c].lock;
            var k := Min(n, |w|);
            && Waiters(s', c) == w[k..]
            && (Idle(Hold(s, l)) ==> HeldBy(Hold(s', l), w[0]) && Object(s', l).writers == w[1..k])
            && (!Idle(Hold(s, l)) ==> Hold(s', l) == Hold(s, l)
                                      && Object(s', l).writers == Object(s, l).writers + w[..k])
            && SameWaiters(s, s', w[..k])
  {
    hide Inv;
    hide Loose;
    hide SignalMoves;
    hide Except;
    hide CallersOf;
    hide LockInv;
    hide CvInv;
    hide Settled;
    hide Release;
    hide ReleaseCv;
    hide LockAssert;
    hide CondvarAssert;
    hide TryWrlock;
    ReachableInv(s);
    var cv := s.condvars[c];
    var l := cv.lock;
    Entry(s, c, l);
    WaitersWait(s, c);
    assert cv.waiters[0] in Waiters(s, c);
    var force := n > 1 && |cv.waiters| > 1;
    TryWrlockFacts(View(s, l), cv.waiters[0], force);
    var (v, e) := TryWrlock(View(s, l), cv.waiters[0], force);
    var k := Min(n, |cv.waiters|);
    if e == EBUSY {
      TryWrlockBusy(View(s, l), cv.waiters[0], force);
    }
    MovesKeep(s, c, v, k, e == OK);
    MovedInOrder(s, c, v, k, e == OK, SignalStep(s, c, n).state);
  }

  // ---------- The recorded owner ----------

  /* The exclusive holder's unlock succeeds exactly when the recorded owner is
     unset, unknown or itself, and otherwise changes nobody's hold. */
  lemma UnlockSucceedsIff(s: State, t: nat, l: Addr)
    requires Reachable(s) && Enabled(s, SysUnlock(t, l))
    ensures UnlockStep(s, t, l).outcome == Done(OK)
            <==> Object(s, l).owner in {LOCK_UNMANAGED, LOCK_OWNER_UNKNOWN, t}
    ensures UnlockStep(s, t, l).outcome != Done(OK) ==>
              UnlockStep(s, t, l).outcome == Done(EPERM) && Hold(UnlockStep(s, t, l).state, l) == Hold(s, l)
  {
    hide UnlockStep;
    hide Inv;
    ReachableInv(s);
    UnlockKeeps(s, t, l);
  }

  /* A signal is refused exactly when the oldest waiter, which does not hold the
     lock, is recorded as its owner; the signal is then lost. */
  lemma SignalRefusedIff(s: State, c: Addr, n: nat)
    requires Reachable(s) && n > 0 && c in s.condvars && s.condvars[c].waiters != []
    ensures SignalStep(s, c, n).outcome == Done(EDEADLK)
            <==> Object(s, s.condvars[c].lock).owner == s.condvars[c].waiters[0]
    ensures SignalStep(s, c, n).outcome == Done(EDEADLK) ==> SignalStep(s, c, n).state == s
    ensures s.condvars[c].waiters[0] !in Hold(s, s.condvars[c].lock).writers
  {
    hide SignalStep;
    hide Inv;
    ReachableInv(s);
    SignalKeeps(s, c, n);
    WaitersWait(s, c);
    assert s.condvars[c].waiters[0] in Waiters(s, c);
  }

  /* Locking for writing reports a deadlock exactly when the thread is the recorded
     owner, or holds the lock while it is not managed. */
  lemma WrlockRefusedIff(s: State, t: nat, l: Addr, clock: bool)
    requires Reachable(s) && Enabled(s, SysWrlock(t, l, clock))
    ensures WrlockStep(s, t, l, clock).outcome == Done(EDEADLK)
            <==> Object(s, l).owner == t || Word(s, l) == LockWord(t, true, false)
    ensures WrlockStep(s, t, l, clock).outcome == Done(EDEADLK) ==>
              t in Hold(s, l).writers || Stale(Hold(s, l), t)
  {
    hide WrlockStep;
    hide Inv;
    ReachableInv(s);
    WrlockKeeps(s, t, l, clock);
  }

  /* A condition wait by the holder of a lock is refused exactly when another owner is
     recorded, and it does name the lock of the waiters already there. */
  lemma WaitRefusedIff(s: State, t: nat, c: Addr, l: Addr, clock: bool)
    requires Reachable(s) && Enabled(s, SysWait(t, c, l, clock))
    ensures WaitStep(s, t, c, l, clock).outcome == Done(EPERM)
            <==> Object(s, l).owner !in {LOCK_UNMANAGED, LOCK_OWNER_UNKNOWN, t}
                 && !WrongLock(s, SysWait(t, c, l, clock))
  {
    hide WaitStep;
    hide Inv;
    ReachableInv(s);
    WaitKeeps(s, t, c, l, clock);
  }

  /* As long as a lock never had two readers at once, its holder can always unlock
     it and wait with it, no condition wait or signal reports a deadlock, and locking
     for writing does so only to the holder. */
  lemma FewReadersNoFailure(s: State, op: Op, l: Addr)
    requires Reachable(s) && Enabled(s, op) && Hold(s, l).peak <= 1
    ensures op.SysUnlock? && op.l == l ==> Step(s, op).outcome == Done(OK)
    ensures op.SysWait? && op.l == l ==> Step(s, op).outcome != Done(EPERM)
    ensures op.SysWrlock? && op.l == l && op.t !in Hold(s, l).writers ==> Step(s, op).outcome != Done(EDEADLK)
    ensures forall t :: InWait(s, op, t, l) ==> Step(s, op).outcome != Done(EDEADLK)
    ensures op.SysSignal? && op.c in s.condvars && s.condvars[op.c].lock == l && !SignalsNobody(s, op) ==>
              Step(s, op).outcome == Done(OK)
  {
    hide Inv;
    hide UnlockStep;
    hide WaitStep;
    hide SignalStep;
    hide ResumeStep;
    hide RdlockStep;
    hide WrlockStep;
    ReachableInv(s);
    OwnerRight(s, l);
    MutualExclusion(s, l);
    if op.SysUnlock? && op.l == l {
      UnlockSucceedsIff(s, op.t, l);
    }
    if op.SysWait? && op.l == l {
      WaitKeeps(s, op.t, op.c, l, op.clock);
    }
    if op.SysWrlock? && op.l == l {
      WrlockRefusedIff(s, op.t, l, op.clock);
    }
    forall t | InWait(s, op, t, l) ensures Step(s, op).outcome != Done(EDEADLK) {
      CondvarReturnsHolding(s, op, t, l);
      if op.Resume? && Denied(s, t, op.timedout) {
        WaitingHoldsNot(s, t);
      }
    }
    if op.SysSignal? && op.c in s.condvars && s.condvars[op.c].lock == l {
      SignalKeeps(s, op.c, op.n);
      WordTells(s, op.c);
    }
  }

  // A thread that sleeps on a condition variable does not hold the lock.
  lemma WaitingHoldsNot(s: State, t: nat)
    requires Inv(s) && t in s.calls && t in s.fwq && s.calls[t].OnCondvar()
    ensures t !in Hold(s, s.calls[t].lock).writers && ValidTid(t)
  {
    assert SleeperInv(s, t);
  }

  lemma OwnerRight(s: State, l: Addr)
    requires Inv(s)
    ensures Word(s, l).managed && Hold(s, l).peak == 0 ==>
              HeldBy(Hold(s, l), Object(s, l).owner) && ValidTid(Object(s, l).owner)
    ensures Hold(s, l).peak == 1 ==> Object(s, l).owner in {LOCK_UNMANAGED, LOCK_OWNER_UNKNOWN} + Hold(s, l).writers
    ensures !Word(s, l).managed ==> Object(s, l).owner == LOCK_UNMANAGED
  {
    assert LockInv(s, l);
  }

  /* On a lock that was never read-locked, the recorded owner of the managed lock
     is exactly the thread in its word, and an unlock by any other thread returns
     EPERM and changes nothing at all. */
  lemma NeverReadLocked(s: State, l: Addr, u: nat)
    requires Reachable(s) && Word(s, l).managed && Hold(s, l).peak == 0
    ensures Object(s, l).owner == Word(s, l).count && HeldBy(Hold(s, l), Word(s, l).count)
    ensures u != Word(s, l).count ==> UnlockStep(s, u, l).outcome == Done(EPERM) && UnlockStep(s, u, l).state == s
  {
    hide Inv;
    ReachableInv(s);
    MutualExclusion(s, l);
    OwnerRight(s, l);
    if u != Word(s, l).count {
      Stranger(s, u, l);
    }
  }

  // An unlock by a thread that is not the known owner of a managed lock.
  lemma Stranger(s: State, u: nat, l: Addr)
    requires Inv(s) && Word(s, l).managed && Object(s, l).owner !in {LOCK_OWNER_UNKNOWN, u}
    ensures UnlockStep(s, u, l).outcome == Done(EPERM) && UnlockStep(s, u, l).state == s
  {
    hide Inv, Loose;
    var v := View(s, l);
    ManagedHere(s, l);
    assert Unlock(v, u) == (v, EPERM);
    assert Put(s, l, v, Object(s, l).waitcount) == s;
  }

  lemma ManagedHere(s: State, l: Addr)
    requires Inv(s) && Word(s, l).managed
    ensures l in s.locks && l in s.words && l in s.holders
    ensures s.locks[l].owner != LOCK_UNMANAGED && s.locks[l].waitcount != 0
  {
    assert LockInv(s, l);
  }

  // ---------- Runs on which promises fail ----------

  lemma {:induction false} RunAppend(s: State, ops: seq<Op>, op: Op)
    requires ValidRun(s, ops) && Enabled(Exec(s, ops), op)
    ensures ValidRun(s, ops + [op]) && Exec(s, ops + [op]) == Step(Exec(s, ops), op).state
    decreases |ops|
  {
    hide Step;
    hide Enabled;
    if ops == [] {
      assert ops + [op] == [op] && [op][1..] == [];
      assert ValidRun(Step(s, op).state, []);
    } else {
      RunAppend(Step(s, ops[0]).state, ops[1..], op);
      assert (ops + [op])[1..] == ops[1..] + [op];
    }
  }

  lemma ReachableStep(s: State, op: Op)
    requires Reachable(s) && Enabled(s, op)
    ensures Reachable(Step(s, op).state)
  {
    hide Step;
    hide Enabled;
    var ops :| ValidRun(INITIAL, ops) && s == Exec(INITIAL, ops);
    RunAppend(INITIAL, ops, op);
  }

  lemma ReachableInitial()
    ensures Reachable(INITIAL)
  {
    assert ValidRun(INITIAL, []) && Exec(INITIAL, []) == INITIAL;
  }

  /* A condition wait whose deadline passed fails to relock exactly when its own
     thread is recorded as the owner of the lock, which it does not hold. */
  lemma RelockFailsIff(s: State, t: nat)
    requires Reachable(s) && t in s.calls && s.calls[t].Wait? && t in s.fwq && s.fwq[t] == CvWaiters(s.calls[t].cv)
    ensures ResumeStep(s, t, true).outcome == Done(EDEADLK) <==> Object(s, s.calls[t].lock).owner == t
  {
    hide Inv;
    hide ResumeStep;
    ReachableInv(s);
    ResumeWaitTimeout(s, t);
  }

  // Two readers hold the lock when a writer starts to wait.
  lemma ReadersThenWriter() returns (s: State)
    ensures Reachable(s) && s.calls == map[12 := Wrlock(0)] && s.fwq == map[12 := LockWriters(0)]
    ensures Word(s, 0) == LockWord(2, false, true) && Hold(s, 0) == Holders({}, multiset{10, 11}, 2)
    ensures Object(s, 0) == LockObject(2, [12], [], 1) && s.condvars == map[]
  {
    hide Reachable, UnlockStep, RdlockStep, WaitStep, SignalStep, ResumeStep;
    ReachableInitial();
    s := INITIAL;
    ReachableStep(s, FastRdlock(10, 0));
    s := Step(s, FastRdlock(10, 0)).state;
    ReachableStep(s, FastRdlock(11, 0));
    s := Step(s, FastRdlock(11, 0)).state;
    ReachableStep(s, SysWrlock(12, 0, true));
    s := Step(s, SysWrlock(12, 0, true)).state;
  }

  lemma OneReaderLeft() returns (s: State)
    ensures Reachable(s) && s.calls == map[12 := Wrlock(0)]
    ensures Word(s, 0) == LockWord(1, false, true) && Hold(s, 0) == Holders({}, multiset{11}, 2)
    ensures Object(s, 0) == LockObject(2, [12], [], 1) && s.condvars == map[]
  {
    hide Reachable, UnlockStep, RdlockStep, WrlockStep, WaitStep, SignalStep, ResumeStep;
    s := ReadersThenWriter();
    assert multiset{10, 11} - multiset{10} == multiset{11};
    ReachableStep(s, FastRdUnlock(10, 0));
    s := Step(s, FastRdUnlock(10, 0)).state;
  }

  // The last reader has become the only holder, while 2 is recorded as the owner.
  lemma HolderNotOwner() returns (s: State)
    ensures Reachable(s) && 11 !in s.calls && HeldBy(Hold(s, 0), 11)
    ensures Object(s, 0) == LockObject(2, [12], [], 1) && 1 !in s.condvars
  {
    hide Reachable, UnlockStep, RdlockStep, WrlockStep, WaitStep, SignalStep, ResumeStep;
    s := OneReaderLeft();
    ReachableStep(s, Upgrade(11, 0));
    s := Step(s, Upgrade(11, 0)).state;
  }

  /* The kernel has recorded the number of the readers as the owner, and the last
     one, which has become the only holder, cannot unlock any more. */
  lemma StaleOwnerBlocksUnlock() returns (s: State)
    ensures Reachable(s) && Enabled(s, SysUnlock(11, 0))
    ensures HeldBy(Hold(s, 0), 11) && Object(s, 0).writers == [12]
    ensures UnlockStep(s, 11, 0).outcome == Done(EPERM)
  {
    hide Reachable, UnlockStep;
    s := HolderNotOwner();
    UnlockSucceedsIff(s, 11, 0);
  }

  /* Nor can it wait on a condition variable. */
  lemma StaleOwnerBlocksWait() returns (s: State)
    ensures Reachable(s) && Enabled(s, SysWait(11, 1, 0, true)) && HeldBy(Hold(s, 0), 11)
    ensures WaitStep(s, 11, 1, 0, true).outcome == Done(EPERM)
  {
    hide Reachable, WaitStep;
    s := HolderNotOwner();
    WaitRefusedIff(s, 11, 1, 0, true);
  }

  /* Thread 2, which holds nothing, is told that locking for writing would be a
     deadlock. */
  lemma StaleOwnerBlocksLock() returns (s: State)
    ensures Reachable(s) && Enabled(s, SysWrlock(2, 0, true))
    ensures 2 !in Hold(s, 0).writers && 2 !in Hold(s, 0).readers
    ensures WrlockStep(s, 2, 0, true).outcome == Done(EDEADLK)
  {
    hide Reachable, WrlockStep;
    s := ReadersThenWriter();
    WrlockRefusedIff(s, 2, 0, true);
  }

  // A thread waits on condition variable 1 of lock 0.
  lemma OneWaiter(t: nat) returns (s: State)
    requires ValidTid(t)
    ensures Reachable(s)
    ensures Word(s, 0) == UNLOCKED && Hold(s, 0) == NOBODY && CvWord(s, 1) == HAS_WAITERS
    ensures s.locks == map[0 := LockObject(LOCK_UNMANAGED, [], [], 1)] && s.condvars == map[1 := Condvar(0, [t], 1)]
    ensures s.calls == map[t := Wait(0, 1)] && s.fwq == map[t := CvWaiters(1)]
  {
    hide Reachable;
    ReachableInitial();
    s := INITIAL;
    ReachableStep(s, FastWrlock(t, 0));
    s := Step(s, FastWrlock(t, 0)).state;
    assert Hold(s, 0) == Holders({t}, multiset{}, 0);
    ReachableStep(s, SysWait(t, 1, 0, true));
    assert Cleared(s.fwq, Woken(View(s, 0))) == map[] && Cv(s, 1, 0).waiters + [t] == [t];
    s := Step(s, SysWait(t, 1, 0, true)).state;
  }

  // Two readers take the lock, and a writer queues up behind them.
  lemma TwoReadersAndWriter(t: nat) returns (s: State)
    requires ValidTid(t) && t < 10
    ensures Reachable(s) && s.calls.Keys == {t, 12} && s.fwq.Keys == {t, 12}
    ensures s.calls[t] == Wait(0, 1) && s.fwq[t] == CvWaiters(1) && Object(s, 0).owner == 2
    ensures s.condvars == map[1 := Condvar(0, [t], 1)]
  {
    hide Reachable, UnlockStep, RdlockStep, WaitStep, SignalStep, ResumeStep;
    s := OneWaiter(t);
    ReachableStep(s, FastRdlock(10, 0));
    s := Step(s, FastRdlock(10, 0)).state;
    ReachableStep(s, FastRdlock(11, 0));
    s := Step(s, FastRdlock(11, 0)).state;
    assert Word(s, 0) == LockWord(2, false, false);
    ReachableStep(s, SysWrlock(12, 0, true));
    s := Step(s, SysWrlock(12, 0, true)).state;
  }

  /* Thread 2 waits on a condition variable while two readers and a waiting
     writer make 2 the recorded owner of the lock. The condition wait of thread 2
     times out into EDEADLK without the lock. */
  lemma StaleOwnerBreaksWait() returns (s: State)
    ensures Reachable(s) && Enabled(s, Resume(2, true)) && s.calls[2].Wait?
    ensures ResumeStep(s, 2, true).outcome == Done(EDEADLK)
    ensures 2 !in Hold(ResumeStep(s, 2, true).state, 0).writers
  {
    hide Reachable;
    hide ResumeStep;
    s := TwoReadersAndWriter(2);
    RelockFailsIff(s, 2);
    CondvarReturnsHolding(s, Resume(2, true), 2, 0);
  }

  /* In the same state, a signal to the condition variable is refused and lost. */
  lemma StaleOwnerLosesSignal() returns (s: State)
    ensures Reachable(s) && s.condvars == map[1 := Condvar(0, [2], 1)] && 2 !in Hold(s, 0).writers
    ensures SignalStep(s, 1, 1).outcome == Done(EDEADLK) && SignalStep(s, 1, 1).state == s
  {
    hide Reachable;
    hide SignalStep;
    s := TwoReadersAndWriter(2);
    SignalRefusedIff(s, 1, 1);
  }

  /* A waiter is requeued onto the lock that the signaller holds. The condition
     variable is still referenced, but its queue is empty: a second signal reads
     the first element of an empty queue. */
  lemma SecondSignalFaults() returns (s: State)
    ensures Reachable(s) && SignalStep(s, 1, 1).outcome == Fault
  {
    hide Reachable;
    s := OneWaiter(10);
    ReachableStep(s, FastWrlock(11, 0));
    s := Step(s, FastWrlock(11, 0)).state;
    ReachableStep(s, SysSignal(1, 1));
    s := Step(s, SysSignal(1, 1)).state;
  }
}
