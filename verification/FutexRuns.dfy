/**
 Theorems over all runs of the futex service: any interleaving of system calls,
 resumptions, timeouts, spurious wake-ups and userspace fast paths.
 */
module FutexRuns {
  import opened LockWords
  import opened FutexLocks
  import opened FutexSteps
  import opened FutexInvariant
  import opened FutexFrames
  import opened FutexLockCalls
  import opened FutexCondvarCalls
  import opened FutexResume
  import opened FutexSignal

  // ---------- Userspace ----------

  lemma FastElsewhere(s: State, l: Addr, w: LockWord, h: Holders)
    requires CallersOf(s, l, {})
    ensures Confined(s, Fast(s, l, w, h).state, 0, l, {})
  {
  }

  lemma FastSleepers(s: State, l: Addr, w: LockWord, h: Holders)
    requires Inv(s) && HoldsFor(s, l, s.fwq, h)
    ensures SleepersOn(Fast(s, l, w, h).state, l)
  {
    hide LockInv;
    hide CvInv;
    var s' := Fast(s, l, w, h).state;
    forall u | u in s'.calls && s'.calls[u].lock == l ensures SleeperInv(s', u) {
      assert SleeperInv(s, u);
    }
  }

  lemma FastLock(s: State, l: Addr, w: LockWord, h: Holders)
    requires Inv(s) && Settled(View(s, l).(word := w, hold := h))
    ensures LockInv(Fast(s, l, w, h).state, l)
  {
    assert LockInv(s, l);
    assert View(Fast(s, l, w, h).state, l) == View(s, l).(word := w, hold := h);
  }

  lemma FastKeeps(s: State, l: Addr, w: LockWord, h: Holders)
    requires Inv(s) && HoldsFor(s, l, s.fwq, h) && Settled(View(s, l).(word := w, hold := h))
    ensures Inv(Fast(s, l, w, h).state)
  {
    hide *;
    InvExcept(s, l, {});
    FastElsewhere(s, l, w, h);
    FastSleepers(s, l, w, h);
    FastLock(s, l, w, h);
    Frame(s, Fast(s, l, w, h).state, 0, l, {});
    Whole(Fast(s, l, w, h).state, l, {});
  }

  lemma SettledHere(s: State, l: Addr)
    requires Inv(s)
    ensures Settled(View(s, l)) && HoldsFor(s, l, s.fwq, Hold(s, l))
  {
    assert LockInv(s, l);
    HoldsNow(s, l);
  }

  // A thread that is awake gave up what it held.
  lemma HoldsLess(s: State, l: Addr, h: Holders, h': Holders, t: nat)
    requires HoldsFor(s, l, s.fwq, h) && t !in s.calls
    requires h.writers - {t} <= h'.writers <= h.writers + {t}
    requires forall u :: u != t ==> h'.readers[u] == h.readers[u]
    ensures HoldsFor(s, l, s.fwq, h')
  {
  }

  lemma SharedHolds(s: State, l: Addr, h: Holders, t: nat)
    requires HoldsFor(s, l, s.fwq, h) && t !in s.calls
    ensures HoldsFor(s, l, s.fwq, Shared(h, multiset{t}))
  {
    HoldsLess(s, l, h, Shared(h, multiset{t}), t);
  }

  // The word and holders of a lock, on any lock that can be acquired or released at once.
  lemma FastAcquireKeeps(s: State, t: nat, l: Addr)
    requires Inv(s) && Awake(s, t) && !Word(s, l).managed && !Word(s, l).wrlocked
    ensures Inv(Fast(s, l, Word(s, l).(count := Word(s, l).count + 1), Shared(Hold(s, l), multiset{t})).state)
    ensures Word(s, l) == UNLOCKED ==>
              Inv(Fast(s, l, LockWord(t, true, false), Hold(s, l).(writers := Hold(s, l).writers + {t})).state)
  {
    hide Inv;
    hide HoldsFor;
    hide Settled;
    hide Shared;
    hide Fast;
    var w := Word(s, l);
    var h := Hold(s, l);
    SettledHere(s, l);
    FastAcquireFacts(View(s, l), t);
    SharedHolds(s, l, h, t);
    FastKeeps(s, l, w.(count := w.count + 1), Shared(h, multiset{t}));
    if w == UNLOCKED {
      HoldsLess(s, l, h, h.(writers := h.writers + {t}), t);
      FastKeeps(s, l, LockWord(t, true, false), h.(writers := h.writers + {t}));
    }
  }

  lemma FastReadReleaseKeeps(s: State, t: nat, l: Addr)
    requires Inv(s) && Awake(s, t) && t in Hold(s, l).readers && (Word(s, l).managed ==> Word(s, l).count > 1)
    ensures Word(s, l).count > 0
    ensures Inv(Fast(s, l, Word(s, l).(count := Word(s, l).count - 1),
                     Hold(s, l).(readers := Hold(s, l).readers - multiset{t})).state)
  {
    hide Inv;
    hide HoldsFor;
    hide Settled;
    hide Shared;
    hide Fast;
    var w := Word(s, l);
    var h := Hold(s, l);
    SettledHere(s, l);
    FastReleaseFacts(View(s, l), t);
    HoldsLess(s, l, h, h.(readers := h.readers - multiset{t}), t);
    FastKeeps(s, l, w.(count := w.count - 1), h.(readers := h.readers - multiset{t}));
  }

  lemma FastWriteReleaseKeeps(s: State, t: nat, l: Addr)
    requires Inv(s) && Awake(s, t) && t in Hold(s, l).writers && !Word(s, l).managed
    ensures Inv(Fast(s, l, UNLOCKED, Hold(s, l).(writers := Hold(s, l).writers - {t})).state)
  {
    hide Inv;
    hide HoldsFor;
    hide Settled;
    hide Shared;
    hide Fast;
    var h := Hold(s, l);
    SettledHere(s, l);
    FastReleaseFacts(View(s, l), t);
    HoldsLess(s, l, h, h.(writers := h.writers - {t}), t);
    FastKeeps(s, l, UNLOCKED, h.(writers := h.writers - {t}));
  }

  lemma UpgradeKeeps(s: State, t: nat, l: Addr)
    requires Inv(s) && Awake(s, t) && t in Hold(s, l).readers && Word(s, l) == LockWord(1, false, true)
    ensures Inv(Fast(s, l, LockWord(t, true, true),
                     Hold(s, l).(writers := Hold(s, l).writers + {t},
                                 readers := Hold(s, l).readers - multiset{t})).state)
  {
    hide Inv;
    hide HoldsFor;
    hide Settled;
    hide Shared;
    hide Fast;
    var h := Hold(s, l);
    SettledHere(s, l);
    UpgradeFacts(View(s, l), t);
    HoldsLess(s, l, h, h.(writers := h.writers + {t}, readers := h.readers - multiset{t}), t);
    FastKeeps(s, l, LockWord(t, true, true), h.(writers := h.writers + {t}, readers := h.readers - multiset{t}));
  }

  // ---------- Every step and every run ----------

  lemma FirstError(s: State, t: nat)
    requires Inv(s) && t in s.calls && s.calls[t].Reacquire?
    ensures s.calls[t].first in {ETIMEDOUT, ENOTSUP}
  {
    assert SleeperInv(s, t);
  }

  // A condition wait that timed out in its queue while its thread is the recorded owner of the lock.
  predicate Denied(s: State, t: nat, timedout: bool) {
    && timedout && t in s.calls && s.calls[t].Wait?
    && t in s.fwq && s.fwq[t] == CvWaiters(s.calls[t].cv) && Object(s, s.calls[t].lock).owner == t
  }

  lemma ResumeKeeps(s: State, t: nat, timedout: bool)
    requires Inv(s) && t in s.calls && (timedout ==> !s.calls[t].Reacquire?)
    ensures var r := ResumeStep(s, t, timedout);
            && Inv(r.state) && r.asserted && r.outcome != Fault && r.outcome != Done(EINVAL)
            && (s.calls[t].OnCondvar() && r.outcome.Done? ==>
                  var h := Hold(r.state, s.calls[t].lock);
                  if r.outcome.err == EDEADLK then Stale(h, t) else t in h.writers)
            && (r.outcome == Done(EDEADLK) <==> Denied(s, t, timedout))
  {
    hide Inv;
    hide Finish;
    hide Return;
    hide ReacquireStep;
    hide Leave;
    if s.calls[t].Reacquire? {
      FirstError(s, t);
    }
    if t !in s.fwq {
      ResumeGranted(s, t, timedout);
    } else if s.fwq[t] == s.calls[t].Entered() && timedout {
      if s.calls[t].Wait? {
        ResumeWaitTimeout(s, t);
      } else {
        ResumeLockTimeout(s, t);
      }
    }
  }

  // A signal to a condition variable that has sleepers, but none in its queue.
  predicate SignalsNobody(s: State, op: Op) {
    op.SysSignal? && op.n > 0 && op.c in s.condvars && CvWord(s, op.c) == HAS_NO_WAITERS
  }

  // A condition wait that names another lock than the waiters already there.
  predicate WrongLock(s: State, op: Op) {
    op.SysWait? && op.c in s.condvars && s.condvars[op.c].lock != op.l
  }

  // A userspace fast path.
  predicate IsFast(op: Op) {
    op.FastRdlock? || op.FastWrlock? || op.FastRdUnlock? || op.FastWrUnlock? || op.Upgrade?
  }

  lemma FastStepKeeps(s: State, op: Op)
    requires Inv(s) && Enabled(s, op) && IsFast(op)
    ensures Inv(Step(s, op).state) && Step(s, op).asserted && Step(s, op).outcome == Done(OK)
  {
    hide Inv;
    match op {
      case FastRdlock(t, l) => FastAcquireKeeps(s, t, l);
      case FastWrlock(t, l) => FastAcquireKeeps(s, t, l);
      case FastRdUnlock(t, l) => FastReadReleaseKeeps(s, t, l);
      case FastWrUnlock(t, l) => FastWriteReleaseKeeps(s, t, l);
      case Upgrade(t, l) => UpgradeKeeps(s, t, l);
    }
  }

  /* Every step keeps the invariant and passes every assertion of the code. A null
     pointer is dereferenced, and EINVAL returned, in the cases named and no others. */
  lemma StepKeeps(s: State, op: Op)
    requires Inv(s) && Enabled(s, op)
    ensures var r := Step(s, op);
            && Inv(r.state) && r.asserted
            && (r.outcome == Fault <==> SignalsNobody(s, op))
            && (r.outcome == Done(EINVAL) <==> WrongLock(s, op))
  {
    hide Inv, Step;
    if IsFast(op) {
      FastStepKeeps(s, op);
    } else {
      CallKeeps(s, op);
    }
  }

  lemma CallKeeps(s: State, op: Op)
    requires Inv(s) && Enabled(s, op) && !IsFast(op)
    ensures var r := Step(s, op);
            && Inv(r.state) && r.asserted
            && (r.outcome == Fault <==> SignalsNobody(s, op))
            && (r.outcome == Done(EINVAL) <==> WrongLock(s, op))
  {
    hide Inv, Fast, RdlockStep, WrlockStep, UnlockStep, WaitStep, SignalStep, ResumeStep;
    match op {
      case SysRdlock(t, l, clock) => RdlockKeeps(s, t, l, clock);
      case SysWrlock(t, l, clock) => WrlockKeeps(s, t, l, clock);
      case SysUnlock(t, l) => UnlockKeeps(s, t, l);
      case SysWait(t, c, l, clock) => WaitKeeps(s, t, c, l, clock);
      case SysSignal(c, n) => SignalKeeps(s, c, n); WordTells(s, c);
      case Resume(t, timedout) => ResumeKeeps(s, t, timedout);
    }
  }

  lemma WordTells(s: State, c: Addr)
    requires Inv(s)
    ensures CvWord(s, c) != HAS_NO_WAITERS <==> Waiters(s, c) != []
  {
    assert CvInv(s, c);
  }

  lemma {:induction false} ExecKeeps(s: State, ops: seq<Op>)
    requires Inv(s) && ValidRun(s, ops)
    ensures Inv(Exec(s, ops))
    decreases |ops|
  {
    hide Inv;
    hide Step;
    if ops != [] {
      StepKeeps(s, ops[0]);
      ExecKeeps(Step(s, ops[0]).state, ops[1..]);
    }
  }

  // The states of all runs.
  ghost predicate Reachable(s: State) {
    exists ops :: ValidRun(INITIAL, ops) && s == Exec(INITIAL, ops)
  }

  lemma ReachableInv(s: State)
    requires Reachable(s)
    ensures Inv(s)
  {
    hide Inv;
    var ops :| ValidRun(INITIAL, ops) && s == Exec(INITIAL, ops);
    InitialInv();
    ExecKeeps(INITIAL, ops);
  }

  // ---------- Theorems ----------

  /* Mutual exclusion. The word always says exactly who was told to hold the
     lock; there is one writer and nobody else, or there are only readers. */
  lemma MutualExclusion(s: State, l: Addr)
    requires Reachable(s)
    ensures var h := Hold(s, l);
            var w := Word(s, l);
            && (w.wrlocked ==> h.writers == {w.count} && h.readers == multiset{})
            && (!w.wrlocked ==> h.writers == {} && |h.readers| == w.count)
            && (forall a, b :: a in h.writers && b in h.writers ==> a == b)
            && (h.writers == {} || h.readers == multiset{})
  {
    ReachableInv(s);
    assert LockInv(s, l);
  }

  /* While a thread holds a lock for writing, no other thread's fast path changes
     its word, so the store that hands the lock over overwrites nothing. */
  lemma WriterUndisturbed(s: State, t: nat, l: Addr, op: Op)
    requires Reachable(s) && t in Hold(s, l).writers && Enabled(s, op) && IsFast(op) && op.l == l
    ensures op.FastWrUnlock? && op.t == t
  {
    MutualExclusion(s, l);
  }

  /* A lock is kernel-managed exactly while threads are queued on it, and no
     thread is ever queued on a lock that nobody holds. */
  lemma ManagedWhileQueued(s: State, l: Addr)
    requires Reachable(s)
    ensures Word(s, l).managed <==> l in s.locks && s.locks[l].owner != LOCK_UNMANAGED
    ensures Word(s, l).managed <==> l in s.locks && (s.locks[l].writers != [] || s.locks[l].readers != [])
    ensures Word(s, l).managed ==> Held(Hold(s, l))
  {
    ReachableInv(s);
    assert LockInv(s, l);
  }

  /* On every run every assertion of the code holds and a managed word without an
     entry never occurs. The one thing dereferenced through a null pointer is the
     first waiter, when a signal finds an object whose word says that nobody waits. */
  lemma AssertionsHold(s: State, op: Op)
    requires Reachable(s) && Enabled(s, op)
    ensures Step(s, op).asserted
    ensures Step(s, op).outcome == Fault <==> SignalsNobody(s, op)
    ensures Step(s, op).outcome == Done(EINVAL) <==> WrongLock(s, op)
  {
    hide Step, SignalsNobody, WrongLock;
    hide Inv;
    ReachableInv(s);
    StepKeeps(s, op);
  }

  // The thread, if any, for which an operation executes a condition wait on a lock.
  predicate InWait(s: State, op: Op, t: nat, l: Addr) {
    || (op.SysWait? && op.t == t && op.l == l)
    || (op.Resume? && op.t == t && t in s.calls && s.calls[t].OnCondvar() && s.calls[t].lock == l)
  }

  /* A condition wait that returns, returns with the caller alone holding the
     lock: woken directly, requeued and granted later, or timed out and relocked.
     The one exception is EDEADLK. It is returned exactly to a thread that timed
     out in the condition variable's queue while it is recorded as the owner of the
     lock, and then the lock has had two readers at once. */
  lemma CondvarReturnsHolding(s: State, op: Op, t: nat, l: Addr)
    requires Reachable(s) && Enabled(s, op) && InWait(s, op, t, l)
    ensures var r := Step(s, op);
            && (r.outcome == Done(EDEADLK) <==> op.Resume? && Denied(s, t, op.timedout))
            && (r.outcome == Done(EDEADLK) ==> Stale(Hold(r.state, l), t))
            && (r.outcome.Done? && r.outcome.err != EDEADLK ==> HeldBy(Hold(r.state, l), t))
  {
    hide Inv;
    hide WaitStep;
    hide ResumeStep;
    hide RdlockStep;
    hide WrlockStep;
    hide UnlockStep;
    hide SignalStep;
    hide Settled;
    ReachableInv(s);
    StepKeeps(s, op);
    SettledHere(Step(s, op).state, l);
    if op.SysWait? {
      WaitKeeps(s, t, op.c, l, op.clock);
    } else {
      ResumeKeeps(s, t, op.timedout);
    }
    if t in Hold(Step(s, op).state, l).writers {
      ExclusiveWriter(Step(s, op).state, t, l);
    }
  }

  /* No object is freed while referenced: a lock or condition variable object
     exists exactly while threads sleep on it, it counts them, and whoever sleeps
     in a condition wait is also counted on the condition variable's lock. */
  lemma ObjectsCountSleepers(s: State, l: Addr, c: Addr)
    requires Reachable(s)
    ensures Object(s, l).waitcount == |OnLock(s.calls, l)|
    ensures l in s.locks <==> OnLock(s.calls, l) != {}
    ensures c in s.condvars <==> OnCv(s.calls, c) != {}
    ensures c in s.condvars ==> s.condvars[c].waitcount == |OnCv(s.calls, c)|
                                && OnCv(s.calls, c) <= OnLock(s.calls, s.condvars[c].lock)
  {
    ReachableInv(s);
    assert LockInv(s, l);
    assert CvInv(s, c);
    if c in s.condvars {
      forall t | t in OnCv(s.calls, c) ensures t in OnLock(s.calls, s.condvars[c].lock) {
        assert SleeperInv(s, t);
      }
    }
  }

  // The members of a queue, in order.
  function Contents(s: State, q: Queue): seq<nat> {
    match q
    case LockWriters(l) => Object(s, l).writers
    case LockReaders(l) => Object(s, l).readers
    case CvWaiters(c) => Waiters(s, c)
  }

  /* Waiters are conserved: a suspended thread is in the queue that its fw_queue
     names, once, and in no other; if fw_queue is null it holds the lock it asked
     for; and nobody else is in any queue. */
  lemma WaitersConserved(s: State, t: nat, q: Queue)
    requires Reachable(s)
    ensures t in Contents(s, q) <==> t in s.fwq && s.fwq[t] == q
    ensures t in s.fwq ==> t in s.calls
    ensures Distinct(Contents(s, q))
    ensures t in s.calls && t !in s.fwq ==> Granted(s, t, s.calls[t])
  {
    ReachableInv(s);
    match q {
      case LockWriters(l) => assert LockInv(s, l);
      case LockReaders(l) => assert LockInv(s, l);
      case CvWaiters(c) => assert CvInv(s, c);
    }
    if t in s.calls {
      assert SleeperInv(s, t);
    }
  }

  /* A granted waiter never reports a timeout of its own, even when its deadline
     has passed by the time it runs. */
  lemma GrantBeatsTimeout(s: State, t: nat, timedout: bool)
    requires Reachable(s) && t in s.calls && t !in s.fwq
    ensures ResumeStep(s, t, timedout).outcome
            == Done(if s.calls[t].Reacquire? then s.calls[t].first else OK)
    ensures Granted(ResumeStep(s, t, timedout).state, t, s.calls[t])
  {
    hide ResumeStep;
    hide Inv;
    ReachableInv(s);
    ResumeGranted(s, t, timedout);
  }

  /* A condition variable's word differs from HAS_NO_WAITERS exactly while
     threads wait in its own queue, so testing the word never misses a waiter. */
  lemma CondvarWordTells(s: State, c: Addr)
    requires Reachable(s)
    ensures CvWord(s, c) != HAS_NO_WAITERS <==> Waiters(s, c) != []
  {
    ReachableInv(s);
    assert CvInv(s, c);
  }

  /* Signalling dereferences a null pointer exactly when the condition variable
     still has sleepers but its word says that it has no waiters. */
  lemma SignalFaultsIff(s: State, c: Addr, n: nat)
    requires Reachable(s)
    ensures SignalStep(s, c, n).outcome == Fault <==> n > 0 && c in s.condvars && CvWord(s, c) == HAS_NO_WAITERS
  {
    CondvarWordTells(s, c);
  }
}
