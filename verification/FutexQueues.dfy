/**
 What every step does to the queues of a lock: waiters join at the end, leave from
 the front when the lock is handed over, and leave from anywhere only by their own
 timeout. Nobody overtakes.
 */
module FutexQueues {
  import opened LockWords
  import opened FutexLocks
  import opened FutexSteps
  import opened FutexInvariant
  import opened FutexLockCalls
  import opened FutexCondvarCalls
  import opened FutexSignal
  import opened FutexRuns

  // Everybody but the threads ts waits where they waited.
  ghost predicate SameWaiters(s: State, s': State, ts: seq<nat>) {
    forall u :: u !in ts ==> (u in s'.fwq <==> u in s.fwq) && (u in s.fwq ==> s'.fwq[u] == s.fwq[u])
  }

  function Writers(s: State, l: Addr): seq<nat> {
    Object(s, l).writers
  }

  // Releasing the object of a lock does not touch anybody's place in a queue.
  lemma ReleaseQueues(s: State, l: Addr, k: Addr)
    requires LockAssert(Object(s, l))
    ensures Object(Release(s, l), k).writers == Object(s, k).writers
    ensures Object(Release(s, l), k).readers == Object(s, k).readers
  {
  }

  lemma ReleaseCvQueues(s: State, c: Addr, k: Addr)
    ensures Object(ReleaseCv(s, c), k) == Object(s, k)
  {
  }

  // ---------- Handing over ----------

  // The lock after its exclusive holder passed it on.
  lemma PassOnOrder(s: State, l: Addr, t: nat)
    requires Settled(View(s, l)) && ValidTid(t) && Hold(s, l).writers == {t} && Unlock(View(s, l), t).1 == OK
    ensures var s' := PassOn(s, l, Unlock(View(s, l), t).0);
            var (o, o') := (Object(s, l), Object(s', l));
            && (o.writers != [] ==> o'.writers == o.writers[1..] && o'.readers == o.readers)
            && (o.writers == [] ==> o'.writers == o'.readers == [])
  {
    hide Settled, Unlock;
    UnlockFacts(View(s, l), t);
  }

  lemma PassOnWakes(s: State, l: Addr, v: LockView)
    ensures SameWaiters(s, PassOn(s, l, v), Woken(View(s, l)))
    ensures forall u :: u in Woken(View(s, l)) ==> u !in PassOn(s, l, v).fwq
  {
  }

  lemma PassOnCalls(s: State, l: Addr, v: LockView)
    ensures PassOn(s, l, v).calls == s.calls
  {
  }

  lemma UnlockIsPassOn(s: State, t: nat, l: Addr)
    requires Unlock(View(s, l), t).1 == OK
    ensures UnlockStep(s, t, l).state == Release(PassOn(s, l, Unlock(View(s, l), t).0), l)
  {
    hide PassOn, Release, Unlock;
  }

  lemma UnlockAllowed(s: State, t: nat, l: Addr)
    requires Inv(s) && Awake(s, t) && t in Hold(s, l).writers
    ensures Settled(View(s, l)) && Hold(s, l).writers == {t}
    ensures Unlock(View(s, l), t).1 == OK <==> Object(s, l).owner in {LOCK_UNMANAGED, LOCK_OWNER_UNKNOWN, t}
  {
    hide Inv, Settled, Unlock;
    SettledHere(s, l);
    ExclusiveWriter(s, t, l);
    UnlockFacts(View(s, l), t);
  }

  lemma ReleaseFwq(s: State, l: Addr)
    ensures Release(s, l).fwq == s.fwq
  {
  }

  /* What an unlock does to the waiters of the lock. */
  lemma UnlockQueues(s: State, t: nat, l: Addr)
    requires Inv(s) && Awake(s, t) && t in Hold(s, l).writers
    requires Object(s, l).owner in {LOCK_UNMANAGED, LOCK_OWNER_UNKNOWN, t}
    ensures var s' := UnlockStep(s, t, l).state;
            var (o, o') := (Object(s, l), Object(s', l));
            && (o.writers != [] ==> o'.writers == o.writers[1..] && o'.readers == o.readers)
            && (o.writers == [] ==> o'.writers == o'.readers == [])
            && SameWaiters(s, s', Woken(View(s, l)))
            && (forall u :: u in Woken(View(s, l)) ==> u !in s'.fwq)
  {
    hide Inv, Settled, Unlock, UnlockStep, PassOn, Release, LockAssert, Woken;
    UnlockAllowed(s, t, l);
    UnlockPasses(s, t, l);
    UnlockIsPassOn(s, t, l);
    var v := Unlock(View(s, l), t).0;
    PassOnOrder(s, l, t);
    PassOnWakes(s, l, v);
    ReleaseQueues(PassOn(s, l, v), l, l);
    ReleaseFwq(PassOn(s, l, v), l);
  }

  // ---------- Every step ----------

  lemma FinishWriters(s: State, l: Addr, v: LockView, err: Errno, mid: bool, k: Addr)
    requires Finish(s, l, v, err, mid).asserted
    ensures Writers(Finish(s, l, v, err, mid).state, k) == if k == l then v.writers else Writers(s, k)
  {
    hide LockAssert, Release;
    var s' := Put(s, l, if err == OK then v else Unmanage(v), Object(s, l).waitcount);
    ReleaseQueues(s', l, k);
  }

  lemma RdlockWriters(s: State, t: nat, l: Addr, clock: bool, k: Addr)
    requires RdlockStep(s, t, l, clock).asserted
    ensures Writers(RdlockStep(s, t, l, clock).state, k) == Writers(s, k)
  {
    hide LockAssert, Finish;
    var (v, e) := TryRdlock(View(s, l), t);
    if !(e == EBUSY && clock) {
      FinishWriters(s, l, v, if e == EBUSY then ENOTSUP else e,
                    LockAssert(Object(s, l)) && (e == EBUSY ==> v.owner != LOCK_UNMANAGED), k);
    }
  }

  lemma TryWrlockQueues(v: LockView, tid: nat, force: bool)
    ensures TryWrlock(v, tid, force).0.writers == v.writers && TryWrlock(v, tid, force).0.readers == v.readers
  {
  }

  lemma WrlockWriters(s: State, t: nat, l: Addr, clock: bool, k: Addr)
    requires WrlockStep(s, t, l, clock).asserted
    ensures Writers(s, k) <= Writers(WrlockStep(s, t, l, clock).state, k)
  {
    hide LockAssert, Finish, TryWrlock;
    TryWrlockQueues(View(s, l), t, false);
    var (v, e) := TryWrlock(View(s, l), t, false);
    if !(e == EBUSY && clock) {
      FinishWriters(s, l, v, if e == EBUSY then ENOTSUP else e,
                    LockAssert(Object(s, l)) && (e == EBUSY ==> v.owner != LOCK_UNMANAGED), k);
    }
  }

  lemma ReturnWriters(s: State, c: Addr, l: Addr, v: LockView, err: Errno, mid: bool, k: Addr)
    requires Return(s, c, l, v, err, mid).asserted && Cv(s, c, l).lock == l
    ensures Writers(Return(s, c, l, v, err, mid).state, k) == if k == l then v.writers else Writers(s, k)
  {
    hide LockAssert, Release, ReleaseCv;
    var cv := Cv(s, c, l);
    var s' := PutCv(Put(s, l, v, Object(s, l).waitcount), c, CvWord(s, c), cv.(waitcount := cv.waitcount - 1));
    ReleaseBoth(s', c, l, k);
  }

  lemma ReacquireWriters(s: State, t: nat, c: Addr, l: Addr, first: Errno, pre: bool, k: Addr)
    requires ReacquireStep(s, t, c, l, first, pre).asserted && Cv(s, c, l).lock == l
    ensures Writers(s, k) <= Writers(ReacquireStep(s, t, c, l, first, pre).state, k)
  {
    hide LockAssert, Return, TryWrlock, CvWordAfter;
    TryWrlockQueues(View(s, l), t, false);
    var cv := Cv(s, c, l);
    var s1 := PutCv(s, c, CvWordAfter(CvWord(s, c), cv.waiters), cv);
    var (v, e) := TryWrlock(View(s, l), t, false);
    if e != EBUSY {
      ReturnWriters(s1, c, l, if e == OK then v else Unmanage(v), if e == OK then first else e,
                    pre && (e == EBUSY ==> v.owner != LOCK_UNMANAGED), k);
    }
  }

  lemma ReturnFwq(s: State, c: Addr, l: Addr, v: LockView, err: Errno, mid: bool)
    ensures Return(s, c, l, v, err, mid).state.fwq == s.fwq
  {
  }

  lemma ReacquireFwq(s: State, t: nat, c: Addr, l: Addr, first: Errno, pre: bool, u: nat)
    requires u != t
    ensures u in ReacquireStep(s, t, c, l, first, pre).state.fwq <==> u in s.fwq
  {
    hide Return, TryWrlock;
    var cv := Cv(s, c, l);
    var s1 := PutCv(s, c, CvWordAfter(CvWord(s, c), cv.waiters), cv);
    var (v, e) := TryWrlock(View(s, l), t, false);
    if e != EBUSY {
      ReturnFwq(s1, c, l, if e == OK then v else Unmanage(v), if e == OK then first else e,
                pre && (e == EBUSY ==> v.owner != LOCK_UNMANAGED));
    }
  }

  lemma MovesWriters(s: State, c: Addr, v: LockView, n: nat, granted: bool, k: Addr)
    requires c in s.condvars && 1 <= n <= |s.condvars[c].waiters| && v.writers == Writers(s, s.condvars[c].lock)
    ensures var s' := SignalMoves(s, c, v, n, granted);
            && Writers(s, k) <= Writers(s', k)
            && c in s'.condvars && s'.condvars[c].lock == s.condvars[c].lock
  {
    hide SignalQueues;
  }

  // Releasing a condition variable and its lock, after assertions on both.
  lemma ReleaseBoth(s: State, c: Addr, l: Addr, k: Addr)
    requires LockAssert(Object(s, l))
    ensures Writers(Release(ReleaseCv(s, c), l), k) == Writers(s, k)
  {
    hide LockAssert, Release, ReleaseCv;
    ReleaseCvQueues(s, c, k);
    ReleaseCvQueues(s, c, l);
    ReleaseQueues(ReleaseCv(s, c), l, k);
  }

  lemma SignalWriters(s: State, c: Addr, n: nat, k: Addr)
    requires SignalStep(s, c, n).asserted && (c in s.condvars ==> LockAssert(Object(s, s.condvars[c].lock)))
    ensures Writers(s, k) <= Writers(SignalStep(s, c, n).state, k)
  {
    hide LockAssert, Release, ReleaseCv, TryWrlock, SignalMoves, Writers;
    if n > 0 && c in s.condvars && s.condvars[c].waiters != [] {
      var cv := s.condvars[c];
      var l := cv.lock;
      var force := n > 1 && |cv.waiters| > 1;
      var (v, e) := TryWrlock(View(s, l), cv.waiters[0], force);
      if e == OK || e == EBUSY {
        assert v.writers == Writers(s, l) by {
          TryWrites(s, l, cv.waiters[0], force);
        }
        var s' := SignalMoves(s, c, v, Min(n, |cv.waiters|), e == OK);
        MovesWriters(s, c, v, Min(n, |cv.waiters|), e == OK, k);
        ReleaseBoth(s', c, l, k);
      } else {
        ReleaseBoth(s, c, l, k);
      }
    }
  }

  lemma TryWrites(s: State, l: Addr, t: nat, force: bool)
    ensures TryWrlock(View(s, l), t, force).0.writers == Writers(s, l)
  {
    TryWrlockQueues(View(s, l), t, force);
  }

  // ---------- Condition waits ----------

  // The lock goes from its exclusive holder to whoever is next.
  predicate HandsOver(s: State, op: Op, l: Addr) {
    && (op.SysUnlock? || (op.SysWait? && !WrongLock(s, op))) && op.l == l
    && Object(s, l).owner in {LOCK_UNMANAGED, LOCK_OWNER_UNKNOWN, op.t}
  }

  lemma RefusedWriters(s: State, t: nat, c: Addr, l: Addr, clock: bool, k: Addr)
    requires WaitStep(s, t, c, l, clock).asserted && (c in s.condvars ==> s.condvars[c].lock == l)
    requires Unlock(View(s, l), t).1 != OK
    ensures Writers(WaitStep(s, t, c, l, clock).state, k) == Writers(s, k)
  {
    hide LockAssert, Release, ReleaseCv, WaitSleep, ReacquireStep;
    var cv := Cv(s, c, l);
    var s1 := Put(s, l, Unlock(View(s, l), t).0, Object(s, l).waitcount);
    var s' := PutCv(s1, c, CvWordAfter(HAS_WAITERS, cv.waiters), cv);
    ReleaseBoth(s', c, l, k);
  }

  lemma PassOnElsewhere(s: State, l: Addr, v: LockView, k: Addr)
    requires k != l
    ensures Writers(PassOn(s, l, v), k) == Writers(s, k)
  {
  }

  // Dropping the lock, and then sleeping or relocking.
  lemma DroppedWriters(s: State, t: nat, c: Addr, l: Addr, clock: bool, k: Addr)
    requires WaitStep(s, t, c, l, clock).asserted && (c in s.condvars ==> s.condvars[c].lock == l)
    requires Unlock(View(s, l), t).1 == OK
    ensures var s1 := PassOn(s, l, Unlock(View(s, l), t).0);
            var s' := WaitStep(s, t, c, l, clock).state;
            Writers(s1, k) <= Writers(s', k) && forall u :: u != t ==> (u in s'.fwq <==> u in s1.fwq)
  {
    hide LockAssert, Unlock, PassOn, WaitRefused, ReacquireStep;
    var v := Unlock(View(s, l), t).0;
    if !clock {
      var cv := Cv(s, c, l);
      var pre := (c in s.condvars ==> CondvarAssert(s, cv)) && LockAssert(Object(s, l));
      var s2 := PutCv(PassOn(s, l, v), c, HAS_WAITERS, cv.(waitcount := cv.waitcount + 1));
      ReacquireWriters(s2, t, c, l, ENOTSUP, pre, k);
      forall u | u != t ensures u in ReacquireStep(s2, t, c, l, ENOTSUP, pre).state.fwq <==> u in s2.fwq {
        ReacquireFwq(s2, t, c, l, ENOTSUP, pre, u);
      }
    }
  }

  lemma WaitWriters(s: State, t: nat, c: Addr, l: Addr, clock: bool, k: Addr)
    requires Inv(s) && Awake(s, t) && t in Hold(s, l).writers
    ensures var s' := WaitStep(s, t, c, l, clock).state;
            var a := Writers(s, k);
            if HandsOver(s, SysWait(t, c, l, clock), k) then a != [] ==> a[1..] <= Writers(s', k) && a[0] !in s'.fwq
            else a <= Writers(s', k)
  {
    hide Inv, Settled, Unlock, WaitStep, PassOn, Writers;
    if c in s.condvars && s.condvars[c].lock != l {
      WrongLockStays(s, t, c, l, clock);
    } else {
      WaitKeeps(s, t, c, l, clock);
      UnlockAllowed(s, t, l);
      if Unlock(View(s, l), t).1 != OK {
        RefusedWriters(s, t, c, l, clock, k);
      } else {
        var s1 := PassOn(s, l, Unlock(View(s, l), t).0);
        DroppedWriters(s, t, c, l, clock, k);
        if k == l {
          FirstLeaves(s, l, t);
        } else {
          PassOnElsewhere(s, l, Unlock(View(s, l), t).0, k);
        }
      }
    }
  }

  lemma WrongLockStays(s: State, t: nat, c: Addr, l: Addr, clock: bool)
    requires c in s.condvars && s.condvars[c].lock != l
    ensures WaitStep(s, t, c, l, clock).state == s
  {
  }

  // The oldest writer leaves the queue, and is not the thread that gives up the lock.
  lemma FirstLeaves(s: State, l: Addr, t: nat)
    requires Inv(s) && Awake(s, t) && Hold(s, l).writers == {t} && Unlock(View(s, l), t).1 == OK
    ensures var a := Writers(s, l);
            var s1 := PassOn(s, l, Unlock(View(s, l), t).0);
            a != [] ==> a[1..] == Writers(s1, l) && a[0] !in s1.fwq && a[0] != t
  {
    hide Inv, Settled, Unlock, PassOn;
    SettledNow(s, t, l);
    PassOnOrder(s, l, t);
    PassOnWakes(s, l, Unlock(View(s, l), t).0);
    var a := Writers(s, l);
    if a != [] {
      assert a[0] in a && a[0] in Woken(View(s, l));
    }
  }

  lemma UnlockWriters(s: State, t: nat, l: Addr, k: Addr)
    requires Inv(s) && Awake(s, t) && t in Hold(s, l).writers
    ensures var s' := UnlockStep(s, t, l).state;
            var a := Writers(s, k);
            if HandsOver(s, SysUnlock(t, l), k) then a != [] ==> a[1..] <= Writers(s', k) && a[0] !in s'.fwq
            else a <= Writers(s', k)
  {
    hide Inv, Settled, LockAssert, UnlockStep, PassOn, Release;
    UnlockAllowed(s, t, l);
    UnlockKeeps(s, t, l);
    var v := Unlock(View(s, l), t).0;
    if Unlock(View(s, l), t).1 == OK {
      UnlockIsPassOn(s, t, l);
      UnlockPasses(s, t, l);
      ReleaseQueues(PassOn(s, l, v), l, k);
      ReleaseFwq(PassOn(s, l, v), l);
      if k == l {
        FirstLeaves(s, l, t);
      } else {
        PassOnElsewhere(s, l, v, k);
      }
    } else {
      RefusedUnlock(s, t, l, k);
    }
  }

  lemma RefusedUnlock(s: State, t: nat, l: Addr, k: Addr)
    requires UnlockStep(s, t, l).asserted && Unlock(View(s, l), t).1 != OK
    ensures Writers(UnlockStep(s, t, l).state, k) == Writers(s, k)
  {
    hide LockAssert, Release;
    ReleaseQueues(Put(s, l, Unlock(View(s, l), t).0, Object(s, l).waitcount), l, k);
  }

  // ---------- Resuming ----------

  // A writer in the queue of a lock whose deadline passes.
  predicate GivesUp(s: State, op: Op, l: Addr) {
    && op.Resume? && op.timedout && op.t in s.calls && s.calls[op.t] == Wrlock(l)
    && op.t in s.fwq && s.fwq[op.t] == LockWriters(l)
  }

  lemma LeaveWriters(s: State, t: nat, k: Addr)
    requires t in s.calls
    ensures Writers(Leave(s, t), k) == Writers(s, k)
  {
  }

  lemma LeaveCv(s: State, t: nat, c: Addr, l: Addr)
    requires t in s.calls
    ensures Cv(Leave(s, t), c, l) == Cv(s, c, l)
  {
  }

  lemma ResumeOnLock(s: State, t: nat, timedout: bool, k: Addr)
    requires t in s.calls && !s.calls[t].OnCondvar() && ResumeStep(s, t, timedout).asserted
    ensures Writers(ResumeStep(s, t, timedout).state, k) ==
            if GivesUp(s, Resume(t, timedout), k) then Without(Writers(s, k), t) else Writers(s, k)
  {
    hide LockAssert, Finish, Leave, Without;
    var l := s.calls[t].lock;
    var s1, v, o := Leave(s, t), View(s, l), Object(s, l);
    LeaveWriters(s, t, k);
    if t !in s.fwq {
      FinishWriters(s1, l, v, OK, LockAssert(o), k);
    } else if s.fwq[t] == s.calls[t].Entered() && timedout {
      if s.calls[t].Rdlock? {
        FinishWriters(s1, l, v.(readers := Without(v.readers, t)), ETIMEDOUT, LockAssert(o), k);
      } else {
        FinishWriters(s1, l, v.(writers := Without(v.writers, t)), ETIMEDOUT, LockAssert(o), k);
      }
    }
  }

  lemma ResumeOnCondvar(s: State, t: nat, timedout: bool, k: Addr)
    requires t in s.calls && s.calls[t].OnCondvar() && ResumeStep(s, t, timedout).asserted
    requires Cv(s, s.calls[t].cv, s.calls[t].lock).lock == s.calls[t].lock
    requires timedout ==> !s.calls[t].Reacquire?
    ensures Writers(s, k) <= Writers(ResumeStep(s, t, timedout).state, k)
  {
    hide LockAssert, Return, ReacquireStep, Leave, Without;
    var call := s.calls[t];
    var l, c := call.lock, call.cv;
    var s1, v, o, cv := Leave(s, t), View(s, l), Object(s, l), Cv(s, c, l);
    LeaveWriters(s, t, k);
    LeaveCv(s, t, c, l);
    if t !in s.fwq {
      ReturnWriters(s1, c, l, v, if call.Wait? then OK else call.first, LockAssert(o), k);
    } else if s.fwq[t] == call.Entered() && timedout {
      ReacquireWriters(PutCv(s1, c, CvWord(s, c), cv.(waiters := Without(cv.waiters, t))),
                       t, c, l, ETIMEDOUT, LockAssert(o), k);
    }
  }

  lemma CvLock(s: State, t: nat)
    requires Inv(s) && t in s.calls && s.calls[t].OnCondvar()
    ensures Cv(s, s.calls[t].cv, s.calls[t].lock).lock == s.calls[t].lock
  {
    assert SleeperInv(s, t);
  }

  lemma ResumeWriters(s: State, op: Op, k: Addr)
    requires Inv(s) && Enabled(s, op) && op.Resume?
    ensures var a := Writers(s, k);
            if GivesUp(s, op, k) then Without(a, op.t) <= Writers(Step(s, op).state, k)
            else a <= Writers(Step(s, op).state, k)
  {
    hide Inv, ResumeStep, Writers, Without;
    ResumeKeeps(s, op.t, op.timedout);
    if s.calls[op.t].OnCondvar() {
      CvLock(s, op.t);
      ResumeOnCondvar(s, op.t, op.timedout, k);
    } else {
      ResumeOnLock(s, op.t, op.timedout, k);
    }
  }

  // ---------- Nobody overtakes ----------

  lemma FastWriters(s: State, op: Op, l: Addr)
    requires Enabled(s, op) && IsFast(op)
    ensures Writers(Step(s, op).state, l) == Writers(s, l)
  {
  }

  lemma CvAsserted(s: State, c: Addr)
    requires Inv(s) && c in s.condvars
    ensures LockAssert(Object(s, s.condvars[c].lock))
  {
    InvExcept(s, s.condvars[c].lock, {});
  }

  /* What a step does to the queue of writers of a lock. A hand-over takes the first
     one out, a deadline the one that it belongs to; in all other cases the queue at
     most grows at its end. */
  lemma QueueMoves(s: State, op: Op, l: Addr)
    requires Inv(s) && Enabled(s, op)
    ensures var s' := Step(s, op).state;
            var (a, b) := (Writers(s, l), Writers(s', l));
            if HandsOver(s, op, l) then a != [] ==> a[1..] <= b && a[0] !in s'.fwq
            else if GivesUp(s, op, l) then Without(a, op.t) <= b
            else a <= b
  {
    hide Inv, RdlockStep, WrlockStep, UnlockStep, WaitStep, SignalStep, ResumeStep, Writers, Without;
    if IsFast(op) {
      FastWriters(s, op, l);
    } else {
      CallKeeps(s, op);
      match op {
        case SysRdlock(t, k, clock) => RdlockWriters(s, t, k, clock, l);
        case SysWrlock(t, k, clock) => WrlockWriters(s, t, k, clock, l);
        case SysUnlock(t, k) => UnlockWriters(s, t, k, l);
        case SysWait(t, c, k, clock) => WaitWriters(s, t, c, k, clock, l);
        case SysSignal(c, n) =>
          if c in s.condvars {
            CvAsserted(s, c);
          }
          SignalWriters(s, c, n, l);
        case Resume(t, timedout) => ResumeWriters(s, op, l);
      }
    }
  }
}
