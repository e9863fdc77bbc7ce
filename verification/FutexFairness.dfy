/**
 Bounded overtaking: a thread that waits to write is passed by no later one. With i
 writers before it in the queue of the lock, it has the lock after at most i + 1
 hand-overs, whatever else happens, unless its own deadline passes first.
 */
module FutexFairness {
  import opened LockWords
  import opened FutexLocks
  import opened FutexSteps
  import opened FutexInvariant
  import opened FutexLockCalls
  import opened FutexCondvarCalls
  import opened FutexRuns
  import opened FutexQueues

  // The thread waits in the queue of writers with i others before it.
  predicate WaitsAt(s: State, t: nat, l: Addr, i: nat) {
    i < |Writers(s, l)| && Writers(s, l)[i] == t
  }

  // The thread was granted the lock, alone, in the call it is suspended in.
  predicate Served(s: State, t: nat, l: Addr) {
    t in s.calls && t !in s.fwq && HeldBy(Hold(s, l), t)
  }

  // ---------- Suspended threads stay suspended ----------

  lemma FinishCalls(s: State, l: Addr, v: LockView, err: Errno, mid: bool)
    ensures Finish(s, l, v, err, mid).state.calls == s.calls
  {
  }

  lemma ReturnCalls(s: State, c: Addr, l: Addr, v: LockView, err: Errno, mid: bool)
    ensures Return(s, c, l, v, err, mid).state.calls == s.calls
  {
  }

  lemma ReleaseCalls(s: State, l: Addr)
    ensures Release(s, l).calls == s.calls
  {
  }

  // Only thread t enters or leaves the kernel.
  predicate OnlyCall(calls: map<nat, Call>, calls': map<nat, Call>, t: nat) {
    forall u :: u != t && u in calls ==> u in calls' && calls'[u] == calls[u]
  }

  lemma LockCallOnly(s: State, t: nat, l: Addr, clock: bool)
    ensures OnlyCall(s.calls, RdlockStep(s, t, l, clock).state.calls, t)
    ensures OnlyCall(s.calls, WrlockStep(s, t, l, clock).state.calls, t)
  {
    hide Finish, TryRdlock, TryWrlock, LockAssert;
    var (v, e) := TryRdlock(View(s, l), t);
    FinishCalls(s, l, v, if e == EBUSY then ENOTSUP else e,
                LockAssert(Object(s, l)) && (e == EBUSY ==> v.owner != LOCK_UNMANAGED));
    var (w, f) := TryWrlock(View(s, l), t, false);
    FinishCalls(s, l, w, if f == EBUSY then ENOTSUP else f,
                LockAssert(Object(s, l)) && (f == EBUSY ==> w.owner != LOCK_UNMANAGED));
  }

  lemma UnlockOnly(s: State, t: nat, l: Addr)
    ensures UnlockStep(s, t, l).state.calls == s.calls
  {
    hide Unlock, PassOn, Release, LockAssert;
    var (v, e) := Unlock(View(s, l), t);
    PassOnCalls(s, l, v);
    ReleaseCalls(if e == OK then PassOn(s, l, v) else Put(s, l, v, Object(s, l).waitcount), l);
  }

  lemma ReacquireOnly(s: State, t: nat, c: Addr, l: Addr, first: Errno, pre: bool)
    ensures OnlyCall(s.calls, ReacquireStep(s, t, c, l, first, pre).state.calls, t)
  {
    hide Return, TryWrlock;
    var cv := Cv(s, c, l);
    var s1 := PutCv(s, c, CvWordAfter(CvWord(s, c), cv.waiters), cv);
    var (v, e) := TryWrlock(View(s, l), t, false);
    ReturnCalls(s1, c, l, if e == OK then v else Unmanage(v), if e == OK then first else e,
                pre && (e == EBUSY ==> v.owner != LOCK_UNMANAGED));
  }

  lemma RefusedOnly(s: State, c: Addr, l: Addr, cv: Condvar, e: Errno, pre: bool)
    ensures WaitRefused(s, c, l, cv, e, pre).state.calls == s.calls
  {
    hide LockAssert, CondvarAssert;
  }

  lemma WaitSleepOnly(s: State, t: nat, c: Addr, l: Addr, cv: Condvar, pre: bool)
    ensures OnlyCall(s.calls, WaitSleep(s, t, c, l, cv, pre).state.calls, t)
  {
    hide LockAssert;
  }

  lemma WaitOnly(s: State, t: nat, c: Addr, l: Addr, clock: bool)
    ensures OnlyCall(s.calls, WaitStep(s, t, c, l, clock).state.calls, t)
  {
    hide Unlock, PassOn, WaitRefused, WaitSleep, ReacquireStep, LockAssert, CondvarAssert;
    var (v, e) := Unlock(View(s, l), t);
    var cv := Cv(s, c, l);
    var pre := (c in s.condvars ==> CondvarAssert(s, cv)) && LockAssert(Object(s, l));
    PassOnCalls(s, l, v);
    RefusedOnly(Put(s, l, v, Object(s, l).waitcount), c, l, cv, e, pre);
    WaitSleepOnly(PassOn(s, l, v), t, c, l, cv, pre);
    ReacquireOnly(PutCv(PassOn(s, l, v), c, HAS_WAITERS, cv.(waitcount := cv.waitcount + 1)), t, c, l, ENOTSUP, pre);
  }

  lemma SignalOnly(s: State, c: Addr, n: nat)
    ensures SignalStep(s, c, n).state.calls == s.calls
  {
    hide TryWrlock, SignalMoves, LockAssert, CondvarAssert, Release, ReleaseCv;
    if n > 0 && c in s.condvars && s.condvars[c].waiters != [] {
      var cv := s.condvars[c];
      var (v, e) := TryWrlock(View(s, cv.lock), cv.waiters[0], n > 1 && |cv.waiters| > 1);
      MovesCalls(s, c, v, Min(n, |cv.waiters|), e == OK);
      ReleaseBothCalls(s, c, cv.lock);
      ReleaseBothCalls(SignalMoves(s, c, v, Min(n, |cv.waiters|), e == OK), c, cv.lock);
    }
  }

  lemma ReleaseBothCalls(s: State, c: Addr, l: Addr)
    ensures Release(ReleaseCv(s, c), l).calls == s.calls
  {
  }

  lemma MovesCalls(s: State, c: Addr, v: LockView, n: nat, granted: bool)
    requires c in s.condvars && 1 <= n <= |s.condvars[c].waiters|
    ensures SignalMoves(s, c, v, n, granted).calls == s.calls
  {
    hide SignalQueues;
  }

  lemma ResumeOnly(s: State, t: nat, timedout: bool)
    requires t in s.calls
    ensures OnlyCall(s.calls, ResumeStep(s, t, timedout).state.calls, t)
  {
    hide Finish, Return, ReacquireStep, Without, LockAssert;
    var call := s.calls[t];
    var l := call.lock;
    var s1, v, mid := Leave(s, t), View(s, l), LockAssert(Object(s, l));
    match call {
      case Rdlock(_) =>
        FinishCalls(s1, l, v, OK, mid);
        FinishCalls(s1, l, v.(readers := Without(v.readers, t)), ETIMEDOUT, mid);
      case Wrlock(_) =>
        FinishCalls(s1, l, v, OK, mid);
        FinishCalls(s1, l, v.(writers := Without(v.writers, t)), ETIMEDOUT, mid);
      case Wait(_, c) =>
        var cv := Cv(s, c, l);
        ReturnCalls(s1, c, l, v, OK, mid);
        ReacquireOnly(PutCv(s1, c, CvWord(s, c), cv.(waiters := Without(cv.waiters, t))), t, c, l, ETIMEDOUT, mid);
      case Reacquire(_, c, first) =>
        ReturnCalls(s1, c, l, v, first, mid);
        ReturnCalls(s1, c, l, Unmanage(v.(writers := Without(v.writers, t))), ETIMEDOUT, mid);
    }
  }

  // A step that does not resume a suspended thread leaves its call as it is.
  lemma CallStays(s: State, op: Op, t: nat)
    requires Enabled(s, op) && t in s.calls && !(op.Resume? && op.t == t)
    ensures t in Step(s, op).state.calls && Step(s, op).state.calls[t] == s.calls[t]
  {
    hide RdlockStep, WrlockStep, UnlockStep, WaitStep, SignalStep, ResumeStep;
    match op {
      case SysRdlock(u, l, clock) => LockCallOnly(s, u, l, clock);
      case SysWrlock(u, l, clock) => LockCallOnly(s, u, l, clock);
      case SysUnlock(u, l) => UnlockOnly(s, u, l);
      case SysWait(u, c, l, clock) => WaitOnly(s, u, c, l, clock);
      case SysSignal(c, n) => SignalOnly(s, c, n);
      case Resume(u, timedout) => ResumeOnly(s, u, timedout);
      case _ =>
    }
  }

  // ---------- One step ----------

  // What is known of a thread in the queue of writers.
  lemma QueuedWriter(s: State, t: nat, l: Addr, i: nat)
    requires Inv(s) && WaitsAt(s, t, l, i)
    ensures t in s.calls && t in s.fwq && s.fwq[t] == LockWriters(l)
    ensures s.calls[t].lock == l && !s.calls[t].Rdlock?
    ensures Distinct(Writers(s, l))
  {
    assert LockInv(s, l);
    assert t in Writers(s, l);
    assert SleeperInv(s, t);
  }

  // A queued writer that is resumed, other than by its deadline, goes back to sleep.
  lemma SleepsOn(s: State, t: nat, l: Addr, i: nat, timedout: bool)
    requires Inv(s) && WaitsAt(s, t, l, i) && Enabled(s, Resume(t, timedout))
    requires timedout ==> t in s.calls && !s.calls[t].Wrlock?
    ensures ResumeStep(s, t, timedout).state == s
  {
    hide Inv;
    QueuedWriter(s, t, l, i);
  }

  lemma {:induction false} WithoutIndex(q: seq<nat>, u: nat, t: nat, i: nat) returns (j: nat)
    requires i < |q| && q[i] == t && t != u
    ensures j <= i && j < |Without(q, u)| && Without(q, u)[j] == t
    decreases |q|
  {
    if q[0] == u {
      j := i - 1;
    } else if i == 0 {
      j := 0;
    } else {
      j := WithoutIndex(q[1..], u, t, i - 1);
      j := j + 1;
    }
  }

  // Out of the queue and still in its call, a thread holds the lock.
  lemma ServedNow(s: State, t: nat, l: Addr)
    requires Inv(s) && t in s.calls && t !in s.fwq && s.calls[t].lock == l && !s.calls[t].Rdlock?
    ensures Served(s, t, l)
  {
    assert SleeperInv(s, t);
    SettledHere(s, l);
    ExclusiveWriter(s, t, l);
  }

  /* After a step a queued writer has the lock, or is still queued, no further back,
     and further to the front if the lock was handed over. */
  lemma StepAdvances(s: State, op: Op, t: nat, l: Addr, i: nat) returns (j: nat)
    requires Inv(s) && Enabled(s, op) && WaitsAt(s, t, l, i)
    requires op == Resume(t, true) ==> t in s.calls && !s.calls[t].Wrlock?
    ensures var s' := Step(s, op).state;
            || Served(s', t, l)
            || (WaitsAt(s', t, l, j) && (if HandsOver(s, op, l) then j < i else j <= i)
                && t in s.calls && t in s'.calls && s'.calls[t] == s.calls[t])
  {
    hide Inv, Step, Writers, Without, Served, HandsOver;
    QueuedWriter(s, t, l, i) by { WaitsHere(s, t, l, i); }
    j := i;
    if op.Resume? && op.t == t {
      StaysPut(s, op, l, i);
    } else {
      CallStays(s, op, t);
      StepKeeps(s, op);
      QueueMoves(s, op, l);
      j := NextPlace(s, op, t, l, i);
    }
  }

  lemma WaitsHere(s: State, t: nat, l: Addr, i: nat)
    requires WaitsAt(s, t, l, i)
    ensures i < |Writers(s, l)| && Writers(s, l)[i] == t
  {
  }

  lemma StaysPut(s: State, op: Op, l: Addr, i: nat)
    requires Inv(s) && Enabled(s, op) && op.Resume? && WaitsAt(s, op.t, l, i)
    requires op.timedout ==> op.t in s.calls && !s.calls[op.t].Wrlock?
    ensures Step(s, op).state == s && !HandsOver(s, op, l)
  {
    SleepsOn(s, op.t, l, i, op.timedout);
  }

  lemma NextPlace(s: State, op: Op, t: nat, l: Addr, i: nat) returns (j: nat)
    requires Inv(s) && Enabled(s, op) && WaitsAt(s, t, l, i) && !(op.Resume? && op.t == t)
    requires t in s.calls && s.calls[t].lock == l && !s.calls[t].Rdlock?
    requires Inv(Step(s, op).state)
    requires t in Step(s, op).state.calls && Step(s, op).state.calls[t] == s.calls[t]
    ensures var s' := Step(s, op).state;
            Served(s', t, l) || (WaitsAt(s', t, l, j) && (if HandsOver(s, op, l) then j < i else j <= i))
  {
    hide Inv, Step, Served, HandsOver, Without, Enabled;
    QueueMoves(s, op, l);
    j := i;
    if HandsOver(s, op, l) {
      if i == 0 {
        ServedNow(Step(s, op).state, t, l);
      } else {
        j := i - 1;
      }
    } else if GivesUp(s, op, l) {
      j := WithoutIndex(Writers(s, l), op.t, t, i);
    }
  }

  // ---------- Whole runs ----------

  // The number of times the lock is handed over in a run.
  function Handovers(s: State, ops: seq<Op>, l: Addr): nat
    requires ValidRun(s, ops)
    decreases |ops|
  {
    if ops == [] then 0
    else (if HandsOver(s, ops[0], l) then 1 else 0) + Handovers(Step(s, ops[0]).state, ops[1..], l)
  }

  // At some point of the run the thread has been granted the lock.
  predicate ServedDuring(s: State, ops: seq<Op>, t: nat, l: Addr)
    requires ValidRun(s, ops)
    decreases |ops|
  {
    Served(s, t, l) || (ops != [] && ServedDuring(Step(s, ops[0]).state, ops[1..], t, l))
  }

  lemma {:induction false} RunAdvances(s: State, ops: seq<Op>, t: nat, l: Addr, i: nat) returns (j: nat)
    requires Inv(s) && ValidRun(s, ops) && WaitsAt(s, t, l, i)
    requires Resume(t, true) in ops ==> t in s.calls && !s.calls[t].Wrlock?
    ensures ServedDuring(s, ops, t, l) || (WaitsAt(Exec(s, ops), t, l, j) && j + Handovers(s, ops, l) <= i)
    decreases |ops|
  {
    hide Inv, Step, Enabled, WaitsAt, Served, HandsOver;
    j := i;
    if ops != [] {
      assert ops[0] in ops && forall op :: op in ops[1..] ==> op in ops;
      StepKeeps(s, ops[0]);
      var k := StepAdvances(s, ops[0], t, l, i);
      var s' := Step(s, ops[0]).state;
      if !Served(s', t, l) {
        j := RunAdvances(s', ops[1..], t, l, k);
      } else {
        assert ServedDuring(s', ops[1..], t, l);
      }
    }
  }

  /* Bounded overtaking. On every run from every reachable state: a thread that waits
     to write with i others before it, and does not let its deadline pass, has been
     granted the lock by the time the lock was handed over i + 1 times; and until then
     every hand-over brings it nearer. A thread that was moved here from a condition
     variable has no deadline any more, so nothing is asked of it. */
  lemma BoundedOvertaking(s: State, ops: seq<Op>, t: nat, l: Addr, i: nat)
    requires Reachable(s) && ValidRun(s, ops) && WaitsAt(s, t, l, i)
    requires Resume(t, true) in ops ==> t in s.calls && !s.calls[t].Wrlock?
    ensures Handovers(s, ops, l) > i ==> ServedDuring(s, ops, t, l)
    ensures !ServedDuring(s, ops, t, l) ==>
              exists j: nat :: WaitsAt(Exec(s, ops), t, l, j) && j + Handovers(s, ops, l) <= i
  {
    hide Inv, Step, Reachable;
    ReachableInv(s);
    var j := RunAdvances(s, ops, t, l, i);
  }
}
