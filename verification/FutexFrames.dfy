/**
 How the building blocks of the futex steps keep the invariant for all locks,
 condition variables and threads but the ones a step works on.
 */
module FutexFrames {
  import opened LockWords
  import opened FutexLocks
  import opened FutexSteps
  import opened FutexInvariant

  // The sleepers on lock l are still right once h holds it and fwq says who waits:
  // whoever is in no queue holds the lock as it asked for, and no thread waiting
  // on a condition variable holds it.
  ghost predicate HoldsFor(s: State, l: Addr, fwq: map<nat, Queue>, h: Holders) {
    forall u :: u in s.calls && s.calls[u].lock == l ==>
      if u in fwq then s.calls[u].OnCondvar() ==> u !in h.writers
      else if s.calls[u].Rdlock? then u in h.readers
      else u in h.writers
  }

  ghost predicate Requeued(s: State, fwq: map<nat, Queue>, u: nat, l: Addr, cs: set<Addr>) {
    && u in fwq && u in s.fwq && u in s.calls
    && Local(s.fwq[u], l, cs) && fwq[u] == LockWriters(l) && s.calls[u].Wait?
  }

  // Waiters of lock l and condition variables cs left the queues, or were moved
  // from the condition variable to the lock.
  ghost predicate Moved(s: State, fwq: map<nat, Queue>, l: Addr, cs: set<Addr>) {
    && (forall u :: u in fwq ==> u in s.fwq && (fwq[u] == s.fwq[u] || Requeued(s, fwq, u, l, cs)))
    && (forall u :: u in s.fwq && u !in fwq ==> Local(s.fwq[u], l, cs))
  }

  lemma PutConfined(s: State, l: Addr, cs: set<Addr>, v: LockView, waitcount: int, fwq: map<nat, Queue>)
    requires CallersOf(s, l, cs) && Moved(s, fwq, l, cs)
    ensures Confined(s, Put(s, l, v, waitcount).(fwq := fwq), 0, l, cs)
  {
    assert SameLocks(s, Put(s, l, v, waitcount).(fwq := fwq), l);
  }

  lemma PutSleepers(s: State, l: Addr, cs: set<Addr>, v: LockView, waitcount: int, fwq: map<nat, Queue>)
    requires Except(s, l, cs) && CallersOf(s, l, cs) && Moved(s, fwq, l, cs) && HoldsFor(s, l, fwq, v.hold)
    ensures SleepersOn(Put(s, l, v, waitcount).(fwq := fwq), l)
  {
    hide LockInv;
    hide CvInv;
    var s' := Put(s, l, v, waitcount).(fwq := fwq);
    forall u | u in s'.calls && s'.calls[u].lock == l ensures SleeperInv(s', u) {
      assert SleeperInv(s, u);
    }
  }

  /* The lock changes hands, or only its object and word change. */
  lemma KeepPut(s: State, l: Addr, cs: set<Addr>, v: LockView, waitcount: int, fwq: map<nat, Queue>)
    requires Except(s, l, cs) && CallersOf(s, l, cs) && Moved(s, fwq, l, cs) && HoldsFor(s, l, fwq, v.hold)
    ensures Except(Put(s, l, v, waitcount).(fwq := fwq), l, cs)
  {
    hide *;
    PutConfined(s, l, cs, v, waitcount, fwq);
    PutSleepers(s, l, cs, v, waitcount, fwq);
    Frame(s, Put(s, l, v, waitcount).(fwq := fwq), 0, l, cs);
  }

  lemma SleepConfined(s: State, l: Addr, cs: set<Addr>, v: LockView, t: nat, call: Call)
    requires CallersOf(s, l, cs) && Touches(call, l, cs) && t !in s.calls
    ensures Confined(s, Sleep(s, l, v, t, call), t, l, cs)
  {
    hide SameLocks, SameCondvars, SameQueues, SameCalls, CallersOf, Sleep;
    SleepElsewhere(s, l, cs, v, t, call);
    SleepQueues(s, l, cs, v, t, call);
  }

  lemma SleepElsewhere(s: State, l: Addr, cs: set<Addr>, v: LockView, t: nat, call: Call)
    requires CallersOf(s, l, cs)
    ensures SameLocks(s, Sleep(s, l, v, t, call), l) && SameCondvars(s, Sleep(s, l, v, t, call), l, cs)
  {
  }

  lemma SleepQueues(s: State, l: Addr, cs: set<Addr>, v: LockView, t: nat, call: Call)
    requires CallersOf(s, l, cs) && Touches(call, l, cs) && t !in s.calls
    ensures SameQueues(s, Sleep(s, l, v, t, call), l, cs)
    ensures SameCalls(s.calls, Sleep(s, l, v, t, call).calls, t, l, cs)
    ensures Sleep(s, l, v, t, call).fwq.Keys <= Sleep(s, l, v, t, call).calls.Keys
  {
  }

  lemma SleepSleepers(s: State, l: Addr, cs: set<Addr>, v: LockView, t: nat, call: Call)
    requires Except(s, l, cs) && Touches(call, l, cs) && t !in s.calls && ValidTid(t) && v.hold == Hold(s, l)
    requires call.Reacquire? ==> call.first in {ETIMEDOUT, ENOTSUP}
    requires call.OnCondvar() ==> call.cv in s.condvars && s.condvars[call.cv].lock == l && t !in v.hold.writers
    ensures SleepersOn(Sleep(s, l, v, t, call), l)
  {
    hide LockInv;
    hide CvInv;
    var s' := Sleep(s, l, v, t, call);
    forall u | u in s'.calls && s'.calls[u].lock == l ensures SleeperInv(s', u) {
      if u != t {
        assert SleeperInv(s, u);
      }
    }
  }

  /* A thread goes to sleep. */
  lemma KeepSleep(s: State, l: Addr, cs: set<Addr>, v: LockView, t: nat, call: Call)
    requires Except(s, l, cs) && CallersOf(s, l, cs)
    requires Touches(call, l, cs) && t !in s.calls && ValidTid(t) && v.hold == Hold(s, l)
    requires call.Reacquire? ==> call.first in {ETIMEDOUT, ENOTSUP}
    requires call.OnCondvar() ==> call.cv in s.condvars && s.condvars[call.cv].lock == l && t !in v.hold.writers
    ensures Except(Sleep(s, l, v, t, call), l, cs)
  {
    hide *;
    SleepConfined(s, l, cs, v, t, call);
    SleepSleepers(s, l, cs, v, t, call);
    Frame(s, Sleep(s, l, v, t, call), t, l, cs);
  }

  lemma LeaveConfined(s: State, l: Addr, cs: set<Addr>, t: nat)
    requires CallersOf(s, l, cs) && t in s.calls && Touches(s.calls[t], l, cs)
    requires t in s.fwq ==> Local(s.fwq[t], l, cs)
    ensures Confined(s, Leave(s, t), t, l, cs)
  {
    assert SameLocks(s, Leave(s, t), l);
  }

  lemma LeaveSleepers(s: State, l: Addr, cs: set<Addr>, t: nat)
    requires Except(s, l, cs) && t in s.calls && s.calls[t].lock == l
    ensures SleepersOn(Leave(s, t), l)
  {
    hide LockInv;
    hide CvInv;
    forall u | u in Leave(s, t).calls && s.calls[u].lock == l ensures SleeperInv(Leave(s, t), u) {
      assert SleeperInv(s, u);
    }
  }

  /* A thread comes back from its sleep. */
  lemma KeepLeave(s: State, l: Addr, cs: set<Addr>, t: nat)
    requires Except(s, l, cs) && CallersOf(s, l, cs) && t in s.calls && Touches(s.calls[t], l, cs)
    ensures Except(Leave(s, t), l, cs)
  {
    hide LockInv;
    hide CvInv;
    assert SleeperInv(s, t);
    assert t in s.fwq ==> Local(s.fwq[t], l, cs);
    hide *;
    LeaveConfined(s, l, cs, t);
    LeaveSleepers(s, l, cs, t);
    Frame(s, Leave(s, t), t, l, cs);
  }

  lemma PutCvConfined(s: State, l: Addr, cs: set<Addr>, c: Addr, word: nat, cv: Condvar)
    requires CallersOf(s, l, cs) && c in cs
    ensures Confined(s, PutCv(s, c, word, cv), 0, l, cs)
  {
  }

  lemma PutCvSleepers(s: State, l: Addr, cs: set<Addr>, c: Addr, word: nat, cv: Condvar)
    requires Except(s, l, cs) && c in cs && cv.lock == l
    ensures SleepersOn(PutCv(s, c, word, cv), l)
  {
    hide LockInv;
    hide CvInv;
    forall u | u in s.calls && s.calls[u].lock == l ensures SleeperInv(PutCv(s, c, word, cv), u) {
      assert SleeperInv(s, u);
    }
  }

  /* The word and the object of a condition variable change. */
  lemma KeepPutCv(s: State, l: Addr, cs: set<Addr>, c: Addr, word: nat, cv: Condvar)
    requires Except(s, l, cs) && CallersOf(s, l, cs) && c in cs && cv.lock == l
    ensures Except(PutCv(s, c, word, cv), l, cs)
  {
    hide *;
    PutCvConfined(s, l, cs, c, word, cv);
    PutCvSleepers(s, l, cs, c, word, cv);
    Frame(s, PutCv(s, c, word, cv), 0, l, cs);
  }
}
