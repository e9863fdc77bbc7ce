/**
 What calls come to, in full: exactly when a lock is granted at once, and otherwise
 who sleeps where.
 */
module FutexGrants {
  import opened LockWords
  import opened FutexLocks
  import opened FutexSteps
  import opened FutexInvariant
  import opened FutexLockCalls
  import opened FutexCondvarCalls
  import opened FutexRuns
  import opened FutexQueues

  // Nobody holds the lock for writing, and nobody waits for it.
  predicate ReadFree(s: State, l: Addr) {
    Hold(s, l).writers == {} && Object(s, l).writers == [] && Object(s, l).readers == []
  }

  // Thread t went to sleep in a call, and nothing else changed among sleepers.
  predicate SleptIn(s: State, s': State, t: nat, call: Call) {
    s'.calls == s.calls[t := call] && s'.fwq == s.fwq[t := call.Entered()]
  }

  predicate SameSleepers(s: State, s': State) {
    s'.calls == s.calls && s'.fwq == s.fwq
  }

  // ---------- Trying ----------

  lemma TryRdlockIff(v: LockView, tid: nat)
    requires Settled(v)
    ensures TryRdlock(v, tid).1 == if v.hold.writers == {} && v.writers == [] && v.readers == [] then OK else EBUSY
  {
  }

  lemma TryWrlockIff(v: LockView, tid: nat, force: bool)
    requires Settled(v) && ValidTid(tid)
    ensures TryWrlock(v, tid, force).1 ==
            if v.owner == tid || v.word == LockWord(tid, true, false) then EDEADLK
            else if Idle(v.hold) then OK else EBUSY
  {
    assert Idle(v.hold) ==> |v.hold.readers| == 0;
  }

  // The recorded owner of an idle lock is nobody, and its word is nobody's.
  lemma IdleOwner(v: LockView)
    requires Settled(v) && Idle(v.hold)
    ensures v.owner == LOCK_UNMANAGED && !v.word.wrlocked
  {
    assert |v.hold.readers| == 0;
  }

  lemma TryRdlockQueues(v: LockView, tid: nat)
    ensures TryRdlock(v, tid).0.writers == v.writers && TryRdlock(v, tid).0.readers == v.readers
  {
  }

  lemma SleepRest(s: State, l: Addr, v: LockView, t: nat, call: Call)
    ensures var s' := Sleep(s, l, v, t, call);
            SleptIn(s, s', t, call) && Writers(s', l) == v.writers && Object(s', l).readers == v.readers
  {
  }

  lemma FinishRest(s: State, l: Addr, v: LockView, err: Errno, mid: bool)
    ensures SameSleepers(s, Finish(s, l, v, err, mid).state) && Finish(s, l, v, err, mid).outcome == Done(err)
  {
  }

  // ---------- Locking ----------

  lemma RdlockDecides(s: State, t: nat, l: Addr, clock: bool)
    requires Settled(View(s, l))
    ensures var r := RdlockStep(s, t, l, clock);
            && r.outcome == (if ReadFree(s, l) then Done(OK) else if clock then Blocked else Done(ENOTSUP))
            && (r.outcome == Blocked ==> SleptIn(s, r.state, t, Rdlock(l)))
            && (r.outcome == Blocked ==> Object(r.state, l).readers == Object(s, l).readers + [t])
            && (r.outcome != Blocked ==> SameSleepers(s, r.state))
  {
    hide Settled, Finish, LockAssert, TryRdlock, Sleep, SleptIn, SameSleepers;
    TryRdlockIff(View(s, l), t);
    TryRdlockQueues(View(s, l), t);
    var (v, e) := TryRdlock(View(s, l), t);
    SleepRest(s, l, v.(readers := v.readers + [t]), t, Rdlock(l));
    FinishRest(s, l, v, if e == EBUSY then ENOTSUP else e,
               LockAssert(Object(s, l)) && (e == EBUSY ==> v.owner != LOCK_UNMANAGED));
  }

  /* Locking for reading succeeds at once exactly if nobody holds the lock for writing
     and nobody waits for it; readers share it. Otherwise the thread goes to the end of
     the queue of readers, or gets an error if the clock is not supported. */
  lemma RdlockOutcome(s: State, t: nat, l: Addr, clock: bool)
    requires Reachable(s) && Enabled(s, SysRdlock(t, l, clock))
    ensures var r := RdlockStep(s, t, l, clock);
            && r.outcome == (if ReadFree(s, l) then Done(OK) else if clock then Blocked else Done(ENOTSUP))
            && (r.outcome == Done(OK) ==> Hold(r.state, l).writers == {})
            && (r.outcome == Done(OK) ==> Hold(r.state, l).readers == Hold(s, l).readers + multiset{t})
            && (r.outcome != Done(OK) ==> Hold(r.state, l) == Hold(s, l))
            && (r.outcome == Blocked ==> SleptIn(s, r.state, t, Rdlock(l)))
            && (r.outcome == Blocked ==> Object(r.state, l).readers == Object(s, l).readers + [t])
            && (r.outcome != Blocked ==> SameSleepers(s, r.state))
            && Writers(r.state, l) == Writers(s, l)
  {
    hide Inv, Settled, RdlockStep, SleptIn, SameSleepers, Writers;
    ReachableInv(s);
    SettledNow(s, t, l);
    RdlockDecides(s, t, l, clock);
    RdlockKeeps(s, t, l, clock);
    RdlockWriters(s, t, l, clock, l);
  }

  lemma WrlockDecides(s: State, t: nat, l: Addr, clock: bool)
    requires Settled(View(s, l)) && ValidTid(t)
    ensures var r := WrlockStep(s, t, l, clock);
            && r.outcome == (if Object(s, l).owner == t || Word(s, l) == LockWord(t, true, false) then Done(EDEADLK)
                             else if Idle(Hold(s, l)) then Done(OK) else if clock then Blocked else Done(ENOTSUP))
            && (r.outcome == Blocked ==> SleptIn(s, r.state, t, Wrlock(l)))
            && (r.outcome == Blocked ==> Writers(r.state, l) == Writers(s, l) + [t])
            && (r.outcome != Blocked ==> SameSleepers(s, r.state))
  {
    hide Settled, Finish, LockAssert, TryWrlock, Sleep, SleptIn, SameSleepers;
    TryWrlockIff(View(s, l), t, false);
    TryWrlockQueues(View(s, l), t, false);
    var (v, e) := TryWrlock(View(s, l), t, false);
    SleepRest(s, l, v.(writers := v.writers + [t]), t, Wrlock(l));
    FinishRest(s, l, v, if e == EBUSY then ENOTSUP else e,
               LockAssert(Object(s, l)) && (e == EBUSY ==> v.owner != LOCK_UNMANAGED));
  }

  /* Locking for writing succeeds at once exactly if nobody holds the lock. Otherwise the
     thread goes to the end of the queue of writers, or gets an error: for a deadlock
     exactly if it is the recorded owner or the word names it. */
  lemma WrlockOutcome(s: State, t: nat, l: Addr, clock: bool)
    requires Reachable(s) && Enabled(s, SysWrlock(t, l, clock))
    ensures var r := WrlockStep(s, t, l, clock);
            && r.outcome == (if Idle(Hold(s, l)) then Done(OK)
                             else if Object(s, l).owner == t || Word(s, l) == LockWord(t, true, false)
                             then Done(EDEADLK) else if clock then Blocked else Done(ENOTSUP))
            && (r.outcome == Done(OK) ==> HeldBy(Hold(r.state, l), t))
            && (r.outcome != Done(OK) ==> Hold(r.state, l) == Hold(s, l))
            && (r.outcome == Blocked ==> SleptIn(s, r.state, t, Wrlock(l)))
            && (r.outcome == Blocked ==> Writers(r.state, l) == Writers(s, l) + [t])
            && (r.outcome != Blocked ==> SameSleepers(s, r.state))
  {
    hide Inv, Settled, WrlockStep, SleptIn, SameSleepers, Writers;
    ReachableInv(s);
    SettledNow(s, t, l);
    if Idle(Hold(s, l)) {
      IdleOwner(View(s, l));
    }
    WrlockDecides(s, t, l, clock);
    WrlockKeeps(s, t, l, clock);
  }

  // ---------- Relocking ----------

  lemma ReturnRest(s: State, c: Addr, l: Addr, v: LockView, err: Errno, mid: bool)
    ensures SameSleepers(s, Return(s, c, l, v, err, mid).state) && Return(s, c, l, v, err, mid).outcome == Done(err)
  {
  }

  // Relocking, by a thread that is in no queue.
  lemma ReacquireDecides(s: State, t: nat, c: Addr, l: Addr, first: Errno, pre: bool)
    requires Settled(View(s, l)) && ValidTid(t)
    ensures var r := ReacquireStep(s, t, c, l, first, pre);
            && r.outcome == (if Object(s, l).owner == t || Word(s, l) == LockWord(t, true, false) then Done(EDEADLK)
                             else if Idle(Hold(s, l)) then Done(first) else Blocked)
            && (r.outcome == Blocked ==> SleptIn(s, r.state, t, Reacquire(l, c, first)))
            && (r.outcome == Blocked ==> Writers(r.state, l) == Writers(s, l) + [t])
            && (r.outcome != Blocked ==> SameSleepers(s, r.state))
  {
    hide Settled, Return, TryWrlock, CvWordAfter, LockAssert, Sleep;
    TryWrlockIff(View(s, l), t, false);
    TryWrlockQueues(View(s, l), t, false);
    var cv := Cv(s, c, l);
    var s1 := PutCv(s, c, CvWordAfter(CvWord(s, c), cv.waiters), cv);
    var (v, e) := TryWrlock(View(s, l), t, false);
    SleepRest(s1, l, v.(writers := v.writers + [t]), t, Reacquire(l, c, first));
    ReturnRest(s1, c, l, if e == OK then v else Unmanage(v), if e == OK then first else e,
               pre && (e == EBUSY ==> v.owner != LOCK_UNMANAGED));
  }

  lemma ReturnWaiters(s: State, c: Addr, l: Addr, v: LockView, err: Errno, mid: bool)
    requires c in s.condvars && (s.condvars[c].waiters != [] ==> s.condvars[c].waitcount > 1)
    ensures Waiters(Return(s, c, l, v, err, mid).state, c) == s.condvars[c].waiters
  {
    hide LockAssert;
  }

  // The waiters of a condition variable after relocking started.
  lemma ReacquireWaiters(s: State, t: nat, c: Addr, l: Addr, first: Errno, pre: bool)
    requires c in s.condvars && (s.condvars[c].waiters != [] ==> s.condvars[c].waitcount > 1)
    ensures Waiters(ReacquireStep(s, t, c, l, first, pre).state, c) == s.condvars[c].waiters
  {
    hide TryWrlock, CvWordAfter, LockAssert, Return;
    var cv := Cv(s, c, l);
    var s1 := PutCv(s, c, CvWordAfter(CvWord(s, c), cv.waiters), cv);
    var (v, e) := TryWrlock(View(s, l), t, false);
    ReturnWaiters(s1, c, l, if e == OK then v else Unmanage(v), if e == OK then first else e,
                  pre && (e == EBUSY ==> v.owner != LOCK_UNMANAGED));
  }

  // Without the thread that leaves, there is a waiter only if the count exceeds one.
  lemma OthersCounted(s: State, t: nat)
    requires Inv(s) && t in s.calls && s.calls[t].Wait? && t in s.fwq && s.fwq[t] == s.calls[t].Entered()
    ensures var c := s.calls[t].cv;
            && c in s.condvars && s.condvars[c].lock == s.calls[t].lock
            && (Without(s.condvars[c].waiters, t) != [] ==> s.condvars[c].waitcount > 1)
  {
    var c := s.calls[t].cv;
    assert SleeperInv(s, t);
    assert CvInv(s, c);
    CvCountsWaiters(s, c);
    WithoutShorter(s.condvars[c].waiters, t);
  }

  lemma {:induction false} WithoutShorter(q: seq<nat>, t: nat)
    requires t in q
    ensures |Without(q, t)| == |q| - 1
    decreases |q|
  {
    if q[0] != t {
      assert q == [q[0]] + q[1..];
      WithoutShorter(q[1..], t);
    }
  }

  lemma ResumeIsReacquire(s: State, t: nat)
    requires t in s.calls && s.calls[t].Wait? && t in s.fwq && s.fwq[t] == s.calls[t].Entered()
    ensures var (l, c) := (s.calls[t].lock, s.calls[t].cv);
            var cv := Cv(s, c, l);
            var s2 := PutCv(Leave(s, t), c, CvWord(s, c), cv.(waiters := Without(cv.waiters, t)));
            ResumeStep(s, t, true) == ReacquireStep(s2, t, c, l, ETIMEDOUT, LockAssert(Object(s, l)))
  {
    hide LockAssert, Leave, ReacquireStep, Without;
  }

  lemma LeaveRest(s: State, t: nat, c: Addr, word: nat, cv: Condvar)
    requires t in s.calls
    ensures var l := s.calls[t].lock;
            var s2 := PutCv(Leave(s, t), c, word, cv);
            && View(s2, l) == View(s, l)
            && s2.calls == s.calls - {t} && s2.fwq == s.fwq - {t}
  {
  }

  /* A condition wait whose deadline passed in the queue of the condition variable leaves
     it and relocks: it has the lock at once exactly if nobody holds it, reports a
     deadlock exactly if it is the recorded owner, and otherwise goes to the end of the
     queue of writers, to report the timeout once it has the lock. */
  lemma RelockOutcome(s: State, t: nat)
    requires Reachable(s) && t in s.calls && s.calls[t].Wait? && t in s.fwq && s.fwq[t] == s.calls[t].Entered()
    ensures var (l, c, r) := (s.calls[t].lock, s.calls[t].cv, ResumeStep(s, t, true));
            && r.outcome == (if Idle(Hold(s, l)) then Done(ETIMEDOUT)
                             else if Object(s, l).owner == t then Done(EDEADLK) else Blocked)
            && (r.outcome == Done(ETIMEDOUT) ==> HeldBy(Hold(r.state, l), t))
            && (r.outcome == Blocked ==> r.state.calls == s.calls[t := Reacquire(l, c, ETIMEDOUT)])
            && (r.outcome == Blocked ==> r.state.fwq == s.fwq[t := LockWriters(l)])
            && (r.outcome == Blocked ==> Writers(r.state, l) == Writers(s, l) + [t])
            && (r.outcome != Blocked ==> r.state.calls == s.calls - {t} && r.state.fwq == s.fwq - {t})
            && Waiters(r.state, c) == Without(Waiters(s, c), t)
  {
    hide Inv, Without, ResumeStep, Idle;
    ReachableInv(s);
    RelockDecides(s, t);
    RelockWaiters(s, t);
    RelockHeld(s, t);
  }

  lemma RelockDecides(s: State, t: nat)
    requires Inv(s) && t in s.calls && s.calls[t].Wait? && t in s.fwq && s.fwq[t] == s.calls[t].Entered()
    ensures var (l, c, r) := (s.calls[t].lock, s.calls[t].cv, ResumeStep(s, t, true));
            && r.outcome == (if Idle(Hold(s, l)) then Done(ETIMEDOUT)
                             else if Object(s, l).owner == t then Done(EDEADLK) else Blocked)
            && (r.outcome == Blocked ==> r.state.calls == s.calls[t := Reacquire(l, c, ETIMEDOUT)])
            && (r.outcome == Blocked ==> r.state.fwq == s.fwq[t := LockWriters(l)])
            && (r.outcome == Blocked ==> Writers(r.state, l) == Writers(s, l) + [t])
            && (r.outcome != Blocked ==> r.state.calls == s.calls - {t} && r.state.fwq == s.fwq - {t})
  {
    hide Inv, Settled, ReacquireStep, Leave, PutCv, Without, LockAssert, ResumeStep, CvWord, View, Idle, Writers;
    var (l, c) := (s.calls[t].lock, s.calls[t].cv);
    var cv := Cv(s, c, l);
    var s2 := PutCv(Leave(s, t), c, CvWord(s, c), cv.(waiters := Without(cv.waiters, t)));
    ResumeIsReacquire(s, t);
    LeaveRest(s, t, c, CvWord(s, c), cv.(waiters := Without(cv.waiters, t)));
    RelockingView(s, s2, t, l);
    ReacquireDecides(s2, t, c, l, ETIMEDOUT, LockAssert(Object(s, l)));
    var r := ReacquireStep(s2, t, c, l, ETIMEDOUT, LockAssert(Object(s, l)));
    Rejoins(s, s2, r.state, t, Reacquire(l, c, ETIMEDOUT));
  }

  // Leaving the kernel's books and entering them again replaces the old entry.
  lemma Rejoins(s: State, s2: State, s': State, t: nat, call: Call)
    requires s2.calls == s.calls - {t} && s2.fwq == s.fwq - {t}
    ensures SleptIn(s2, s', t, call) ==> SleptIn(s, s', t, call)
    ensures SameSleepers(s2, s') ==> s'.calls == s.calls - {t} && s'.fwq == s.fwq - {t}
  {
  }

  lemma RelockWaiters(s: State, t: nat)
    requires Inv(s) && t in s.calls && s.calls[t].Wait? && t in s.fwq && s.fwq[t] == s.calls[t].Entered()
    ensures Waiters(ResumeStep(s, t, true).state, s.calls[t].cv) == Without(Waiters(s, s.calls[t].cv), t)
  {
    hide Inv, ReacquireStep, Without, LockAssert, ResumeStep, Leave;
    var (l, c) := (s.calls[t].lock, s.calls[t].cv);
    var cv := Cv(s, c, l);
    var s2 := PutCv(Leave(s, t), c, CvWord(s, c), cv.(waiters := Without(cv.waiters, t)));
    ResumeIsReacquire(s, t);
    OthersCounted(s, t);
    ReacquireWaiters(s2, t, c, l, ETIMEDOUT, LockAssert(Object(s, l)));
  }

  lemma RelockHeld(s: State, t: nat)
    requires Inv(s) && t in s.calls && s.calls[t].Wait? && t in s.fwq && s.fwq[t] == s.calls[t].Entered()
    ensures ResumeStep(s, t, true).outcome == Done(ETIMEDOUT) ==>
              HeldBy(Hold(ResumeStep(s, t, true).state, s.calls[t].lock), t)
  {
    hide Inv, ResumeStep, Settled;
    ResumeKeeps(s, t, true);
    SettledHere(ResumeStep(s, t, true).state, s.calls[t].lock);
    if ResumeStep(s, t, true).outcome == Done(ETIMEDOUT) {
      ExclusiveWriter(ResumeStep(s, t, true).state, t, s.calls[t].lock);
    }
  }

  // What relocking looks at is the lock as it was, and the thread is not its writer.
  lemma RelockingView(s: State, s2: State, t: nat, l: Addr)
    requires Inv(s) && t in s.calls && t in s.fwq && s.calls[t].Wait? && s.calls[t].lock == l
    requires View(s2, l) == View(s, l)
    ensures Settled(View(s2, l)) && ValidTid(t)
    ensures Object(s2, l).owner == Object(s, l).owner && Hold(s2, l) == Hold(s, l) && Writers(s2, l) == Writers(s, l)
    ensures Word(s2, l) != LockWord(t, true, false)
    ensures Idle(Hold(s, l)) ==> Object(s, l).owner != t
  {
    assert LockInv(s, l);
    assert SleeperInv(s, t);
    if Idle(Hold(s, l)) {
      IdleOwner(View(s, l));
    }
  }

  // ---------- Condition waits ----------

  lemma WaitIsSleep(s: State, t: nat, c: Addr, l: Addr)
    requires (c in s.condvars ==> s.condvars[c].lock == l) && Unlock(View(s, l), t).1 == OK
    ensures var s1 := PassOn(s, l, Unlock(View(s, l), t).0);
            var s' := WaitStep(s, t, c, l, true).state;
            && WaitStep(s, t, c, l, true).outcome == Blocked
            && s'.calls == s.calls[t := Wait(l, c)] && s'.fwq == s1.fwq[t := CvWaiters(c)]
            && Waiters(s', c) == Waiters(s, c) + [t]
            && View(s', l) == View(s1, l)
  {
    hide Unlock, LockAssert, WaitRefused, ReacquireStep, Cleared;
  }

  lemma WaitIsReacquire(s: State, t: nat, c: Addr, l: Addr)
    requires (c in s.condvars ==> s.condvars[c].lock == l) && Unlock(View(s, l), t).1 == OK
    ensures var s1 := PassOn(s, l, Unlock(View(s, l), t).0);
            var cv := Cv(s, c, l);
            var pre := (c in s.condvars ==> CondvarAssert(s, cv)) && LockAssert(Object(s, l));
            WaitStep(s, t, c, l, false)
            == ReacquireStep(PutCv(s1, c, HAS_WAITERS, cv.(waitcount := cv.waitcount + 1)), t, c, l, ENOTSUP, pre)
  {
    hide Unlock, LockAssert, CondvarAssert, WaitRefused, WaitSleep, ReacquireStep, PassOn;
  }

  /* A condition wait that may drop the lock hands it over like an unlock. With a
     supported clock the thread then sleeps at the end of the condition variable's queue;
     everybody but the threads that got the lock waits where they waited. */
  lemma WaitOutcome(s: State, t: nat, c: Addr, l: Addr)
    requires Reachable(s) && Enabled(s, SysWait(t, c, l, true)) && !WrongLock(s, SysWait(t, c, l, true))
    requires Object(s, l).owner in {LOCK_UNMANAGED, LOCK_OWNER_UNKNOWN, t}
    ensures var r := WaitStep(s, t, c, l, true);
            var (o, o', h) := (Object(s, l), Object(r.state, l), Hold(r.state, l));
            && r.outcome == Blocked && r.state.calls == s.calls[t := Wait(l, c)]
            && Waiters(r.state, c) == Waiters(s, c) + [t] && t in r.state.fwq && r.state.fwq[t] == CvWaiters(c)
            && PassedOn(View(s, l), h)
            && (o.writers != [] ==> o'.writers == o.writers[1..] && o'.readers == o.readers)
            && (o.writers == [] ==> o'.writers == o'.readers == [])
            && SameWaiters(s, r.state, Woken(View(s, l)) + [t])
            && (forall u :: u in Woken(View(s, l)) ==> u !in r.state.fwq || u == t)
  {
    hide Inv, Settled, Unlock, WaitStep, PassOn, Woken, View;
    ReachableInv(s);
    UnlockAllowed(s, t, l);
    WaitIsSleep(s, t, c, l);
    PassOnOrder(s, l, t);
    PassOnHeld(s, l, t);
    PassOnWakes(s, l, Unlock(View(s, l), t).0);
    SameObject(WaitStep(s, t, c, l, true).state, PassOn(s, l, Unlock(View(s, l), t).0), l);
  }

  lemma SameObject(a: State, b: State, l: Addr)
    requires View(a, l) == View(b, l)
    ensures Object(a, l).writers == Object(b, l).writers && Object(a, l).readers == Object(b, l).readers
    ensures Hold(a, l) == Hold(b, l)
  {
  }

  lemma PassOnHeld(s: State, l: Addr, t: nat)
    requires Settled(View(s, l)) && ValidTid(t) && Hold(s, l).writers == {t} && Unlock(View(s, l), t).1 == OK
    ensures PassedOn(View(s, l), Hold(PassOn(s, l, Unlock(View(s, l), t).0), l))
  {
    hide Settled, Unlock;
    UnlockFacts(View(s, l), t);
  }

  // The lock as it is once a thread gave it up, which is not its owner any more.
  lemma DroppedView(s: State, t: nat, c: Addr, l: Addr)
    requires Inv(s) && Awake(s, t) && t in Hold(s, l).writers && Unlock(View(s, l), t).1 == OK
    ensures var s1 := PassOn(s, l, Unlock(View(s, l), t).0);
            && Settled(View(s1, l)) && Object(s1, l).owner != t && Word(s1, l) != LockWord(t, true, false)
            && (Idle(Hold(s1, l)) <==> Object(s, l).writers == [] && Object(s, l).readers == [])
  {
    hide Inv, Settled, Unlock;
    UnlockAllowed(s, t, l);
    UnlockFacts(View(s, l), t);
    SettledNow(s, t, l);
    var s1 := PassOn(s, l, Unlock(View(s, l), t).0);
    DroppedWord(s, t, l);
    assert Object(s, l).writers == [] && Object(s, l).readers != [] ==>
             Object(s, l).readers[0] in multiset(Object(s, l).readers);
  }

  lemma DroppedWord(s: State, t: nat, l: Addr)
    requires Settled(View(s, l)) && ValidTid(t) && Hold(s, l).writers == {t} && Unlock(View(s, l), t).1 == OK
    requires t !in Object(s, l).writers
    ensures var s1 := PassOn(s, l, Unlock(View(s, l), t).0);
            && View(s1, l) == Unlock(View(s, l), t).0
            && Object(s1, l).owner != t && Word(s1, l) != LockWord(t, true, false)
  {
    var w := Object(s, l).writers;
    assert w != [] ==> w[0] in w;
  }

  /* With a clock that is not supported the thread relocks at once: it has the lock again
     exactly if nobody was waiting for it, and otherwise goes to the end of the queue of
     writers, to report the clock once it has the lock. */
  lemma WaitClockOutcome(s: State, t: nat, c: Addr, l: Addr)
    requires Reachable(s) && Enabled(s, SysWait(t, c, l, false)) && !WrongLock(s, SysWait(t, c, l, false))
    requires Object(s, l).owner in {LOCK_UNMANAGED, LOCK_OWNER_UNKNOWN, t}
    ensures var r := WaitStep(s, t, c, l, false);
            var o := Object(s, l);
            && r.outcome == (if o.writers == [] && o.readers == [] then Done(ENOTSUP) else Blocked)
            && (r.outcome == Done(ENOTSUP) ==> t in Hold(r.state, l).writers && r.state.calls == s.calls)
            && (r.outcome == Blocked ==> r.state.calls == s.calls[t := Reacquire(l, c, ENOTSUP)])
            && (r.outcome == Blocked ==>
                  Writers(r.state, l) == (if o.writers == [] then [] else o.writers[1..]) + [t])
  {
    hide Inv, Settled, Unlock, WaitStep, PassOn, ReacquireStep, LockAssert, CondvarAssert, View;
    hide PutCv, Idle, ValidTid;
    ReachableInv(s);
    UnlockAllowed(s, t, l);
    var s1 := PassOn(s, l, Unlock(View(s, l), t).0);
    var cv := Cv(s, c, l);
    var pre := (c in s.condvars ==> CondvarAssert(s, cv)) && LockAssert(Object(s, l));
    var s2 := PutCv(s1, c, HAS_WAITERS, cv.(waitcount := cv.waitcount + 1));
    WaitIsReacquire(s, t, c, l);
    DroppedView(s, t, c, l);
    PassOnOrder(s, l, t);
    SameView(s1, c, HAS_WAITERS, cv.(waitcount := cv.waitcount + 1), l);
    ViewTells(s2, s1, l);
    ReacquireDecides(s2, t, c, l, ENOTSUP, pre);
    PassOnCalls(s, l, Unlock(View(s, l), t).0);
    WaitKeeps(s, t, c, l, false);
  }

  lemma SameView(s: State, c: Addr, word: nat, cv: Condvar, l: Addr)
    ensures View(PutCv(s, c, word, cv), l) == View(s, l) && PutCv(s, c, word, cv).calls == s.calls
  {
  }

  lemma ViewTells(a: State, b: State, l: Addr)
    requires View(a, l) == View(b, l)
    ensures Object(a, l).owner == Object(b, l).owner && Writers(a, l) == Writers(b, l)
    ensures Word(a, l) == Word(b, l) && Hold(a, l) == Hold(b, l)
  {
  }
}
