/**
 Resuming a suspended thread keeps the invariant of the futex service.
 */
module FutexResume {
  import opened LockWords
  import opened FutexLocks
  import opened FutexSteps
  import opened FutexInvariant
  import opened FutexFrames
  import opened FutexLockCalls
  import opened FutexCondvarCalls

  lemma {:induction false} WithoutFacts(q: seq<nat>, t: nat)
    requires Distinct(q)
    ensures Distinct(Without(q, t))
    ensures forall u :: u in Without(q, t) <==> u in q && u != t
  {
    if q != [] {
      DistinctTail(q);
      WithoutFacts(q[1..], t);
    }
  }

  // The condition variable a suspended thread is in, if any.
  function CvOf(call: Call): set<Addr> {
    if call.OnCondvar() then {call.cv} else {}
  }

  lemma LeaveElsewhere(s: State, t: nat)
    requires Inv(s) && t in s.calls
    ensures var call := s.calls[t];
            Except(Leave(s, t), call.lock, CvOf(call)) && CallersOf(Leave(s, t), call.lock, CvOf(call))
  {
    var call := s.calls[t];
    var l := call.lock;
    assert SleeperInv(s, t);
    InvExcept(s, l, CvOf(call));
    KeepLeave(s, l, CvOf(call), t);
    LocalWaiters(Leave(s, t), l, CvOf(call));
  }

  // The counts after a thread has left, and the queues it was not in.
  lemma LeaveCounts(s: State, t: nat)
    requires Inv(s) && t in s.calls
    ensures var l := s.calls[t].lock;
            && Object(Leave(s, t), l).waitcount == |OnLock(Leave(s, t).calls, l)|
            && Leave(s, t).condvars == s.condvars
            && (s.calls[t].OnCondvar() ==>
                  var c := s.calls[t].cv;
                  c in s.condvars && s.condvars[c].lock == l
                  && s.condvars[c].waitcount == |OnCv(Leave(s, t).calls, c)| + 1)
  {
    var l := s.calls[t].lock;
    assert LockInv(s, l);
    assert SleeperInv(s, t);
    CountOnLock(s.calls, Leave(s, t).calls, t, l);
    if s.calls[t].OnCondvar() {
      assert CvInv(s, s.calls[t].cv);
      CountOnCv(s.calls, Leave(s, t).calls, t, s.calls[t].cv);
    }
  }

  lemma LeaveHolds(s: State, l: Addr, cs: set<Addr>)
    requires Except(s, l, cs)
    ensures HoldsFor(s, l, s.fwq, Hold(s, l))
  {
    HoldsNow(s, l);
  }

  // A granted thread leaves queues and condition variables as they are.
  lemma GrantedQueues(s: State, t: nat)
    requires Inv(s) && t in s.calls && t !in s.fwq
    ensures var l := s.calls[t].lock;
            && QueuesMatch(Leave(s, t), l, View(s, l)) && Settled(View(s, l))
            && View(Leave(s, t), l) == View(s, l)
            && (s.calls[t].OnCondvar() ==>
                  var c := s.calls[t].cv;
                  && CountedIn(Leave(s, t), c, l)
                  && (CvWord(Leave(s, t), c) != HAS_NO_WAITERS <==> s.condvars[c].waiters != []))
  {
    LeaveCounts(s, t);
    assert LockInv(s, s.calls[t].lock);
    assert Leave(s, t).fwq == s.fwq;
    if s.calls[t].OnCondvar() {
      assert CvInv(s, s.calls[t].cv);
    }
  }

  lemma GrantedFacts(s: State, t: nat)
    requires Inv(s) && t in s.calls && t !in s.fwq
    ensures Granted(s, t, s.calls[t]) && LockAssert(Object(s, s.calls[t].lock))
  {
    assert SleeperInv(s, t);
    assert LockInv(s, s.calls[t].lock);
  }

  /* A thread that was dequeued by another one returns what its call promised:
     it holds the lock, and never reports a timeout of its own. */
  lemma ResumeGranted(s: State, t: nat, timedout: bool)
    requires Inv(s) && t in s.calls && t !in s.fwq
    ensures var r := ResumeStep(s, t, timedout);
            var call := s.calls[t];
            && Inv(r.state) && r.asserted
            && r.outcome == Done(if call.Reacquire? then call.first else OK)
            && Hold(r.state, call.lock) == Hold(s, call.lock) && Granted(s, t, call)
  {
    hide Inv;
    hide Except;
    hide CallersOf;
    hide CountedIn;
    hide QueuesMatch;
    hide Settled;
    hide HoldsFor;
    hide LockAssert;
    hide Finish;
    hide Return;
    hide Granted;
    hide Leave;
    var call := s.calls[t];
    var l := call.lock;
    var s1 := Leave(s, t);
    var v := View(s, l);
    LeaveElsewhere(s, t);
    GrantedQueues(s, t);
    GrantedFacts(s, t);
    LeaveHolds(s1, l, CvOf(call));
    assert v.hold == View(s1, l).hold;
    SettledLoose(v);
    match call {
      case Rdlock(_) => FinishKeeps(s1, l, v, OK, true);
      case Wrlock(_) => FinishKeeps(s1, l, v, OK, true);
      case Wait(_, c) => LeaveCounts(s, t); ReturnKeeps(s1, c, l, v, OK, true);
      case Reacquire(_, c, first) => LeaveCounts(s, t); ReturnKeeps(s1, c, l, v, first, true);
    }
  }

  lemma SettledLoose(v: LockView)
    requires Settled(v)
    ensures Loose(v)
  {
  }

  // The lock once a timed-out thread is out of its queue.
  function Removed(v: LockView, t: nat, call: Call): LockView {
    match call
    case Rdlock(_) => v.(readers := Without(v.readers, t))
    case Wait(_, _) => v
    case _ => v.(writers := Without(v.writers, t))
  }

  lemma RemovedLoose(v: LockView, t: nat, call: Call)
    requires Settled(v)
    ensures Loose(Removed(v, t, call)) && Removed(v, t, call).hold == v.hold
  {
    WithoutFacts(v.readers, t);
    WithoutFacts(v.writers, t);
  }

  lemma TimedOutQueues(s: State, t: nat)
    requires Inv(s) && t in s.calls && t in s.fwq && s.fwq[t] == s.calls[t].Entered()
    ensures var call := s.calls[t];
            QueuesMatch(Leave(s, t), call.lock, Removed(View(s, call.lock), t, call))
  {
    LeaveCounts(s, t);
    var l := s.calls[t].lock;
    assert LockInv(s, l);
    WithoutFacts(Object(s, l).readers, t);
    WithoutFacts(Object(s, l).writers, t);
  }

  lemma TimedOutFacts(s: State, t: nat)
    requires Inv(s) && t in s.calls && t in s.fwq
    ensures var l := s.calls[t].lock;
            && Settled(View(s, l)) && LockAssert(Object(s, l)) && View(Leave(s, t), l) == View(s, l)
            && ValidTid(t) && t !in Leave(s, t).calls && t !in Leave(s, t).fwq
            && (s.calls[t].OnCondvar() ==> t !in Hold(s, l).writers)
  {
    assert LockInv(s, s.calls[t].lock);
    assert SleeperInv(s, t);
  }

  /* A reader or writer whose deadline passed in its queue leaves without the lock. */
  lemma ResumeLockTimeout(s: State, t: nat)
    requires Inv(s) && t in s.calls && t in s.fwq && s.fwq[t] == s.calls[t].Entered()
    requires s.calls[t].Rdlock? || s.calls[t].Wrlock?
    ensures var r := ResumeStep(s, t, true);
            var call := s.calls[t];
            && Inv(r.state) && r.asserted && r.outcome == Done(ETIMEDOUT)
            && Hold(r.state, call.lock) == Hold(s, call.lock)
  {
    hide Inv;
    hide Except;
    hide CallersOf;
    hide QueuesMatch;
    hide Settled;
    hide Loose;
    hide HoldsFor;
    hide LockAssert;
    hide Finish;
    hide Leave;
    hide Without;
    var call := s.calls[t];
    var l := call.lock;
    var s1 := Leave(s, t);
    var v := Removed(View(s, l), t, call);
    LeaveElsewhere(s, t);
    TimedOutQueues(s, t);
    TimedOutFacts(s, t);
    RemovedLoose(View(s, l), t, call);
    LeaveHolds(s1, l, CvOf(call));
    assert v.hold == View(s1, l).hold;
    FinishKeeps(s1, l, v, ETIMEDOUT, true);
  }

  // The lock is not touched when a condition wait times out,
  lemma TimedOutLock(s: State, t: nat, c: Addr, cv: Condvar)
    requires Inv(s) && t in s.calls && t in s.fwq && s.calls[t].Wait? && s.fwq[t] == s.calls[t].Entered()
    ensures LockInvUnreleased(PutCv(Leave(s, t), c, CvWord(s, c), cv), s.calls[t].lock)
  {
    LeaveCounts(s, t);
    assert LockInv(s, s.calls[t].lock);
  }

  // and its condition variable loses the thread from its queue.
  lemma TimedOutCv(s: State, t: nat)
    requires Inv(s) && t in s.calls && t in s.fwq && s.calls[t].Wait? && s.fwq[t] == s.calls[t].Entered()
    ensures var l := s.calls[t].lock;
            var c := s.calls[t].cv;
            var cv := Cv(s, c, l);
            var s1 := PutCv(Leave(s, t), c, CvWord(s, c), cv.(waiters := Without(cv.waiters, t)));
            && c in s.condvars && cv.lock == l
            && CountedIn(s1, c, l) && (s1.condvars[c].waiters != [] ==> CvWord(s1, c) != HAS_NO_WAITERS)
  {
    LeaveCounts(s, t);
    var c := s.calls[t].cv;
    assert CvInv(s, c);
    WithoutFacts(s.condvars[c].waiters, t);
    assert Without(s.condvars[c].waiters, t) != [] ==> s.condvars[c].waiters != [];
  }

  lemma TimedOutRelocks(s: State, t: nat)
    requires Inv(s) && t in s.calls && t in s.fwq && s.calls[t].Wait? && s.fwq[t] == s.calls[t].Entered()
    ensures var l := s.calls[t].lock;
            var c := s.calls[t].cv;
            var cv := Cv(s, c, l);
            Relocking(PutCv(Leave(s, t), c, CvWord(s, c), cv.(waiters := Without(cv.waiters, t))), t, c, l)
  {
    hide Inv;
    hide Except;
    hide CallersOf;
    hide CountedIn;
    hide LockInvUnreleased;
    hide Settled;
    hide LockAssert;
    hide Without;
    var l := s.calls[t].lock;
    var c := s.calls[t].cv;
    var cv := Cv(s, c, l);
    var cv' := cv.(waiters := Without(cv.waiters, t));
    var s1 := Leave(s, t);
    LeaveElsewhere(s, t);
    TimedOutCv(s, t);
    TimedOutLock(s, t, c, cv');
    TimedOutFacts(s, t);
    KeepPutCv(s1, l, {c}, c, CvWord(s, c), cv');
    LocalWaiters(PutCv(s1, c, CvWord(s, c), cv'), l, {c});
  }

  /* A condition wait whose deadline passed relocks: it sleeps on the lock, or
     returns ETIMEDOUT holding it, or reports a deadlock. */
  lemma ResumeWaitTimeout(s: State, t: nat)
    requires Inv(s) && t in s.calls && t in s.fwq && s.calls[t].Wait? && s.fwq[t] == s.calls[t].Entered()
    ensures var r := ResumeStep(s, t, true);
            var l := s.calls[t].lock;
            && Inv(r.state) && r.asserted
            && (r.outcome == Done(EDEADLK) <==> Object(s, l).owner == t)
            && (|| r.outcome == Blocked
                || (r.outcome == Done(ETIMEDOUT) && HeldBy(Hold(r.state, l), t))
                || (r.outcome == Done(EDEADLK) && Stale(Hold(r.state, l), t)))
  {
    hide Inv;
    hide Relocking;
    hide CountedIn;
    hide ReacquireStep;
    hide LockAssert;
    hide Settled;
    hide Without;
    var l := s.calls[t].lock;
    var c := s.calls[t].cv;
    var cv := Cv(s, c, l);
    var s1 := PutCv(Leave(s, t), c, CvWord(s, c), cv.(waiters := Without(cv.waiters, t)));
    TimedOutRelocks(s, t);
    TimedOutCv(s, t);
    TimedOutFacts(s, t);
    assert Object(s1, l).owner == View(Leave(s, t), l).owner;
    ReacquireKeeps(s1, t, c, l, ETIMEDOUT, true);
  }
}
