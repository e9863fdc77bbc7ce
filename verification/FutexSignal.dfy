/**
 Signalling a condition variable keeps the invariant of the futex service.
 */
module FutexSignal {
  import opened LockWords
  import opened FutexLocks
  import opened FutexSteps
  import opened FutexInvariant
  import opened FutexFrames
  import opened FutexLockCalls
  import opened FutexCondvarCalls

  // The waiters of c when a signal finds them: asleep in a wait on c, not holding its lock.
  ghost predicate Waiting(s: State, c: Addr) {
    forall u :: u in Waiters(s, c) ==>
      u in s.fwq && s.fwq[u] == CvWaiters(c) && u in s.calls && s.calls[u].Wait?
      && c in s.condvars && s.calls[u].lock == s.condvars[c].lock && s.calls[u].cv == c
      && u !in Hold(s, s.condvars[c].lock).writers && ValidTid(u)
  }

  lemma WaitersWait(s: State, c: Addr)
    requires Inv(s)
    ensures Waiting(s, c)
  {
    assert CvInv(s, c);
    forall u | u in Waiters(s, c)
      ensures u in s.fwq && s.fwq[u] == CvWaiters(c) && u in s.calls && s.calls[u].Wait?
              && c in s.condvars && s.calls[u].lock == s.condvars[c].lock && s.calls[u].cv == c
              && u !in Hold(s, s.condvars[c].lock).writers && ValidTid(u)
    {
      assert SleeperInv(s, u);
    }
  }

  // A sequence without repetitions, cut in three.
  lemma InThree(w: seq<nat>, i: nat, k: nat)
    requires Distinct(w) && i <= k <= |w|
    ensures forall u :: u in w <==> u in w[..i] || u in w[i..k] || u in w[k..]
    ensures forall u :: u in w[k..] ==> u !in w[i..k] && u !in w[..i]
    ensures forall u :: u in w[i..k] ==> u !in w[..i]
    ensures Distinct(w[i..k]) && Distinct(w[k..])
  {
    assert w == w[..i] + w[i..k] + w[k..];
  }

  // Where waiters go.
  lemma SignalTargets(s: State, c: Addr, k: nat, granted: bool)
    requires c in s.condvars && 1 <= k <= |s.condvars[c].waiters| && Distinct(s.condvars[c].waiters)
    requires Members(s.fwq, CvWaiters(c), s.condvars[c].waiters)
    ensures var cv := s.condvars[c];
            var fwq := SignalQueues(s, c, k, granted);
            var moved := cv.waiters[if granted then 1 else 0..k];
            && (forall u :: u in fwq <==> u in s.fwq && !(granted && u == cv.waiters[0]))
            && (forall u :: u in moved ==> u in cv.waiters && u in fwq && fwq[u] == LockWriters(cv.lock))
            && (forall u :: u in fwq && u !in moved ==> fwq[u] == s.fwq[u])
            && (forall u :: u in cv.waiters <==> u in cv.waiters[k..] || u in moved || (granted && u == cv.waiters[0]))
            && (forall u :: u in cv.waiters[k..] ==> u !in moved && !(granted && u == cv.waiters[0]))
            && Distinct(moved) && Distinct(cv.waiters[k..])
  {
    hide Distinct;
    var w := s.condvars[c].waiters;
    InThree(w, if granted then 1 else 0, k);
    assert granted ==> w[..1] == [w[0]];
  }

  lemma SignalHolds(s: State, c: Addr, v: LockView, k: nat, granted: bool)
    requires c in s.condvars && 1 <= k <= |s.condvars[c].waiters| && Waiting(s, c) && CvInv(s, c)
    requires HoldsFor(s, s.condvars[c].lock, s.fwq, Hold(s, s.condvars[c].lock))
    requires granted ==> Idle(Hold(s, s.condvars[c].lock)) && HeldBy(v.hold, s.condvars[c].waiters[0])
    requires !granted ==> v.hold == Hold(s, s.condvars[c].lock)
    ensures HoldsFor(s, s.condvars[c].lock, SignalQueues(s, c, k, granted), v.hold)
    ensures Moved(s, SignalQueues(s, c, k, granted), s.condvars[c].lock, {c})
  {
    hide SignalQueues;
    SignalTargets(s, c, k, granted);
  }

  // Queueing writers at a lock.
  lemma AppendWriters(v: LockView, moved: seq<nat>)
    requires Loose(v) && Distinct(moved) && ValidTids(moved) && forall u :: u in moved ==> u !in v.writers
    requires v.owner != LOCK_UNMANAGED <==> Queued(v.(writers := v.writers + moved))
    ensures Settled(v.(writers := v.writers + moved))
  {
    DistinctAppend(v.writers, moved);
  }

  lemma DistinctAppend(a: seq<nat>, b: seq<nat>)
    requires Distinct(a) && Distinct(b) && forall u :: u in b ==> u !in a
    ensures Distinct(a + b)
  {
    forall i, j | 0 <= i < j < |a + b| ensures (a + b)[i] != (a + b)[j] {
      if i < |a| <= j {
        assert (a + b)[j] == b[j - |a|] && b[j - |a|] in b;
      }
    }
  }

  // The lock after the signal: its view,
  lemma SignalView(s: State, c: Addr, v: LockView, k: nat, granted: bool)
    requires c in s.condvars && 1 <= k <= |s.condvars[c].waiters| && Waiting(s, c) && CvInv(s, c)
    requires LockInv(s, s.condvars[c].lock) && Loose(v)
    requires v.writers == Object(s, s.condvars[c].lock).writers && v.readers == Object(s, s.condvars[c].lock).readers
    requires granted ==> !Queued(v) && (v.owner != LOCK_UNMANAGED <==> k > 1)
    requires !granted ==> v.owner != LOCK_UNMANAGED
    ensures Settled(View(SignalMoves(s, c, v, k, granted), s.condvars[c].lock))
  {
    hide SignalQueues;
    hide Loose;
    hide Settled;
    hide Distinct;
    SignalTargets(s, c, k, granted);
    var moved := s.condvars[c].waiters[if granted then 1 else 0..k];
    assert |moved| == k - if granted then 1 else 0;
    AppendWriters(v, moved);
    assert View(SignalMoves(s, c, v, k, granted), s.condvars[c].lock) == v.(writers := v.writers + moved);
  }

  // and its queues.
  lemma SignalLock(s: State, c: Addr, v: LockView, k: nat, granted: bool)
    requires c in s.condvars && 1 <= k <= |s.condvars[c].waiters| && Waiting(s, c) && CvInv(s, c)
    requires LockInv(s, s.condvars[c].lock)
    requires v.writers == Object(s, s.condvars[c].lock).writers && v.readers == Object(s, s.condvars[c].lock).readers
    ensures LockCore(SignalMoves(s, c, v, k, granted), s.condvars[c].lock)
  {
    hide SignalQueues;
    hide Settled;
    SignalTargets(s, c, k, granted);
  }

  // The condition variable after the signal.
  lemma SignalCv(s: State, c: Addr, v: LockView, k: nat, granted: bool)
    requires c in s.condvars && 1 <= k <= |s.condvars[c].waiters| && CvInv(s, c)
    ensures CvInvUnreleased(SignalMoves(s, c, v, k, granted), c)
  {
    hide SignalQueues;
    SignalTargets(s, c, k, granted);
  }

  lemma MovesKeep(s: State, c: Addr, v: LockView, k: nat, granted: bool)
    requires Inv(s) && c in s.condvars && 1 <= k <= |s.condvars[c].waiters| && Loose(v)
    requires v.writers == Object(s, s.condvars[c].lock).writers && v.readers == Object(s, s.condvars[c].lock).readers
    requires granted ==> Idle(Hold(s, s.condvars[c].lock)) && HeldBy(v.hold, s.condvars[c].waiters[0])
    requires granted ==> !Queued(v) && (v.owner != LOCK_UNMANAGED <==> k > 1)
    requires !granted ==> v.hold == Hold(s, s.condvars[c].lock) && v.owner != LOCK_UNMANAGED
    ensures var s' := SignalMoves(s, c, v, k, granted);
            var l := s.condvars[c].lock;
            && Inv(Release(ReleaseCv(s', c), l)) && CondvarAssert(s', s'.condvars[c])
            && Hold(Release(ReleaseCv(s', c), l), l) == v.hold
            && View(Release(ReleaseCv(s', c), l), l) == View(s', l)
  {
    hide Inv;
    hide Except;
    hide CallersOf;
    hide LockInv;
    hide CvInv;
    hide LockCore;
    hide CvInvUnreleased;
    hide Loose;
    hide Settled;
    hide HoldsFor;
    hide Moved;
    hide Waiting;
    hide SignalQueues;
    hide LockAssert;
    hide CondvarAssert;
    hide Release;
    hide ReleaseCv;
    var cv := s.condvars[c];
    var l := cv.lock;
    var s' := SignalMoves(s, c, v, k, granted);
    Entry(s, c, l);
    WaitersWait(s, c);
    SleepersNow(s, l);
    SignalHolds(s, c, v, k, granted);
    SignalView(s, c, v, k, granted);
    SignalLock(s, c, v, k, granted);
    assert LockInvUnreleased(s', l);
    SignalCv(s, c, v, k, granted);
    var moved := cv.waiters[if granted then 1 else 0..k];
    var cv' := cv.(waiters := cv.waiters[k..]);
    KeepBoth(s, l, v.(writers := v.writers + moved), Object(s, l).waitcount, SignalQueues(s, c, k, granted),
             c, CvWordAfter(CvWord(s, c), cv'.waiters), cv');
    ReleaseCondvar(s', l, c);
    assert View(s', l).hold == v.hold;
    assert View(Release(ReleaseCv(s', c), l), l).hold == v.hold;
  }

  lemma NothingReleased(s: State, c: Addr)
    requires Inv(s) && c in s.condvars && s.condvars[c].waiters != []
    ensures Release(ReleaseCv(s, c), s.condvars[c].lock) == s
  {
    var l := s.condvars[c].lock;
    assert CvInv(s, c);
    assert LockInv(s, l);
  }

  lemma NotWriter(s: State, l: Addr, t: nat)
    requires Settled(View(s, l)) && t !in Hold(s, l).writers
    ensures Word(s, l) != LockWord(t, true, false)
  {
  }

  /* futex_op_condvar_signal. It reads the first element of an empty queue exactly
     when the condition variable has an object but no waiters, and is refused, with
     nothing changed, exactly when the oldest waiter is the recorded owner. */
  lemma SignalKeeps(s: State, c: Addr, n: nat)
    requires Inv(s)
    ensures var r := SignalStep(s, c, n);
            && Inv(r.state) && r.asserted && r.outcome in {Fault, Done(OK), Done(ENOENT), Done(EDEADLK)}
            && (r.outcome == Done(ENOENT) <==> n > 0 && c !in s.condvars)
            && (r.outcome == Fault <==> n > 0 && c in s.condvars && s.condvars[c].waiters == [])
            && (r.outcome == Done(EDEADLK) <==> n > 0 && Refuses(s, c))
            && (r.outcome == Done(EDEADLK) ==>
                  r.state == s && Stale(Hold(s, s.condvars[c].lock), s.condvars[c].waiters[0]))
  {
    hide Inv, Loose, Except, CallersOf, LockInv, CvInv, Settled, LockAssert, CondvarAssert;
    hide SignalMoves, Release, ReleaseCv, TryWrlock;
    if n > 0 && c in s.condvars {
      var cv := s.condvars[c];
      var l := cv.lock;
      Entry(s, c, l);
      if cv.waiters != [] {
        WaitersWait(s, c);
        assert cv.waiters[0] in Waiters(s, c);
        var force := n > 1 && |cv.waiters| > 1;
        TryWrlockFacts(View(s, l), cv.waiters[0], force);
        NotWriter(s, l, cv.waiters[0]);
        NothingReleased(s, c);
        var (v, e) := TryWrlock(View(s, l), cv.waiters[0], force);
        if e == OK || e == EBUSY {
          MovesKeep(s, c, v, Min(n, |cv.waiters|), e == OK);
        }
      }
    }
  }

  // The oldest waiter of a condition variable is the recorded owner of its lock.
  predicate Refuses(s: State, c: Addr) {
    && c in s.condvars && s.condvars[c].waiters != []
    && Object(s, s.condvars[c].lock).owner == s.condvars[c].waiters[0]
  }
}
