/**
 The inductive invariant of the futex service, and how to establish it again after
 a change of one lock and its condition variables.
 */
module FutexInvariant {
  import opened LockWords
  import opened FutexLocks
  import opened FutexSteps

  // The threads suspended in futex_queue_sleep on a lock, and inside a
  // condition wait on a condition variable.
  ghost function OnLock(calls: map<nat, Call>, l: Addr): set<nat> {
    set t | t in calls && calls[t].lock == l
  }

  ghost function OnCv(calls: map<nat, Call>, c: Addr): set<nat> {
    set t | t in calls && calls[t].OnCondvar() && calls[t].cv == c
  }

  // The queue's members are exactly the waiters whose fw_queue names it.
  ghost predicate Members(fwq: map<nat, Queue>, q: Queue, ts: seq<nat>) {
    forall t :: t in ts <==> t in fwq && fwq[t] == q
  }

  // The object of a lock counts the lock's sleepers and queues its waiters.
  ghost predicate LockCore(s: State, l: Addr) {
    && Object(s, l).waitcount == |OnLock(s.calls, l)|
    && Members(s.fwq, LockWriters(l), Object(s, l).writers)
    && Members(s.fwq, LockReaders(l), Object(s, l).readers)
  }

  ghost predicate LockInv(s: State, l: Addr) {
    && Settled(View(s, l))
    && LockCore(s, l)
    && (l in s.locks ==> s.locks[l].waitcount > 0)
  }

  ghost predicate CvInv(s: State, c: Addr) {
    && CvInvUnreleased(s, c)
    && (c in s.condvars ==> s.condvars[c].waitcount > 0)
  }

  // Before the objects are released, unreferenced ones may still be around.
  ghost predicate CvInvUnreleased(s: State, c: Addr) {
    && (if c in s.condvars then s.condvars[c].waitcount else 0) == |OnCv(s.calls, c)|
    && Distinct(Waiters(s, c))
    && Members(s.fwq, CvWaiters(c), Waiters(s, c))
    && (CvWord(s, c) != HAS_NO_WAITERS <==> Waiters(s, c) != [])
  }

  ghost predicate Granted(s: State, t: nat, call: Call) {
    if call.Rdlock? then t in Hold(s, call.lock).readers
    else t in Hold(s, call.lock).writers
  }

  ghost predicate SleeperInv(s: State, t: nat)
    requires t in s.calls
  {
    var call := s.calls[t];
    && ValidTid(t)
    && (t in s.fwq ==> s.fwq[t] == call.Entered() || (call.Wait? && s.fwq[t] == LockWriters(call.lock)))
    && (t !in s.fwq ==> Granted(s, t, call))
    && (call.Reacquire? ==> call.first in {ETIMEDOUT, ENOTSUP})
    && (call.OnCondvar() ==>
          && call.cv in s.condvars && s.condvars[call.cv].lock == call.lock
          && (t in s.fwq ==> t !in Hold(s, call.lock).writers))
  }

  ghost predicate Inv(s: State) {
    && s.fwq.Keys <= s.calls.Keys
    && (forall l :: LockInv(s, l))
    && (forall c :: CvInv(s, c))
    && (forall t :: t in s.calls ==> SleeperInv(s, t))
  }

  lemma InitialInv()
    ensures Inv(INITIAL)
  {
    forall l ensures LockInv(INITIAL, l) {
      assert OnLock(INITIAL.calls, l) == {};
    }
    forall c ensures CvInv(INITIAL, c) {
      assert OnCv(INITIAL.calls, c) == {};
    }
  }

  // ---------- Frames: what a step on one lock does not touch ----------

  // The invariant but for lock l and the condition variables cs.
  ghost predicate Except(s: State, l: Addr, cs: set<Addr>) {
    && s.fwq.Keys <= s.calls.Keys
    && (forall k :: k != l ==> LockInv(s, k))
    && (forall k :: k !in cs ==> CvInv(s, k))
    && (forall t :: t in s.calls ==> SleeperInv(s, t))
  }

  ghost predicate LockInvUnreleased(s: State, l: Addr) {
    Settled(View(s, l)) && LockCore(s, l)
  }

  predicate Local(q: Queue, l: Addr, cs: set<Addr>) {
    if q.CvWaiters? then q.cv in cs else q.lock == l
  }

  // From s to s', only lock l changed ...
  ghost predicate SameLocks(s: State, s': State, l: Addr) {
    forall k :: k != l ==> SameLock(s, s', k)
  }

  ghost predicate SameLock(s: State, s': State, k: Addr) {
    Word(s', k) == Word(s, k) && Hold(s', k) == Hold(s, k) && Object(s', k) == Object(s, k)
    && (k in s'.locks <==> k in s.locks)
  }

  // ... only the condition variables cs, all tied to lock l ...
  ghost predicate SameCondvars(s: State, s': State, l: Addr, cs: set<Addr>) {
    && (forall k :: k !in cs ==> SameCondvar(s, s', k))
    && (forall k :: k in cs && k in s.condvars ==> s.condvars[k].lock == l)
  }

  ghost predicate SameCondvar(s: State, s': State, k: Addr) {
    CvWord(s', k) == CvWord(s, k) && (k in s'.condvars <==> k in s.condvars)
    && (k in s.condvars ==> s'.condvars[k] == s.condvars[k])
  }

  // ... waiters only moved within their queues ...
  ghost predicate SameQueues(s: State, s': State, l: Addr, cs: set<Addr>) {
    && (forall u :: u in s.fwq && !Local(s.fwq[u], l, cs) ==> u in s'.fwq && s'.fwq[u] == s.fwq[u])
    && (forall u :: u in s'.fwq && !Local(s'.fwq[u], l, cs) ==> u in s.fwq && s'.fwq[u] == s.fwq[u])
    && (forall u :: u in s'.fwq && Local(s'.fwq[u], l, cs) ==> u in s'.calls && s'.calls[u].lock == l)
  }

  // ... and only thread t entered or left the kernel.
  ghost predicate SameCalls(calls: map<nat, Call>, calls': map<nat, Call>, t: nat, l: Addr, cs: set<Addr>) {
    calls' == calls ||
    (&& SameOthers(calls, calls', t)
     && (t in calls ==> Touches(calls[t], l, cs))
     && (t in calls' ==> Touches(calls'[t], l, cs)))
  }

  predicate Touches(call: Call, l: Addr, cs: set<Addr>) {
    call.lock == l && (call.OnCondvar() ==> call.cv in cs)
  }

  ghost predicate Confined(s: State, s': State, t: nat, l: Addr, cs: set<Addr>) {
    && SameLocks(s, s', l) && SameCondvars(s, s', l, cs)
    && SameQueues(s, s', l, cs) && SameCalls(s.calls, s'.calls, t, l, cs)
    && s'.fwq.Keys <= s'.calls.Keys
  }

  ghost predicate SleepersOn(s: State, l: Addr) {
    forall u :: u in s.calls && s.calls[u].lock == l ==> SleeperInv(s, u)
  }

  lemma FrameLock(s: State, s': State, t: nat, l: Addr, cs: set<Addr>, k: Addr)
    requires k != l && LockInv(s, k) && SameLock(s, s', k)
    requires SameQueues(s, s', l, cs) && SameCalls(s.calls, s'.calls, t, l, cs)
    ensures LockInv(s', k)
  {
    assert OnLock(s'.calls, k) == OnLock(s.calls, k);
    assert View(s', k) == View(s, k);
  }

  lemma FrameCv(s: State, s': State, t: nat, l: Addr, cs: set<Addr>, k: Addr)
    requires k !in cs && CvInv(s, k) && SameCondvar(s, s', k)
    requires SameQueues(s, s', l, cs) && SameCalls(s.calls, s'.calls, t, l, cs)
    ensures CvInv(s', k)
  {
    assert OnCv(s'.calls, k) == OnCv(s.calls, k);
    assert Waiters(s', k) == Waiters(s, k);
  }

  lemma FrameSleeper(s: State, s': State, t: nat, l: Addr, cs: set<Addr>, u: nat)
    requires u in s.calls && s.calls[u].lock != l && SleeperInv(s, u)
    requires SameLocks(s, s', l) && SameCondvars(s, s', l, cs)
    requires SameQueues(s, s', l, cs) && SameCalls(s.calls, s'.calls, t, l, cs)
    ensures u in s'.calls && SleeperInv(s', u)
  {
    assert SameLock(s, s', s.calls[u].lock);
    if s.calls[u].OnCondvar() {
      assert SameCondvar(s, s', s.calls[u].cv);
    }
  }

  lemma Frame(s: State, s': State, t: nat, l: Addr, cs: set<Addr>)
    requires Except(s, l, cs) && Confined(s, s', t, l, cs) && SleepersOn(s', l)
    ensures Except(s', l, cs)
  {
    forall k | k != l ensures LockInv(s', k) {
      FrameLock(s, s', t, l, cs, k);
    }
    forall k | k !in cs ensures CvInv(s', k) {
      FrameCv(s, s', t, l, cs, k);
    }
    forall u | u in s'.calls && s'.calls[u].lock != l ensures SleeperInv(s', u) {
      FrameSleeper(s, s', t, l, cs, u);
    }
  }

  // Only thread t differs.
  ghost predicate SameOthers(calls: map<nat, Call>, calls': map<nat, Call>, t: nat) {
    forall u :: u != t ==> (u in calls' <==> u in calls) && (u in calls ==> calls'[u] == calls[u])
  }

  lemma SizeWithout(a: set<nat>, t: nat)
    ensures |a| == |a - {t}| + if t in a then 1 else 0
  {
    if t in a {
      assert a == (a - {t}) + {t};
    }
  }

  lemma SizeChange(a: set<nat>, b: set<nat>, t: nat)
    requires forall u :: u != t ==> (u in a <==> u in b)
    ensures |b| == |a| + (if t in b then 1 else 0) - (if t in a then 1 else 0)
  {
    SizeWithout(a, t);
    SizeWithout(b, t);
    assert a - {t} == b - {t};
  }

  // The numbers of sleepers on lock l and condition variable c follow thread t.
  lemma CountOnLock(calls: map<nat, Call>, calls': map<nat, Call>, t: nat, l: Addr)
    requires SameOthers(calls, calls', t)
    ensures |OnLock(calls', l)| == |OnLock(calls, l)|
              + (if t in calls' && calls'[t].lock == l then 1 else 0)
              - (if t in calls && calls[t].lock == l then 1 else 0)
  {
    SizeChange(OnLock(calls, l), OnLock(calls', l), t);
  }

  lemma CountOnCv(calls: map<nat, Call>, calls': map<nat, Call>, t: nat, c: Addr)
    requires SameOthers(calls, calls', t)
    ensures |OnCv(calls', c)| == |OnCv(calls, c)|
              + (if t in calls' && calls'[t].OnCondvar() && calls'[t].cv == c then 1 else 0)
              - (if t in calls && calls[t].OnCondvar() && calls[t].cv == c then 1 else 0)
  {
    SizeChange(OnCv(calls, c), OnCv(calls', c), t);
  }

  // Waiters in the queues of lock l and of its condition variables cs are in a call on l.
  ghost predicate CallersOf(s: State, l: Addr, cs: set<Addr>) {
    && s.fwq.Keys <= s.calls.Keys
    && (forall u :: u in s.fwq && Local(s.fwq[u], l, cs) ==> u in s.calls && s.calls[u].lock == l)
    && (forall k :: k in cs && k in s.condvars ==> s.condvars[k].lock == l)
  }

  lemma LocalWaiters(s: State, l: Addr, cs: set<Addr>)
    requires Except(s, l, cs)
    requires forall k :: k in cs && k in s.condvars ==> s.condvars[k].lock == l
    ensures CallersOf(s, l, cs)
  {
    hide LockInv;
    hide CvInv;
    forall u | u in s.fwq && Local(s.fwq[u], l, cs) ensures u in s.calls && s.calls[u].lock == l {
      assert SleeperInv(s, u);
    }
  }

  // ---------- Releasing objects ----------

  // An unreferenced lock has no waiters.
  lemma UnreferencedLock(s: State, l: Addr)
    requires Except(s, l, {}) && LockInvUnreleased(s, l)
    ensures Object(s, l).waitcount == 0 ==> Object(s, l).writers == [] && Object(s, l).readers == []
  {
    var o := Object(s, l);
    forall t | t in o.writers || t in o.readers ensures t in OnLock(s.calls, l) {
      assert SleeperInv(s, t);
    }
    if o.writers != [] {
      assert o.writers[0] in OnLock(s.calls, l);
    }
    if o.readers != [] {
      assert o.readers[0] in OnLock(s.calls, l);
    }
  }

  lemma ReleaseConfined(s: State, l: Addr)
    requires CallersOf(s, l, {})
    ensures Confined(s, Release(s, l), 0, l, {})
  {
    assert SameLocks(s, Release(s, l), l);
  }

  lemma ReleaseSleepers(s: State, l: Addr)
    requires Except(s, l, {})
    ensures SleepersOn(Release(s, l), l)
  {
    hide LockInv;
    hide CvInv;
    forall u | u in s.calls && s.calls[u].lock == l ensures SleeperInv(Release(s, l), u) {
      assert SleeperInv(s, u);
    }
  }

  // So it is unmanaged and may be forgotten.
  lemma ReleasedLock(s: State, l: Addr)
    requires Except(s, l, {}) && LockInvUnreleased(s, l)
    ensures LockInv(Release(s, l), l) && LockAssert(Object(s, l))
    ensures View(Release(s, l), l) == View(s, l)
  {
    UnreferencedLock(s, l);
    assert View(Release(s, l), l) == View(s, l);
  }

  lemma ReleaseLock(s: State, l: Addr)
    requires Except(s, l, {}) && LockInvUnreleased(s, l)
    ensures Inv(Release(s, l)) && LockAssert(Object(s, l))
    ensures View(Release(s, l), l) == View(s, l)
  {
    hide *;
    ReleasedLock(s, l);
    assert CallersOf(s, l, {}) by { LocalWaiters(s, l, {}); }
    ReleaseConfined(s, l);
    ReleaseSleepers(s, l);
    Frame(s, Release(s, l), 0, l, {});
    Whole(Release(s, l), l, {});
  }

  lemma Whole(s: State, l: Addr, cs: set<Addr>)
    requires Except(s, l, cs) && LockInv(s, l) && forall c :: c in cs ==> CvInv(s, c)
    ensures Inv(s)
  {
    hide LockInv;
    hide CvInv;
    hide SleeperInv;
  }

  // A condition variable counts its waiters.
  lemma CvCountsWaiters(s: State, c: Addr)
    requires CvInvUnreleased(s, c) && c in s.condvars
    requires s.fwq.Keys <= s.calls.Keys
    requires forall t :: t in s.calls ==> SleeperInv(s, t)
    ensures s.condvars[c].waitcount >= |s.condvars[c].waiters|
  {
    forall t | t in Waiters(s, c) ensures t in OnCv(s.calls, c) {
      assert SleeperInv(s, t);
    }
    DistinctSize(Waiters(s, c), OnCv(s.calls, c));
  }

  lemma ReleaseCvConfined(s: State, l: Addr, c: Addr)
    requires CallersOf(s, l, {c})
    ensures Confined(s, ReleaseCv(s, c), 0, l, {c})
  {
  }

  lemma ReleaseCvSleepers(s: State, l: Addr, c: Addr)
    requires Except(s, l, {c}) && CvInvUnreleased(s, c) && c in s.condvars
    ensures SleepersOn(ReleaseCv(s, c), l)
  {
    forall u | u in s.calls && s.calls[u].lock == l ensures SleeperInv(ReleaseCv(s, c), u) {
      hide Members;
      hide Distinct;
      hide LockInv;
      hide CvInv;
      assert SleeperInv(s, u);
      assert s.calls[u].OnCondvar() && s.calls[u].cv == c ==> u in OnCv(s.calls, c);
    }
  }

  lemma ReleasedCv(s: State, l: Addr, c: Addr)
    requires Except(s, l, {c}) && CvInvUnreleased(s, c) && LockInvUnreleased(s, l)
    requires c in s.condvars
    ensures CvInv(ReleaseCv(s, c), c) && LockInvUnreleased(ReleaseCv(s, c), l)
  {
    CvCountsWaiters(s, c);
  }

  lemma ReleaseCondvar(s: State, l: Addr, c: Addr)
    requires Except(s, l, {c}) && CvInvUnreleased(s, c) && LockInvUnreleased(s, l)
    requires c in s.condvars && s.condvars[c].lock == l
    ensures Inv(Release(ReleaseCv(s, c), l)) && CondvarAssert(s, s.condvars[c])
    ensures View(Release(ReleaseCv(s, c), l), l) == View(s, l)
  {
    var s' := ReleaseCv(s, c);
    assert Object(s', l) == Object(s, l) && View(s', l) == View(s, l);
    CvCountsWaiters(s, c);
    hide *;
    ReleasedCv(s, l, c);
    assert CallersOf(s, l, {c}) by { LocalWaiters(s, l, {c}); }
    ReleaseCvConfined(s, l, c);
    ReleaseCvSleepers(s, l, c);
    Frame(s, s', 0, l, {c});
    Narrow(s', l, c);
    ReleaseLock(s', l);
    assert CondvarAssert(s, s.condvars[c]);
  }

  lemma Narrow(s: State, l: Addr, c: Addr)
    requires Except(s, l, {c}) && CvInv(s, c)
    ensures Except(s, l, {})
  {
    hide LockInv;
    hide CvInv;
    hide SleeperInv;
  }

  // A queue without duplicates is no longer than a set holding its members.
  lemma {:induction false} DistinctSize(q: seq<nat>, a: set<nat>)
    requires Distinct(q) && forall t :: t in q ==> t in a
    ensures |q| <= |a|
  {
    if q != [] {
      DistinctTail(q);
      DistinctSize(q[1..], a - {q[0]});
    }
  }
}
