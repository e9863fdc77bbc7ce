/**
 The futex service as a step system.

 A kernel step is the code a thread runs between two points where it gives up
 the global mutex. A thread suspended in futex_queue_sleep continues in a
 resume step, which may find a grant, a timeout or neither (a spurious
 wake-up). Between kernel steps, threads running in userspace take the fast
 paths on unmanaged words.
 */
module FutexSteps {
  import opened LockWords
  import opened FutexLocks

  type Addr = nat

  const HAS_NO_WAITERS: nat := 0
  const HAS_WAITERS: nat := 0xFFFF_FFFF

  // The queue a waiter is placed in (fw_queue); a granted waiter is in none.
  datatype Queue = LockWriters(lock: Addr) | LockReaders(lock: Addr) | CvWaiters(cv: Addr)

  // The call a suspended thread is in.
  datatype Call =
    | Rdlock(lock: Addr)
    | Wrlock(lock: Addr)
    | Wait(lock: Addr, cv: Addr)                      // first sleep of a condition wait
    | Reacquire(lock: Addr, cv: Addr, first: Errno)   // relocking after that sleep failed
  {
    predicate OnCondvar() { Wait? || Reacquire? }

    // The queue the thread entered (the parameter fq of futex_queue_sleep).
    function Entered(): Queue {
      match this
      case Rdlock(l) => LockReaders(l)
      case Wrlock(l) => LockWriters(l)
      case Wait(_, c) => CvWaiters(c)
      case Reacquire(l, _, _) => LockWriters(l)
    }
  }

  datatype LockObject = LockObject(owner: nat, writers: seq<nat>, readers: seq<nat>, waitcount: int)
  datatype Condvar = Condvar(lock: Addr, waiters: seq<nat>, waitcount: int)

  datatype State = State(
    words: map<Addr, LockWord>,         // userspace lock words
    cvwords: map<Addr, nat>,            // userspace condition variable words
    locks: map<Addr, LockObject>,       // futex_lock_list
    condvars: map<Addr, Condvar>,       // futex_condvar_list
    calls: map<nat, Call>,              // threads suspended in the kernel
    fwq: map<nat, Queue>,               // fw_queue of those that are not NULL
    holders: map<Addr, Holders>)        // history: who was told to hold which lock

  const INITIAL := State(map[], map[], map[], map[], map[], map[], map[])

  function Word(s: State, l: Addr): LockWord {
    if l in s.words then s.words[l] else UNLOCKED
  }

  function CvWord(s: State, c: Addr): nat {
    if c in s.cvwords then s.cvwords[c] else HAS_NO_WAITERS
  }

  function Hold(s: State, l: Addr): Holders {
    if l in s.holders then s.holders[l] else NOBODY
  }

  // futex_lock_lookup_locked: the lock's object, or a new one.
  function Object(s: State, l: Addr): LockObject {
    if l in s.locks then s.locks[l] else LockObject(LOCK_UNMANAGED, [], [], 0)
  }

  // futex_condvar_lookup_or_create: the condition variable's object, or a new one.
  function Cv(s: State, c: Addr, l: Addr): Condvar {
    if c in s.condvars then s.condvars[c] else Condvar(l, [], 0)
  }

  function Waiters(s: State, c: Addr): seq<nat> {
    if c in s.condvars then s.condvars[c].waiters else []
  }

  function View(s: State, l: Addr): LockView {
    var o := Object(s, l);
    LockView(Word(s, l), o.owner, o.writers, o.readers, Hold(s, l))
  }

  function Put(s: State, l: Addr, v: LockView, waitcount: int): State {
    s.(words := s.words[l := v.word],
       holders := s.holders[l := v.hold],
       locks := s.locks[l := LockObject(v.owner, v.writers, v.readers, waitcount)])
  }

  function PutCv(s: State, c: Addr, word: nat, cv: Condvar): State {
    s.(cvwords := s.cvwords[c := word], condvars := s.condvars[c := cv])
  }

  // futex_lock_release and futex_condvar_release deallocate unreferenced objects.
  function Release(s: State, l: Addr): State {
    if l in s.locks && s.locks[l].waitcount == 0 then s.(locks := s.locks - {l}) else s
  }

  function ReleaseCv(s: State, c: Addr): State {
    if c in s.condvars && s.condvars[c].waitcount == 0 then s.(condvars := s.condvars - {c}) else s
  }

  // futex_condvar_unmanage: the word after it.
  function CvWordAfter(word: nat, waiters: seq<nat>): nat {
    if waiters == [] then HAS_NO_WAITERS else word
  }

  function Without(s: seq<nat>, t: nat): seq<nat> {
    if s == [] then []
    else if s[0] == t then s[1..]
    else [s[0]] + Without(s[1..], t)
  }

  function Min(a: nat, b: nat): nat {
    if a <= b then a else b
  }

  // Clearing and redirecting the fw_queue of some waiters.
  function Cleared(fwq: map<nat, Queue>, ts: seq<nat>): map<nat, Queue> {
    map t | t in fwq && t !in ts :: fwq[t]
  }

  function Redirected(fwq: map<nat, Queue>, ts: seq<nat>, q: Queue): map<nat, Queue> {
    map t | t in fwq :: if t in ts then q else fwq[t]
  }

  // futex_queue_sleep, going to sleep: v already has the thread in its queue.
  function Sleep(s: State, l: Addr, v: LockView, t: nat, call: Call): State {
    Put(s, l, v, Object(s, l).waitcount + 1)
    .(calls := s.calls[t := call], fwq := s.fwq[t := call.Entered()])
  }

  // futex_queue_sleep, coming back: the thread's record goes away.
  function Leave(s: State, t: nat): State
    requires t in s.calls
  {
    var l := s.calls[t].lock;
    Put(s, l, View(s, l), Object(s, l).waitcount - 1).(calls := s.calls - {t}, fwq := s.fwq - {t})
  }

  // futex_lock_wake_up_next at the level of the service: v is the lock after it.
  function PassOn(s: State, l: Addr, v: LockView): State {
    Put(s, l, v, Object(s, l).waitcount).(fwq := Cleared(s.fwq, Woken(View(s, l))))
  }

  // ---------- The assertions in the code ----------

  predicate LockAssert(o: LockObject) {
    && (o.owner == LOCK_UNMANAGED <==> o.readers == [] && o.writers == [])
    && (o.waitcount != 0 || o.owner == LOCK_UNMANAGED)
  }

  predicate CondvarAssert(s: State, cv: Condvar) {
    cv.waitcount >= |cv.waiters| && LockAssert(Object(s, cv.lock))
  }

  // What a kernel step does: the new state, whether the thread slept, returned
  // or dereferenced a null pointer, and whether every assertion on the way held.
  datatype Outcome = Blocked | Done(err: Errno) | Fault
  datatype Result = Result(state: State, outcome: Outcome, asserted: bool)

  // ---------- System calls ----------

  /* futex_op_lock_rdlock up to its return or its sleep. */
  function RdlockStep(s: State, t: nat, l: Addr, clock: bool): Result {
    var o := Object(s, l);
    var (v, e) := TryRdlock(View(s, l), t);
    var mid := LockAssert(o) && (e == EBUSY ==> v.owner != LOCK_UNMANAGED);
    if e == EBUSY && clock then
      var s' := Sleep(s, l, v.(readers := v.readers + [t]), t, Rdlock(l));
      Result(s', Blocked, mid && LockAssert(s'.locks[l]))
    else
      Finish(s, l, v, if e == EBUSY then ENOTSUP else e, mid)
  }

  /* futex_op_lock_wrlock up to its return or its sleep. */
  function WrlockStep(s: State, t: nat, l: Addr, clock: bool): Result {
    var o := Object(s, l);
    var (v, e) := TryWrlock(View(s, l), t, false);
    var mid := LockAssert(o) && (e == EBUSY ==> v.owner != LOCK_UNMANAGED);
    if e == EBUSY && clock then
      var s' := Sleep(s, l, v.(writers := v.writers + [t]), t, Wrlock(l));
      Result(s', Blocked, mid && LockAssert(s'.locks[l]))
    else
      Finish(s, l, v, if e == EBUSY then ENOTSUP else e, mid)
  }

  // The common end of both: unmanage on failure, release, return.
  function Finish(s: State, l: Addr, v: LockView, err: Errno, mid: bool): Result {
    var s' := Put(s, l, if err == OK then v else Unmanage(v), Object(s, l).waitcount);
    Result(Release(s', l), Done(err), mid && LockAssert(s'.locks[l]))
  }

  /* futex_op_lock_unlock. */
  function UnlockStep(s: State, t: nat, l: Addr): Result {
    var o := Object(s, l);
    var (v, e) := Unlock(View(s, l), t);
    var s' := if e == OK then PassOn(s, l, v) else Put(s, l, v, o.waitcount);
    Result(Release(s', l), Done(e), LockAssert(o) && LockAssert(s'.locks[l]))
  }

  /* futex_op_condvar_wait up to its return or its first sleep. */
  function WaitStep(s: State, t: nat, c: Addr, l: Addr, clock: bool): Result {
    if c in s.condvars && s.condvars[c].lock != l then
      Result(s, Done(EINVAL), true)
    else
      var o := Object(s, l);
      var cv := Cv(s, c, l);
      var pre := (c in s.condvars ==> CondvarAssert(s, cv)) && LockAssert(o);
      var (v, e) := Unlock(View(s, l), t);
      if e != OK then WaitRefused(Put(s, l, v, o.waitcount), c, l, cv, e, pre)
      else if clock then WaitSleep(PassOn(s, l, v), t, c, l, cv, pre)
      else ReacquireStep(PutCv(PassOn(s, l, v), c, HAS_WAITERS, cv.(waitcount := cv.waitcount + 1)),
                         t, c, l, ENOTSUP, pre)
  }

  // The lock could not be dropped.
  function WaitRefused(s: State, c: Addr, l: Addr, cv: Condvar, e: Errno, pre: bool): Result {
    var s' := PutCv(s, c, CvWordAfter(HAS_WAITERS, cv.waiters), cv);
    Result(Release(ReleaseCv(s', c), l), Done(e), pre && CondvarAssert(s', cv))
  }

  // The lock was dropped; the thread sleeps on the condition variable.
  function WaitSleep(s: State, t: nat, c: Addr, l: Addr, cv: Condvar, pre: bool): Result {
    var s1 := PutCv(s, c, HAS_WAITERS, Condvar(l, cv.waiters + [t], cv.waitcount + 1));
    var s' := Sleep(s1, l, View(s, l), t, Wait(l, c));
    Result(s', Blocked, pre && LockAssert(s'.locks[l]))
  }

  /* The tail of futex_op_condvar_wait after an unsuccessful first sleep. The
     thread is in no queue; the condition variable still counts it. */
  function ReacquireStep(s: State, t: nat, c: Addr, l: Addr, first: Errno, pre: bool): Result {
    var o := Object(s, l);
    var cv := Cv(s, c, l);
    var s1 := PutCv(s, c, CvWordAfter(CvWord(s, c), cv.waiters), cv);
    var (v, e) := TryWrlock(View(s, l), t, false);
    var mid := pre && (e == EBUSY ==> v.owner != LOCK_UNMANAGED);
    if e == EBUSY then
      var s' := Sleep(s1, l, v.(writers := v.writers + [t]), t, Reacquire(l, c, first));
      Result(s', Blocked, mid && LockAssert(s'.locks[l]))
    else
      Return(s1, c, l, if e == OK then v else Unmanage(v), if e == OK then first else e, mid)
  }

  // The end of futex_op_condvar_wait: uncount, release, return.
  function Return(s: State, c: Addr, l: Addr, v: LockView, err: Errno, mid: bool): Result {
    var cv := Cv(s, c, l);
    var cv' := cv.(waitcount := cv.waitcount - 1);
    var s' := PutCv(Put(s, l, v, Object(s, l).waitcount), c, CvWord(s, c), cv');
    Result(Release(ReleaseCv(s', c), l), Done(err), mid && CondvarAssert(s', cv'))
  }

  /* Continuing a thread suspended in futex_queue_sleep. */
  function ResumeStep(s: State, t: nat, timedout: bool): Result
    requires t in s.calls
  {
    var call := s.calls[t];
    var l := call.lock;
    var o := Object(s, l);
    var s1 := Leave(s, t);
    if t !in s.fwq then
      // Dequeued by another thread: the sleep was successful.
      match call {
        case Rdlock(_) => Finish(s1, l, View(s, l), OK, LockAssert(o))
        case Wrlock(_) => Finish(s1, l, View(s, l), OK, LockAssert(o))
        case Wait(_, c) => Return(s1, c, l, View(s, l), OK, LockAssert(o))
        case Reacquire(_, c, first) => Return(s1, c, l, View(s, l), first, LockAssert(o))
      }
    else if s.fwq[t] == call.Entered() && timedout then
      // Still enqueued where it went to sleep.
      var v := View(s, l);
      match call {
        case Rdlock(_) => Finish(s1, l, v.(readers := Without(v.readers, t)), ETIMEDOUT, LockAssert(o))
        case Wrlock(_) => Finish(s1, l, v.(writers := Without(v.writers, t)), ETIMEDOUT, LockAssert(o))
        case Wait(_, c) =>
          var cv := Cv(s, c, l);
          ReacquireStep(PutCv(s1, c, CvWord(s, c), cv.(waiters := Without(cv.waiters, t))),
                        t, c, l, ETIMEDOUT, LockAssert(o))
        case Reacquire(_, c, _) =>
          Return(s1, c, l, Unmanage(v.(writers := Without(v.writers, t))), ETIMEDOUT, LockAssert(o))
      }
    else
      // A spurious wake-up, or a waiter that was requeued and now waits without timeout.
      Result(s, Blocked, true)
  }

  /* futex_op_condvar_signal. */
  function SignalStep(s: State, c: Addr, n: nat): Result {
    if n == 0 then Result(s, Done(OK), true)
    else if c !in s.condvars then Result(s, Done(ENOENT), true)
    else if s.condvars[c].waiters == [] then Result(s, Fault, CondvarAssert(s, s.condvars[c]))
    else
      var cv := s.condvars[c];
      var l := cv.lock;
      var o := Object(s, l);
      var first := cv.waiters[0];
      var (v, e) := TryWrlock(View(s, l), first, n > 1 && |cv.waiters| > 1);
      var pre := CondvarAssert(s, cv) && (e == EBUSY ==> v.owner != LOCK_UNMANAGED);
      if e == OK || e == EBUSY then
        var s' := SignalMoves(s, c, v, Min(n, |cv.waiters|), e == OK);
        Result(Release(ReleaseCv(s', c), l), Done(OK), pre && CondvarAssert(s', s'.condvars[c]))
      else
        Result(Release(ReleaseCv(s, c), l), Done(e), pre)
  }

  // The k oldest waiters leave the condition variable: the first one with the
  // lock if it is granted, the others for the lock's queue of writers.
  function SignalMoves(s: State, c: Addr, v: LockView, k: nat, granted: bool): State
    requires c in s.condvars && 1 <= k <= |s.condvars[c].waiters|
  {
    var cv := s.condvars[c];
    var moved := cv.waiters[if granted then 1 else 0..k];
    var cv' := cv.(waiters := cv.waiters[k..]);
    PutCv(Put(s, cv.lock, v.(writers := v.writers + moved), Object(s, cv.lock).waitcount)
          .(fwq := SignalQueues(s, c, k, granted)),
          c, CvWordAfter(CvWord(s, c), cv'.waiters), cv')
  }

  function SignalQueues(s: State, c: Addr, k: nat, granted: bool): map<nat, Queue>
    requires c in s.condvars && 1 <= k <= |s.condvars[c].waiters|
  {
    var cv := s.condvars[c];
    Redirected(if granted then Cleared(s.fwq, [cv.waiters[0]]) else s.fwq,
               cv.waiters[if granted then 1 else 0..k], LockWriters(cv.lock))
  }

  // ---------- Steps and runs ----------

  datatype Op =
    // Userspace fast paths
    | FastRdlock(t: nat, l: Addr)
    | FastWrlock(t: nat, l: Addr)
    | FastRdUnlock(t: nat, l: Addr)
    | FastWrUnlock(t: nat, l: Addr)
    | Upgrade(t: nat, l: Addr)        // the last reader of a managed lock makes itself its writer
    // System calls; clock says whether the clock is one that futex_queue_sleep supports
    | SysRdlock(t: nat, l: Addr, clock: bool)
    | SysWrlock(t: nat, l: Addr, clock: bool)
    | SysUnlock(t: nat, l: Addr)
    | SysWait(t: nat, c: Addr, l: Addr, clock: bool)
    | SysSignal(c: Addr, n: nat)
    | Resume(t: nat, timedout: bool)

  predicate Awake(s: State, t: nat) {
    ValidTid(t) && t !in s.calls
  }

  // What userspace promises. It looks at the word and at what the thread holds. Signals
  // come at any time: a look at the word may be outdated by the time of the call.
  predicate Enabled(s: State, op: Op) {
    match op
    case FastRdlock(t, l) => Awake(s, t) && !Word(s, l).managed && !Word(s, l).wrlocked
    case FastWrlock(t, l) => Awake(s, t) && Word(s, l) == UNLOCKED
    case FastRdUnlock(t, l) => Awake(s, t) && t in Hold(s, l).readers
                               && (Word(s, l).managed ==> Word(s, l).count > 1)
    case FastWrUnlock(t, l) => Awake(s, t) && t in Hold(s, l).writers && !Word(s, l).managed
    case Upgrade(t, l) => Awake(s, t) && t in Hold(s, l).readers && Word(s, l) == LockWord(1, false, true)
    case SysRdlock(t, _, _) => Awake(s, t)
    case SysWrlock(t, _, _) => Awake(s, t)
    case SysUnlock(t, l) => Awake(s, t) && t in Hold(s, l).writers
    case SysWait(t, _, l, _) => Awake(s, t) && t in Hold(s, l).writers
    case SysSignal(_, _) => true
    case Resume(t, timedout) => t in s.calls && (timedout ==> !s.calls[t].Reacquire?)
  }

  function Fast(s: State, l: Addr, w: LockWord, h: Holders): Result {
    Result(s.(words := s.words[l := w], holders := s.holders[l := h]), Done(OK), true)
  }

  function Step(s: State, op: Op): Result
    requires Enabled(s, op)
  {
    match op
    case FastRdlock(t, l) =>
      var h := Hold(s, l);
      Fast(s, l, Word(s, l).(count := Word(s, l).count + 1), Shared(h, multiset{t}))
    case FastWrlock(t, l) =>
      var h := Hold(s, l);
      Fast(s, l, LockWord(t, true, false), h.(writers := h.writers + {t}))
    case FastRdUnlock(t, l) =>
      var h := Hold(s, l);
      Fast(s, l, Word(s, l).(count := if Word(s, l).count > 0 then Word(s, l).count - 1 else 0),
           h.(readers := h.readers - multiset{t}))
    case FastWrUnlock(t, l) =>
      var h := Hold(s, l);
      Fast(s, l, UNLOCKED, h.(writers := h.writers - {t}))
    case Upgrade(t, l) =>
      var h := Hold(s, l);
      Fast(s, l, LockWord(t, true, true), h.(writers := h.writers + {t}, readers := h.readers - multiset{t}))
    case SysRdlock(t, l, clock) => RdlockStep(s, t, l, clock)
    case SysWrlock(t, l, clock) => WrlockStep(s, t, l, clock)
    case SysUnlock(t, l) => UnlockStep(s, t, l)
    case SysWait(t, c, l, clock) => WaitStep(s, t, c, l, clock)
    case SysSignal(c, n) => SignalStep(s, c, n)
    case Resume(t, timedout) => ResumeStep(s, t, timedout)
  }

  // A run: every operation is enabled where it happens.
  predicate ValidRun(s: State, ops: seq<Op>)
    decreases |ops|
  {
    ops == [] || (Enabled(s, ops[0]) && ValidRun(Step(s, ops[0]).state, ops[1..]))
  }

  function Exec(s: State, ops: seq<Op>): State
    requires ValidRun(s, ops)
    decreases |ops|
  {
    if ops == [] then s else Exec(Step(s, ops[0]).state, ops[1..])
  }
}
