/**
 The descriptor table and the reference counts of its objects, as values:
 what fd_table_grow, fd_table_attach, fd_table_detach, refcount_acquire and
 fd_object_release make of a table. A failing assertion of the source is None.
 */
module FdTables {

  // The CloudABI rights; those that file_open singles out have names here.
  datatype Right =
    | FdDatasync | FdSeek | FdSync | FdWrite
    | FileAllocate | FileCreateFile | FileOpen | FileStatFputSize
    | OtherRight(bit: nat)

  type Rights = set<Right>

  datatype Maybe<T> = None | Some(value: T)

  datatype Errno = Success | EBADF | ENOTCAPABLE | ENOMEM

  datatype Grant = Grant(base: Rights, inheriting: Rights)

  datatype Slot = Free | Used(id: nat, grant: Grant)

  /* counts holds the reference count of every allocated object; closed counts how
     often the clean-up of fd_object_release was entered for an object. */
  datatype Table = Table(slots: seq<Slot>, used: nat, counts: map<nat, nat>, closed: multiset<nat>)

  // fd_table_init
  const EMPTY := Table([], 0, map[], multiset{})

  predicate Within(need: Grant, g: Grant) {
    need.base <= g.base && need.inheriting <= g.inheriting
  }

  // fd_table_get_entry
  function Access(slots: seq<Slot>, fd: nat, need: Grant): Errno {
    if fd >= |slots| || slots[fd].Free? then EBADF
    else if Within(need, slots[fd].grant) then Success
    else ENOTCAPABLE
  }

  const NOTHING := Grant({}, {})

  predicate Full(size: nat, used: nat, min: nat, incr: nat) {
    size <= min || size < (used + incr) * 2
  }

  // The size that the doubling loop of fd_table_grow ends with.
  function Doubled(size: nat, used: nat, min: nat, incr: nat): (r: nat)
    requires size > 0
    ensures r >= size && !Full(r, used, min, incr)
    decreases min + (used + incr) * 2 - size
  {
    if Full(size, used, min, incr) then Doubled(size * 2, used, min, incr) else size
  }

  // fd_table_grow
  function Grown(slots: seq<Slot>, used: nat, min: nat, incr: nat): (r: seq<Slot>)
    ensures !Full(|r|, used, min, incr)
    ensures slots <= r && forall i :: |slots| <= i < |r| ==> r[i].Free?
  {
    if !Full(|slots|, used, min, incr) then slots
    else
      var size := Doubled(if |slots| == 0 then 1 else |slots|, used, min, incr);
      slots + seq(size - |slots|, _ => Free)
  }

  function Grow(t: Table, min: nat, incr: nat): Table {
    t.(slots := Grown(t.slots, t.used, min, incr))
  }

  // fd_table_attach
  function Attach(t: Table, fd: nat, o: nat, g: Grant): Maybe<Table> {
    if fd < |t.slots| && t.slots[fd].Free? && |t.slots| >= (t.used + 1) * 2
    then Some(t.(slots := t.slots[fd := Used(o, g)], used := t.used + 1))
    else None
  }

  // fd_table_detach; the reference of the entry passes to the caller.
  function Detach(t: Table, fd: nat): Maybe<Table> {
    if fd < |t.slots| && t.slots[fd].Used? && t.used > 0
    then Some(t.(slots := t.slots[fd := Free], used := t.used - 1))
    else None
  }

  // fd_object_new
  function New(t: Table, o: nat): Table {
    t.(counts := t.counts[o := 1])
  }

  // refcount_acquire
  function Acquire(t: Table, o: nat): Maybe<Table> {
    if o in t.counts then Some(t.(counts := t.counts[o := t.counts[o] + 1])) else None
  }

  // fd_object_release
  function Release(t: Table, o: nat): Maybe<Table> {
    if o !in t.counts || t.counts[o] == 0 then None
    else if t.counts[o] == 1 then Some(t.(counts := t.counts - {o}, closed := t.closed + multiset{o}))
    else Some(t.(counts := t.counts[o := t.counts[o] - 1]))
  }

  // The rights case of fd_stat_put.
  function Restrict(t: Table, fd: nat, g: Grant): Table {
    if Access(t.slots, fd, g) != Success then t
    else t.(slots := t.slots[fd := t.slots[fd].(grant := g)])
  }

  // What fd_object_get_locked hands out: nothing, or one reference.
  function Fetched(t: Table, fd: nat, need: Grant): seq<nat> {
    if Access(t.slots, fd, need) != Success then [] else [t.slots[fd].id]
  }

  // The entries that the loop of poll takes a reference to: all it may.
  function PollFetched(t: Table, fds: seq<nat>, need: Grant): seq<nat> {
    if fds == [] then [] else PollFetched(t, fds[..|fds| - 1], need) + Fetched(t, fds[|fds| - 1], need)
  }

  // The entries that the loop of sock_send takes a reference to: those before the first bad
  // descriptor, and up to the first object in bare, which have no host descriptor to send.
  function SendFetched(t: Table, fds: seq<nat>, bare: set<nat>): seq<nat> {
    if fds == [] || Access(t.slots, fds[0], NOTHING) != Success then []
    else if t.slots[fds[0]].id in bare then [t.slots[fds[0]].id]
    else [t.slots[fds[0]].id] + SendFetched(t, fds[1..], bare)
  }

  function AcquireAll(t: Table, os: seq<nat>): Maybe<Table>
    decreases |os|
  {
    if os == [] then Some(t)
    else
      var r := AcquireAll(t, os[..|os| - 1]);
      if r.None? then None else Acquire(r.value, os[|os| - 1])
  }

  function ReleaseAll(t: Table, os: seq<nat>): Maybe<Table>
    decreases |os|
  {
    if os == [] then Some(t)
    else
      var r := Release(t, os[0]);
      if r.None? then None else ReleaseAll(r.value, os[1..])
  }

  datatype Item = Item(id: nat, grant: Grant)

  function AttachAll(t: Table, fds: seq<nat>, items: seq<Item>): Maybe<Table>
    requires |fds| == |items|
    decreases |fds|
  {
    if fds == [] then Some(t)
    else
      var r := Attach(t, fds[0], items[0].id, items[0].grant);
      if r.None? then None else AttachAll(r.value, fds[1..], items[1..])
  }

  // The objects that the slots refer to, one reference for each used slot.
  function Objects(slots: seq<Slot>): multiset<nat> {
    if slots == [] then multiset{} else Objects(slots[..|slots| - 1]) + Reference(slots[|slots| - 1])
  }

  function Reference(s: Slot): multiset<nat> {
    if s.Free? then multiset{} else multiset{s.id}
  }

  function Count(t: Table, o: nat): nat {
    if o in t.counts then t.counts[o] else 0
  }

  predicate PowerOfTwo(n: nat) {
    n == 1 || (n > 1 && n % 2 == 0 && PowerOfTwo(n / 2))
  }

  // The table is at most half full, its size is zero or a power of two and used is right.
  ghost predicate Sound(t: Table) {
    && t.used == |Objects(t.slots)| && |t.slots| >= t.used * 2
    && (|t.slots| == 0 || PowerOfTwo(|t.slots|))
  }

  /* The reference count of every object is the number of entries and held references;
     an object that was cleaned up has no count any more and was cleaned up once. */
  ghost predicate Conserved(t: Table, held: multiset<nat>) {
    && (forall o :: Count(t, o) == Objects(t.slots)[o] + held[o])
    && (forall o :: o in t.counts ==> t.counts[o] > 0 && t.closed[o] == 0)
    && (forall o :: t.closed[o] <= 1)
  }

  ghost predicate Inv(t: Table, held: multiset<nat>) {
    Sound(t) && Conserved(t, held)
  }

  lemma {:induction false} ObjectsUpdate(slots: seq<Slot>, fd: nat, s: Slot)
    requires fd < |slots|
    ensures Objects(slots[fd := s]) + Reference(slots[fd]) == Objects(slots) + Reference(s)
    ensures |Objects(slots[fd := s])| + |Reference(slots[fd])| == |Objects(slots)| + |Reference(s)|
    decreases |slots|
  {
    hide Reference;
    var n := |slots| - 1;
    var rest := slots[..n];
    if fd == n {
      assert slots[fd := s][..n] == rest;
      Swap(Objects(slots[fd := s]), Objects(slots), Objects(rest), Reference(slots[fd]), Reference(s));
    } else {
      assert slots[fd := s][..n] == rest[fd := s];
      ObjectsUpdate(rest, fd, s);
      Extend(Objects(rest[fd := s]), Reference(rest[fd]), Objects(rest), Reference(s), Reference(slots[n]));
    }
  }

  lemma Swap(a: multiset<nat>, b: multiset<nat>, m: multiset<nat>, x: multiset<nat>, y: multiset<nat>)
    requires a == m + y && b == m + x
    ensures a + x == b + y && |a| + |x| == |b| + |y|
  {
  }

  lemma Extend(a: multiset<nat>, x: multiset<nat>, b: multiset<nat>, y: multiset<nat>, m: multiset<nat>)
    requires a + x == b + y && |a| + |x| == |b| + |y|
    ensures (a + m) + x == (b + m) + y && |a + m| + |x| == |b + m| + |y|
  {
    assert (a + m) + x == (a + x) + m;
    assert (b + m) + y == (b + y) + m;
  }

  lemma {:induction false} ObjectsGrown(slots: seq<Slot>, more: seq<Slot>)
    requires forall i :: 0 <= i < |more| ==> more[i].Free?
    ensures Objects(slots + more) == Objects(slots)
  {
    if more == [] {
      assert slots + more == slots;
    } else {
      var n := |more| - 1;
      assert (slots + more)[..|slots| + n] == slots + more[..n];
      ObjectsGrown(slots, more[..n]);
    }
  }

  lemma SumsAt(a: multiset<nat>, b: multiset<nat>, c: multiset<nat>, d: multiset<nat>, p: nat)
    requires a + b == c + d
    ensures a[p] + b[p] == c[p] + d[p]
  {
    assert (a + b)[p] == a[p] + b[p] && (c + d)[p] == c[p] + d[p];
  }

  lemma SameSums(a: multiset<nat>, b: multiset<nat>, d: multiset<nat>)
    requires a + d == b + d
    ensures a == b
  {
    forall p ensures a[p] == b[p] {
      SumsAt(a, d, b, d, p);
    }
  }

  // A used slot holds a reference.
  lemma SlotCounted(slots: seq<Slot>, fd: nat)
    requires fd < |slots| && slots[fd].Used?
    ensures slots[fd].id in Objects(slots) && |Objects(slots)| > 0
  {
    ObjectsUpdate(slots, fd, Free);
    assert slots[fd].id in Objects(slots) + Reference(Free);
  }

  lemma {:induction false} DoubledPower(size: nat, used: nat, min: nat, incr: nat)
    requires PowerOfTwo(size)
    ensures PowerOfTwo(Doubled(size, used, min, incr))
    decreases min + (used + incr) * 2 - size
  {
    if Full(size, used, min, incr) {
      assert size * 2 / 2 == size;
      DoubledPower(size * 2, used, min, incr);
    }
  }

  /* The loop ends with the least power of two that is large enough. */
  lemma {:induction false} DoubledLeast(size: nat, used: nat, min: nat, incr: nat, other: nat)
    requires PowerOfTwo(size) && PowerOfTwo(other) && other >= size
    requires !Full(other, used, min, incr)
    ensures Doubled(size, used, min, incr) <= other
    decreases min + (used + incr) * 2 - size
  {
    if Full(size, used, min, incr) {
      PowersApart(size, other);
      assert size * 2 / 2 == size;
      DoubledLeast(size * 2, used, min, incr, other);
    }
  }

  lemma {:induction false} PowersApart(a: nat, b: nat)
    requires PowerOfTwo(a) && PowerOfTwo(b) && a < b
    ensures a * 2 <= b
  {
    if a > 1 {
      PowersApart(a / 2, b / 2);
    }
  }

  /* Growing keeps every entry, adds only free ones, and makes room. */
  lemma GrowKeeps(t: Table, min: nat, incr: nat, held: multiset<nat>)
    requires Inv(t, held)
    ensures Inv(Grow(t, min, incr), held)
    ensures PowerOfTwo(|Grow(t, min, incr).slots|)
  {
    hide Objects, Doubled, PowerOfTwo;
    GrownSize(t, min, incr);
    var r := Grown(t.slots, t.used, min, incr);
    assert r == t.slots + r[|t.slots|..];
    ObjectsGrown(t.slots, r[|t.slots|..]);
  }

  lemma GrownSize(t: Table, min: nat, incr: nat)
    requires |t.slots| == 0 || PowerOfTwo(|t.slots|)
    ensures PowerOfTwo(|Grown(t.slots, t.used, min, incr)|)
  {
    hide Doubled;
    if Full(|t.slots|, t.used, min, incr) {
      DoubledPower(if |t.slots| == 0 then 1 else |t.slots|, t.used, min, incr);
    }
  }

  /* Attaching passes a held reference to the table; no assertion fails in a table with room. */
  lemma AttachKeeps(t: Table, fd: nat, o: nat, g: Grant, held: multiset<nat>)
    requires Inv(t, held) && o in held
    requires fd < |t.slots| && t.slots[fd].Free? && |t.slots| >= (t.used + 1) * 2
    ensures Attach(t, fd, o, g).Some? && Inv(Attach(t, fd, o, g).value, held - multiset{o})
  {
    hide Objects;
    ObjectsUpdate(t.slots, fd, Used(o, g));
    var t' := Attach(t, fd, o, g).value;
    forall p ensures Count(t', p) == Objects(t'.slots)[p] + (held - multiset{o})[p] {
      assert Count(t, p) == Objects(t.slots)[p] + held[p];
      SumsAt(Objects(t'.slots), multiset{}, Objects(t.slots), multiset{o}, p);
    }
  }

  /* Detaching passes the reference of the entry to the caller. */
  lemma DetachKeeps(t: Table, fd: nat, held: multiset<nat>)
    requires Inv(t, held) && fd < |t.slots| && t.slots[fd].Used?
    ensures Detach(t, fd).Some? && Inv(Detach(t, fd).value, held + multiset{t.slots[fd].id})
  {
    hide Objects;
    ObjectsUpdate(t.slots, fd, Free);
    SlotCounted(t.slots, fd);
    var t', o := Detach(t, fd).value, t.slots[fd].id;
    forall p ensures Count(t', p) == Objects(t'.slots)[p] + (held + multiset{o})[p] {
      assert Count(t, p) == Objects(t.slots)[p] + held[p];
      SumsAt(Objects(t'.slots), multiset{o}, Objects(t.slots), multiset{}, p);
    }
  }

  lemma NewKeeps(t: Table, o: nat, held: multiset<nat>)
    requires Inv(t, held) && o !in t.counts && o !in t.closed
    ensures Inv(New(t, o), held + multiset{o})
  {
    hide Objects;
    assert Count(t, o) == 0;
  }

  lemma AcquireKeeps(t: Table, o: nat, held: multiset<nat>)
    requires Inv(t, held) && o in t.counts
    ensures Acquire(t, o).Some? && Inv(Acquire(t, o).value, held + multiset{o})
  {
    hide Objects;
    var t' := Acquire(t, o).value;
    forall p ensures Count(t', p) == Objects(t'.slots)[p] + (held + multiset{o})[p] {
      assert Count(t, p) == Objects(t.slots)[p] + held[p];
    }
  }

  /* The count never becomes negative; the object is cleaned up exactly when this was
     the last reference, from the table or from a call. */
  lemma ReleaseKeeps(t: Table, o: nat, held: multiset<nat>)
    requires Inv(t, held) && o in held
    ensures Release(t, o).Some? && Inv(Release(t, o).value, held - multiset{o})
    ensures o in Release(t, o).value.closed <==> o !in Objects(t.slots) && held[o] == 1
  {
    hide Objects;
    assert Count(t, o) == Objects(t.slots)[o] + held[o];
    var t' := Release(t, o).value;
    forall p ensures Count(t', p) == Objects(t'.slots)[p] + (held - multiset{o})[p] {
      assert Count(t, p) == Objects(t.slots)[p] + held[p];
    }
  }

  lemma RestrictKeeps(t: Table, fd: nat, g: Grant, held: multiset<nat>)
    requires Inv(t, held)
    ensures Inv(Restrict(t, fd, g), held)
  {
    hide Objects;
    if Access(t.slots, fd, g) == Success {
      ObjectsUpdate(t.slots, fd, t.slots[fd].(grant := g));
      var o := multiset{t.slots[fd].id};
      SameSums(Objects(Restrict(t, fd, g).slots), Objects(t.slots), o);
      forall p ensures Count(t, p) == Objects(t.slots)[p] + held[p] {
      }
    }
  }

  // Every object in use has a reference count.
  lemma LiveObjects(t: Table, held: multiset<nat>, o: nat)
    requires Inv(t, held) && (o in Objects(t.slots) || o in held)
    ensures o in t.counts && t.counts[o] > 0 && o !in t.closed
  {
    assert Count(t, o) == Objects(t.slots)[o] + held[o];
  }

  lemma {:induction false} AcquireAllKeeps(t: Table, os: seq<nat>, held: multiset<nat>)
    requires Inv(t, held) && forall o :: o in os ==> o in t.counts
    ensures var r := AcquireAll(t, os);
            && r.Some? && r.value.slots == t.slots && r.value.counts.Keys == t.counts.Keys
            && Inv(r.value, held + multiset(os))
  {
    hide Objects;
    if os == [] {
      assert held + multiset(os) == held;
    } else {
      var n := |os| - 1;
      AcquireAllKeeps(t, os[..n], held);
      var t' := AcquireAll(t, os[..n]).value;
      AcquireKeeps(t', os[n], held + multiset(os[..n]));
      assert os == os[..n] + [os[n]];
      assert held + multiset(os) == held + multiset(os[..n]) + multiset{os[n]};
    }
  }

  lemma {:induction false} ReleaseAllKeeps(t: Table, os: seq<nat>, held: multiset<nat>)
    requires Inv(t, held) && multiset(os) <= held
    ensures var r := ReleaseAll(t, os); r.Some? && Inv(r.value, held - multiset(os))
    decreases |os|
  {
    hide Objects;
    if os == [] {
      assert held - multiset(os) == held;
    } else {
      assert os == [os[0]] + os[1..];
      assert multiset(os) == multiset{os[0]} + multiset(os[1..]);
      assert os[0] in multiset(os);
      ReleaseKeeps(t, os[0], held);
      var h := held - multiset{os[0]};
      ReleaseAllKeeps(Release(t, os[0]).value, os[1..], h);
      assert held - multiset(os) == h - multiset(os[1..]);
    }
  }

  lemma FetchedLive(t: Table, fd: nat, need: Grant, held: multiset<nat>)
    requires Inv(t, held)
    ensures forall o :: o in Fetched(t, fd, need) ==> o in Objects(t.slots) && o in t.counts
  {
    if Access(t.slots, fd, need) == Success {
      SlotCounted(t.slots, fd);
      LiveObjects(t, held, t.slots[fd].id);
    }
  }

  lemma {:induction false} PollFetchedLive(t: Table, fds: seq<nat>, need: Grant, held: multiset<nat>)
    requires Inv(t, held)
    ensures forall o :: o in PollFetched(t, fds, need) ==> o in Objects(t.slots) && o in t.counts
  {
    if fds != [] {
      PollFetchedLive(t, fds[..|fds| - 1], need, held);
      FetchedLive(t, fds[|fds| - 1], need, held);
    }
  }

  lemma {:induction false} SendFetchedLive(t: Table, fds: seq<nat>, bare: set<nat>, held: multiset<nat>)
    requires Inv(t, held)
    ensures forall o :: o in SendFetched(t, fds, bare) ==> o in Objects(t.slots) && o in t.counts
  {
    if fds != [] && Access(t.slots, fds[0], NOTHING) == Success {
      FetchedLive(t, fds[0], NOTHING, held);
      SendFetchedLive(t, fds[1..], bare, held);
    }
  }

  // The counts of t with the references os lent out on top.
  ghost function Lent(t: Table, os: multiset<nat>): Table {
    t.(counts := map o | o in t.counts :: t.counts[o] + os[o])
  }

  lemma {:induction false} AcquireAllLends(t: Table, os: seq<nat>)
    requires forall o :: o in os ==> o in t.counts
    ensures AcquireAll(t, os) == Some(Lent(t, multiset(os)))
  {
    if os == [] {
      assert Lent(t, multiset(os)).counts == t.counts;
    } else {
      var n := |os| - 1;
      AcquireAllLends(t, os[..n]);
      assert os == os[..n] + [os[n]];
      assert multiset(os) == multiset(os[..n]) + multiset{os[n]};
      assert Acquire(Lent(t, multiset(os[..n])), os[n]).value.counts == Lent(t, multiset(os)).counts;
    }
  }

  lemma {:induction false} ReleaseAllRepays(t: Table, os: seq<nat>)
    requires forall o :: o in os ==> o in t.counts && t.counts[o] > 0
    ensures ReleaseAll(Lent(t, multiset(os)), os) == Some(t)
    decreases |os|
  {
    if os == [] {
      assert Lent(t, multiset(os)).counts == t.counts;
    } else {
      assert os == [os[0]] + os[1..];
      assert multiset(os) == multiset{os[0]} + multiset(os[1..]);
      assert Release(Lent(t, multiset(os)), os[0]).value.counts == Lent(t, multiset(os[1..])).counts;
      ReleaseAllRepays(t, os[1..]);
    }
  }

  /* A poll or send that nothing interrupts leaves every count as it was, whatever
     descriptors it names, valid or not, repeated or not, and cleans nothing up. */
  lemma PollBalanced(t: Table, fds: seq<nat>, need: Grant, held: multiset<nat>)
    requires Inv(t, held)
    ensures var os := PollFetched(t, fds, need);
            && AcquireAll(t, os).Some? && ReleaseAll(AcquireAll(t, os).value, os) == Some(t)
  {
    var os := PollFetched(t, fds, need);
    PollFetchedLive(t, fds, need, held);
    AcquireAllLends(t, os);
    ReleaseAllRepays(t, os);
  }

  lemma SendBalanced(t: Table, fds: seq<nat>, bare: set<nat>, held: multiset<nat>)
    requires Inv(t, held)
    ensures var os := SendFetched(t, fds, bare);
            && AcquireAll(t, os).Some? && ReleaseAll(AcquireAll(t, os).value, os) == Some(t)
  {
    var os := SendFetched(t, fds, bare);
    SendFetchedLive(t, fds, bare, held);
    AcquireAllLends(t, os);
    ReleaseAllRepays(t, os);
  }

  // ---------- Which references poll and sock_send take ----------

  // The places of fds that name object o with the rights needed.
  ghost function Naming(slots: seq<Slot>, fds: seq<nat>, need: Grant, o: nat): set<nat> {
    set i: nat | i < |fds| && Names(slots, fds[i], need, o)
  }

  predicate Names(slots: seq<Slot>, fd: nat, need: Grant, o: nat) {
    && fd < |slots| && slots[fd].Used? && slots[fd].id == o
    && need.base <= slots[fd].grant.base && need.inheriting <= slots[fd].grant.inheriting
  }

  lemma NamingLast(slots: seq<Slot>, fds: seq<nat>, need: Grant, o: nat)
    requires fds != []
    ensures |Naming(slots, fds, need, o)| ==
            |Naming(slots, fds[..|fds| - 1], need, o)| + if Names(slots, fds[|fds| - 1], need, o) then 1 else 0
  {
    hide Names;
    var n := |fds| - 1;
    var (all, before) := (Naming(slots, fds, need, o), Naming(slots, fds[..n], need, o));
    if Names(slots, fds[n], need, o) {
      assert all == before + {n};
    } else {
      assert all == before;
    }
  }

  lemma FetchedCounts(t: Table, fd: nat, need: Grant, o: nat)
    ensures multiset(Fetched(t, fd, need))[o] == if Names(t.slots, fd, need, o) then 1 else 0
  {
  }

  lemma {:induction false} PollFetchedCounts(t: Table, fds: seq<nat>, need: Grant, o: nat)
    ensures multiset(PollFetched(t, fds, need))[o] == |Naming(t.slots, fds, need, o)|
    decreases |fds|
  {
    hide Names, Fetched;
    if fds == [] {
      assert Naming(t.slots, fds, need, o) == {};
    } else {
      var n := |fds| - 1;
      PollFetchedCounts(t, fds[..n], need, o);
      NamingLast(t.slots, fds, need, o);
      FetchedCounts(t, fds[n], need, o);
    }
  }

  /* Poll takes a reference to an object for every place that names it, and no other. */
  lemma PollCounts(t: Table, fds: seq<nat>, need: Grant, held: multiset<nat>, o: nat)
    requires Inv(t, held)
    ensures var r := AcquireAll(t, PollFetched(t, fds, need));
            r.Some? && Count(r.value, o) == Count(t, o) + |Naming(t.slots, fds, need, o)|
  {
    hide Inv, PollFetched;
    var os := PollFetched(t, fds, need);
    PollFetchedLive(t, fds, need, held);
    PollFetchedCounts(t, fds, need, o);
    AcquireAllLends(t, os);
    if o !in t.counts {
      assert o !in os && o !in multiset(os);
    }
  }

  // How far sock_send gets: where it stops, and what it has taken by then.
  ghost predicate SendStops(slots: seq<Slot>, fds: seq<nat>, bare: set<nat>, ids: seq<nat>) {
    && |ids| <= |fds|
    && (forall i :: 0 <= i < |ids| ==> fds[i] < |slots| && slots[fds[i]].Used? && ids[i] == slots[fds[i]].id)
    && (forall i :: 0 <= i < |ids| - 1 ==> ids[i] !in bare)
    && (|ids| < |fds| ==> (ids != [] && ids[|ids| - 1] in bare)
                          || fds[|ids|] >= |slots| || slots[fds[|ids|]].Free?)
    && (ids != [] && ids[|ids| - 1] !in bare && |ids| < |fds| ==>
          fds[|ids|] >= |slots| || slots[fds[|ids|]].Free?)
  }

  lemma {:induction false} SendFetchedStops(t: Table, fds: seq<nat>, bare: set<nat>)
    ensures SendStops(t.slots, fds, bare, SendFetched(t, fds, bare))
    decreases |fds|
  {
    if fds != [] && Access(t.slots, fds[0], NOTHING) == Success && t.slots[fds[0]].id !in bare {
      SendFetchedStops(t, fds[1..], bare);
      var ids := SendFetched(t, fds[1..], bare);
      assert forall i :: 0 < i <= |ids| ==> ([t.slots[fds[0]].id] + ids)[i] == ids[i - 1];
    }
  }

  /* The look-up of a descriptor, in terms of what the table holds. */
  lemma AccessIff(slots: seq<Slot>, fd: nat, need: Grant)
    ensures Access(slots, fd, need) == EBADF <==> fd >= |slots| || slots[fd].Free?
    ensures Access(slots, fd, need) == Success <==>
            && fd < |slots| && slots[fd].Used?
            && need.base <= slots[fd].grant.base && need.inheriting <= slots[fd].grant.inheriting
    ensures Access(slots, fd, need) in {Success, EBADF, ENOTCAPABLE}
  {
  }

  /* A table grows only if it has to, and then to the least power of two that will do. */
  lemma GrownLeast(slots: seq<Slot>, used: nat, min: nat, incr: nat, other: nat)
    requires PowerOfTwo(other) && other >= |slots| && other > min && other >= (used + incr) * 2
    requires |slots| == 0 || PowerOfTwo(|slots|)
    ensures |Grown(slots, used, min, incr)| <= other
    ensures |slots| > min && |slots| >= (used + incr) * 2 ==> Grown(slots, used, min, incr) == slots
  {
    if Full(|slots|, used, min, incr) {
      DoubledLeast(if |slots| == 0 then 1 else |slots|, used, min, incr, other);
    }
  }
}
