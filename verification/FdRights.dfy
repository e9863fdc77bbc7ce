/**
 Rights only ever shrink. Objects that the process creates or is started with come
 with rights of their own. Every other descriptor descends from one of those by
 duplication, replacement, restriction and file_open, however the steps of
 different threads interleave, and stays within the rights of the one that it
 descends from: of its inheriting rights alone, once something was opened.
 */
module FdRights {
  import opened FdTables
  import opened FdRuns
  import opened FdTheorems

  // The created object, with its rights, that something descends from, and whether
  // there was a file_open on the way.
  datatype Origin = Origin(root: Item, viaOpen: bool)

  /* A history of a run, which no step looks at: the origin of every descriptor, and
     of what a thread is opening or installing. */
  datatype Lineage = Lineage(slots: map<nat, Origin>, threads: map<nat, seq<Origin>>)

  const NO_LINEAGE := Lineage(map[], map[])

  function Placed(m: map<nat, Origin>, fds: seq<nat>, os: seq<Origin>): map<nat, Origin>
    requires |fds| == |os|
    decreases |fds|
  {
    if fds == [] then m else Placed(m[fds[0] := os[0]], fds[1..], os[1..])
  }

  function Installed(s: State, l: Lineage, t: nat, min: nat, fds: seq<nat>, memory: bool): Lineage {
    if t !in l.threads || |l.threads[t]| != |fds| then l
    else if Full(|s.table.slots|, s.table.used, min, |fds|) && !memory then l
    else l.(slots := Placed(l.slots, fds, l.threads[t]))
  }

  function Copied(l: Lineage, from: nat, to: nat): Lineage {
    if from in l.slots then l.(slots := l.slots[to := l.slots[from]]) else l
  }

  /* The lineage after a step: copies have the origin of what they copy, openings
     that of the directory they go through, and new objects are their own. */
  function Trace(s: State, l: Lineage, op: Op): Lineage {
    match op
    case Replace(_, from, to) =>
      if Access(s.table.slots, from, NOTHING) == Success && Access(s.table.slots, to, NOTHING) == Success
      then Copied(l, from, to) else l
    case Dup(_, fd, slot, memory) =>
      if Access(s.table.slots, fd, NOTHING) == Success && (memory || !Full(|s.table.slots|, s.table.used, 0, 1))
      then Copied(l, fd, slot) else l
    case OpenCheck(t, fd, asked, flags) =>
      if Access(s.table.slots, fd, Needed(asked, flags)) == Success && fd in l.slots
      then l.(threads := l.threads[t := [l.slots[fd].(viaOpen := true)]]) else l
    case Create(t, items) =>
      l.(threads := l.threads[t := seq(|items|, i requires 0 <= i < |items| => Origin(items[i], false))])
    case Install(t, slots, memory) => Installed(s, l, t, 0, slots, memory)
    case InstallAt(t, slot, memory) => Installed(s, l, t, slot, [slot], memory)
    case _ => l
  }

  // The lineage at the end of a run.
  ghost function Traced(s: State, l: Lineage, ops: seq<Op>): Lineage
    decreases |ops|
  {
    if ops == [] || !Enabled(s, ops[0]) || Step(s, ops[0]).Fault? then l
    else Traced(Step(s, ops[0]).state, Trace(s, l, ops[0]), ops[1..])
  }

  // The rights that a descriptor of this origin may have.
  predicate Bounded(g: Grant, o: Origin) {
    if o.viaOpen then g.base + g.inheriting <= o.root.grant.inheriting
    else Within(g, o.root.grant)
  }

  // A descriptor for object id with rights g is all right: a copy is for the very same object.
  predicate Stems(id: nat, g: Grant, o: Origin, roots: set<Item>) {
    o.root in roots && Bounded(g, o) && (!o.viaOpen ==> id == o.root.id)
  }

  predicate SlotStems(x: Slot, fd: nat, origins: map<nat, Origin>, roots: set<Item>) {
    x.Used? ==> fd in origins && Stems(x.id, x.grant, origins[fd], roots)
  }

  predicate ItemsStem(items: seq<Item>, os: seq<Origin>, roots: set<Item>) {
    && |items| == |os|
    && forall i :: 0 <= i < |items| ==> Stems(items[i].id, items[i].grant, os[i], roots)
  }

  predicate PhaseStems(p: Phase, t: nat, origins: map<nat, seq<Origin>>, roots: set<Item>) {
    match p
    case Busy(_) => true
    case Opening(_, asked) =>
      && t in origins && |origins[t]| == 1 && origins[t][0].viaOpen
      && origins[t][0].root in roots && Bounded(asked, origins[t][0])
    case Installing(items) => t in origins && ItemsStem(items, origins[t], roots)
  }

  ghost predicate TableStems(slots: seq<Slot>, origins: map<nat, Origin>, roots: set<Item>) {
    forall fd :: 0 <= fd < |slots| ==> SlotStems(slots[fd], fd, origins, roots)
  }

  ghost predicate ThreadsStem(threads: seq<Phase>, origins: map<nat, seq<Origin>>, roots: set<Item>) {
    forall t :: 0 <= t < |threads| ==> PhaseStems(threads[t], t, origins, roots)
  }

  ghost predicate AllStem(s: State, l: Lineage, roots: set<Item>) {
    && TableStems(s.table.slots, l.slots, roots)
    && ThreadsStem(s.threads, l.threads, roots)
  }

  // The objects that a step, and a run, creates.
  function Created(op: Op): set<Item> {
    if op.Create? then set i | 0 <= i < |op.items| :: op.items[i] else {}
  }

  function Roots(ops: seq<Op>): set<Item> {
    if ops == [] then {} else Created(ops[0]) + Roots(ops[1..])
  }

  /* What file_open may ask for lies within the inheriting rights of the directory
     that it goes through, whatever its flags. */
  lemma OpenDerived(slots: seq<Slot>, fd: nat, asked: Grant, flags: set<Flag>)
    requires Access(slots, fd, Needed(asked, flags)) == Success
    ensures asked.base + asked.inheriting <= slots[fd].grant.inheriting
    ensures FileOpen in slots[fd].grant.base
    ensures Creat in flags ==> FileCreateFile in slots[fd].grant.base
  {
    assert asked.base + asked.inheriting <= Needed(asked, flags).inheriting;
  }

  lemma MoreRoots(s: State, l: Lineage, roots: set<Item>, more: set<Item>)
    requires AllStem(s, l, roots)
    ensures AllStem(s, l, roots + more)
  {
    forall t | 0 <= t < |s.threads| ensures PhaseStems(s.threads[t], t, l.threads, roots + more) {
      assert PhaseStems(s.threads[t], t, l.threads, roots);
    }
    forall fd | 0 <= fd < |s.table.slots| ensures SlotStems(s.table.slots[fd], fd, l.slots, roots + more) {
      assert SlotStems(s.table.slots[fd], fd, l.slots, roots);
    }
  }

  lemma {:induction false} AttachAllStems(t: Table, fds: seq<nat>, items: seq<Item>,
                                          m: map<nat, Origin>, os: seq<Origin>, roots: set<Item>)
    requires |fds| == |items| && TableStems(t.slots, m, roots) && ItemsStem(items, os, roots)
    ensures var r := AttachAll(t, fds, items); r.Some? ==> TableStems(r.value.slots, Placed(m, fds, os), roots)
    decreases |fds|
  {
    hide Stems;
    if fds != [] {
      var r := Attach(t, fds[0], items[0].id, items[0].grant);
      if r.Some? {
        AttachAllStems(r.value, fds[1..], items[1..], m[fds[0] := os[0]], os[1..], roots);
      }
    }
  }

  lemma GrowStems(t: Table, min: nat, incr: nat, m: map<nat, Origin>, roots: set<Item>)
    requires TableStems(t.slots, m, roots)
    ensures TableStems(Grow(t, min, incr).slots, m, roots)
  {
    hide Stems;
    var r := Grown(t.slots, t.used, min, incr);
    forall fd | 0 <= fd < |r| ensures SlotStems(r[fd], fd, m, roots) {
      if fd < |t.slots| {
        assert r[fd] == t.slots[fd];
      }
    }
  }

  lemma InstallStems(s: State, l: Lineage, t: nat, min: nat, fds: seq<nat>, memory: bool, roots: set<Item>)
    requires AllStem(s, l, roots) && t < |s.threads| && s.threads[t].Installing? && |fds| == |s.threads[t].items|
    ensures var r := InstallStep(s, t, min, fds, memory);
            r.Next? ==> AllStem(r.state, Installed(s, l, t, min, fds, memory), roots)
  {
    hide Stems;
    assert PhaseStems(s.threads[t], t, l.threads, roots);
    GrowStems(s.table, min, |fds|, l.slots, roots);
    AttachAllStems(Grow(s.table, min, |fds|), fds, s.threads[t].items, l.slots, l.threads[t], roots);
  }

  // An entry of a table, copied to another place.
  lemma CopyStems(slots: seq<Slot>, x: Slot, from: nat, to: nat, l: Lineage, roots: set<Item>)
    requires TableStems(slots, l.slots, roots) && to < |slots|
    requires x.Used? && SlotStems(x, from, l.slots, roots)
    ensures TableStems(slots[to := x], Copied(l, from, to).slots, roots)
  {
    hide Stems;
  }

  lemma ReplaceStems(s: State, l: Lineage, op: Op, roots: set<Item>)
    requires op.Replace? && AllStem(s, l, roots) && Enabled(s, op) && Step(s, op).Next?
    ensures AllStem(Step(s, op).state, Trace(s, l, op), roots)
  {
    hide Stems, TableStems, ThreadsStem;
    var slots := s.table.slots;
    if Access(slots, op.from, NOTHING) == Success && Access(slots, op.to, NOTHING) == Success {
      SlotAt(slots, op.from, l.slots, roots);
      CopyStems(slots, slots[op.from], op.from, op.to, l, roots);
      assert slots[op.to := Free][op.to := slots[op.from]] == slots[op.to := slots[op.from]];
      assert Step(s, op).state.table.slots == slots[op.to := slots[op.from]];
      BusyStems(s, op.t, [slots[op.to].id], l, roots);
    }
  }

  lemma SlotAt(slots: seq<Slot>, fd: nat, m: map<nat, Origin>, roots: set<Item>)
    requires TableStems(slots, m, roots) && fd < |slots|
    ensures SlotStems(slots[fd], fd, m, roots)
  {
  }

  // A thread that only has references to give back.
  lemma BusyStems(s: State, t: nat, held: seq<nat>, l: Lineage, roots: set<Item>)
    requires AllStem(s, l, roots) && t < |s.threads|
    ensures ThreadsStem(s.threads[t := Busy(held)], l.threads, roots)
  {
    hide Stems, TableStems;
  }

  lemma DupStems(s: State, l: Lineage, op: Op, roots: set<Item>)
    requires op.Dup? && AllStem(s, l, roots) && Enabled(s, op) && Step(s, op).Next?
    ensures AllStem(Step(s, op).state, Trace(s, l, op), roots)
  {
    hide Stems, TableStems, ThreadsStem;
    var slots := s.table.slots;
    if Access(slots, op.fd, NOTHING) == Success && (op.memory || !Full(|slots|, s.table.used, 0, 1)) {
      var grown := Grow(s.table, 0, 1).slots;
      GrowStems(s.table, 0, 1, l.slots, roots);
      SlotAt(slots, op.fd, l.slots, roots);
      CopyStems(grown, slots[op.fd], op.fd, op.slot, l, roots);
      BusyStems(s, op.t, [], l, roots);
    }
  }

  lemma PutRightsStems(s: State, l: Lineage, fd: nat, g: Grant, roots: set<Item>)
    requires AllStem(s, l, roots)
    ensures AllStem(s.(table := Restrict(s.table, fd, g)), l, roots)
  {
    if Access(s.table.slots, fd, g) == Success {
      assert SlotStems(s.table.slots[fd], fd, l.slots, roots);
    }
  }

  lemma CloseStems(s: State, l: Lineage, op: Op, roots: set<Item>)
    requires op.Close? && AllStem(s, l, roots) && Enabled(s, op) && Step(s, op).Next?
    ensures AllStem(Step(s, op).state, l, roots)
  {
    hide Stems;
  }

  lemma OpenCheckStems(s: State, l: Lineage, op: Op, roots: set<Item>)
    requires op.OpenCheck? && AllStem(s, l, roots) && Enabled(s, op) && Step(s, op).Next?
    ensures AllStem(Step(s, op).state, Trace(s, l, op), roots)
  {
    hide Needed, TableStems;
    var slots := s.table.slots;
    if Access(slots, op.fd, Needed(op.asked, op.flags)) == Success {
      OpenDerived(slots, op.fd, op.asked, op.flags);
      SlotAt(slots, op.fd, l.slots, roots);
      var o := l.slots[op.fd];
      assert slots[op.fd].grant.inheriting <= o.root.grant.inheriting;
    }
  }

  lemma OpenRestStems(s: State, l: Lineage, op: Op, roots: set<Item>)
    requires op.OpenFail? || op.OpenDone? || op.Put?
    requires AllStem(s, l, roots) && Enabled(s, op) && Step(s, op).Next?
    ensures AllStem(Step(s, op).state, l, roots)
  {
    hide TableStems;
    assert PhaseStems(s.threads[op.t], op.t, l.threads, roots);
  }

  lemma TakeStems(s: State, l: Lineage, t: nat, ids: seq<nat>, roots: set<Item>)
    requires AllStem(s, l, roots) && t < |s.threads| && s.threads[t].Busy? && Take(s, t, ids).Next?
    ensures AllStem(Take(s, t, ids).state, l, roots)
  {
    hide Stems;
    AcquireAllKnows(s.table, ids);
  }

  lemma CreateStems(s: State, l: Lineage, t: nat, items: seq<Item>, roots: set<Item>)
    requires AllStem(s, l, roots) && t < |s.threads| && Created(Create(t, items)) <= roots
    ensures AllStem(State(NewAll(s.table, Ids(items)), s.threads[t := Installing(items)]),
                    Trace(s, l, Create(t, items)), roots)
  {
    NewAllSlots(s.table, Ids(items));
    forall i | 0 <= i < |items| ensures items[i] in roots {
      assert items[i] in Created(Create(t, items));
    }
  }

  /* Every step keeps every descriptor, and all rights in transit, within their origin. */
  lemma StepStems(s: State, l: Lineage, op: Op, roots: set<Item>)
    requires AllStem(s, l, roots) && Enabled(s, op) && Step(s, op).Next? && Created(op) <= roots
    ensures AllStem(Step(s, op).state, Trace(s, l, op), roots)
  {
    hide Stems, SlotStems, TableStems, Installed, CloseStep, ReplaceStep, DupStep;
    hide OpenStep, PutStep, InstallStep, Take, NewAll, New, Restrict;
    match op
    case Get(t, fd, need) => TakeStems(s, l, t, Fetched(s.table, fd, need), roots);
    case Poll(t, fds, need) => TakeStems(s, l, t, PollFetched(s.table, fds, need), roots);
    case Send(t, fds, bare) => TakeStems(s, l, t, SendFetched(s.table, fds, bare), roots);
    case Spawn =>
    case Create(t, items) => CreateStems(s, l, t, items, roots);
    case Install(t, slots, memory) => InstallStems(s, l, t, 0, slots, memory, roots);
    case InstallAt(t, slot, memory) => InstallStems(s, l, t, slot, [slot], memory, roots);
    case Close(_, _) => CloseStems(s, l, op, roots);
    case Replace(_, _, _) => ReplaceStems(s, l, op, roots);
    case Dup(_, _, _, _) => DupStems(s, l, op, roots);
    case PutRights(_, fd, g) => PutRightsStems(s, l, fd, g, roots);
    case OpenCheck(_, _, _, _) => OpenCheckStems(s, l, op, roots);
    case _ => OpenRestStems(s, l, op, roots);
  }

  lemma {:induction false} RunStems(s: State, l: Lineage, ops: seq<Op>, end: State, roots: set<Item>)
    requires AllStem(s, l, roots) && Runs(s, ops, end)
    ensures AllStem(end, Traced(s, l, ops), roots + Roots(ops))
    decreases |ops|
  {
    hide AllStem, Step, Enabled, Created, Trace;
    if ops == [] {
      assert roots + Roots(ops) == roots;
    } else {
      var more := roots + Created(ops[0]);
      MoreRoots(s, l, roots, Created(ops[0]));
      StepStems(s, l, ops[0], more);
      RunStems(Step(s, ops[0]).state, Trace(s, l, ops[0]), ops[1..], end, more);
      assert roots + Roots(ops) == more + Roots(ops[1..]);
    }
  }

  /* No run amplifies rights. A descriptor at the end of a run descends from one
     object that the run created. If nothing was opened on the way it is for that
     object, with rights within those that the object was created with; otherwise
     its base and inheriting rights together are within the inheriting ones. */
  lemma NoAmplification(ops: seq<Op>, end: State, fd: nat)
    requires Runs(START, ops, end) && fd < |end.table.slots| && end.table.slots[fd].Used?
    ensures fd in Traced(START, NO_LINEAGE, ops).slots
    ensures var o := Traced(START, NO_LINEAGE, ops).slots[fd];
            var x := end.table.slots[fd];
            && o.root in Roots(ops)
            && (!o.viaOpen ==> x.id == o.root.id && x.grant.base <= o.root.grant.base)
            && (!o.viaOpen ==> x.grant.inheriting <= o.root.grant.inheriting)
            && (o.viaOpen ==> x.grant.base + x.grant.inheriting <= o.root.grant.inheriting)
  {
    assert AllStem(START, NO_LINEAGE, {});
    RunStems(START, NO_LINEAGE, ops, end, {});
    assert {} + Roots(ops) == Roots(ops);
    assert SlotStems(end.table.slots[fd], fd, Traced(START, NO_LINEAGE, ops).slots, Roots(ops));
  }

  /* A right that the root of a descriptor was not created with never appears on it. */
  lemma RightsComeFromRoot(ops: seq<Op>, end: State, fd: nat, right: Right)
    requires Runs(START, ops, end) && fd < |end.table.slots| && end.table.slots[fd].Used?
    ensures var l := Traced(START, NO_LINEAGE, ops);
            && fd in l.slots
            && var root := l.slots[fd].root.grant;
            var g := end.table.slots[fd].grant;
            && (right in g.base ==> right in root.inheriting || (right in root.base && !l.slots[fd].viaOpen))
            && (right in g.inheriting ==> right in root.inheriting)
  {
    NoAmplification(ops, end, fd);
  }
}
