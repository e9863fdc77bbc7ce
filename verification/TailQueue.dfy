/**
 The tail queues of queue.h, as the futex code uses them.

 A queue head holds a pointer to its first element and the address of the slot
 that the next element goes to; an element holds a pointer to its successor and
 the address of the slot that points to the element itself. A slot is the first
 pointer of a head or the next pointer of an element. The ghost field contents
 is the queue as a sequence, and every operation is proved to do to it what one
 expects of a queue.
 */
module TailQueue {

  datatype Slot = Unset | FirstOf(head: FutexQueue) | NextOf(waiter: Waiter)

  // struct futex_waiter
  class Waiter {
    const tid: nat
    var queue: FutexQueue?   // fw_queue
    var next: Waiter?        // fw_next.t_next
    var prev: Slot           // fw_next.t_prev

    constructor (tid: nat, queue: FutexQueue)
      ensures this.tid == tid && this.queue == queue
    {
      this.tid := tid;
      this.queue := queue;
      this.next := null;
      this.prev := Unset;
    }
  }

  // The identifiers of waiting threads.
  ghost function Tids(ws: seq<Waiter>): (s: seq<nat>)
    ensures |s| == |ws|
    ensures forall i :: 0 <= i < |s| ==> s[i] == ws[i].tid
  {
    seq(|ws|, i requires 0 <= i < |ws| => ws[i].tid)
  }

  // struct futex_queue
  class FutexQueue {
    var first: Waiter?       // fq_list.t_first
    var last: Slot           // fq_list.t_last
    var count: nat           // fq_count
    ghost var contents: seq<Waiter>

    // Every prev names the slot that points to its element, and last the final slot.
    ghost predicate Linked()
      reads this`first, this`last, this`contents, contents`next, contents`prev
    {
      && (forall i, j :: 0 <= i < j < |contents| ==> contents[i] != contents[j])
      && first == (if contents == [] then null else contents[0])
      && last == (if contents == [] then FirstOf(this) else NextOf(contents[|contents| - 1]))
      && (forall i :: 0 <= i < |contents| ==> LinkedAt(i))
    }

    ghost predicate LinkedAt(i: int)
      requires 0 <= i < |contents|
      reads this`contents, contents`next, contents`prev
    {
      && contents[i].next == (if i + 1 < |contents| then contents[i + 1] else null)
      && contents[i].prev == (if i == 0 then FirstOf(this) else NextOf(contents[i - 1]))
    }

    ghost predicate Valid()
      reads this, contents
    {
      && Linked()
      && count == |contents|
      && (forall i :: 0 <= i < |contents| ==> contents[i].queue == this)
    }

    /* futex_queue_init. */
    constructor ()
      ensures Valid() && contents == []
    {
      first := null;
      last := Unset;
      count := 0;
      contents := [];
      new;
      last := FirstOf(this);
    }

    /* TAILQ_INSERT_TAIL. */
    method InsertTail(w: Waiter)
      requires Linked() && w !in contents
      modifies this`first, this`last, this`contents, w`next, w`prev, contents`next
      ensures Linked() && contents == old(contents) + [w]
    {
      w.next := null;
      w.prev := last;
      assert contents != [] ==> contents[|contents| - 1] in contents;
      match last {
        case FirstOf(h) => h.first := w;
        case NextOf(x) => x.next := w;
      }
      last := NextOf(w);
      contents := contents + [w];
      forall i | 0 <= i < |contents| ensures LinkedAt(i) {
        assert i < |old(contents)| ==> contents[i] == old(contents)[i] && old(LinkedAt(i));
      }
    }

    /* TAILQ_REMOVE, from any position. */
    method Remove(w: Waiter, ghost k: nat)
      requires Linked() && k < |contents| && contents[k] == w
      modifies this`first, this`last, this`contents, contents`next, contents`prev
      ensures Linked() && contents == old(contents[..k] + contents[k + 1..]) && w !in contents
    {
      assert LinkedAt(k) && (k > 0 ==> LinkedAt(k - 1)) && (k + 1 < |contents| ==> LinkedAt(k + 1));
      if w.next != null {
        w.next.prev := w.prev;
      } else {
        last := w.prev;
      }
      match w.prev {
        case FirstOf(h) => h.first := w.next;
        case NextOf(x) => x.next := w.next;
      }
      ghost var before := contents;
      contents := contents[..k] + contents[k + 1..];
      forall i | 0 <= i < |contents| ensures LinkedAt(i) {
        assert old(LinkedAt(if i < k then i else i + 1));
      }
    }

    // TAILQ_FIRST and TAILQ_REMOVE of that element.
    method RemoveFirst() returns (w: Waiter)
      requires Linked() && contents != []
      modifies this`first, this`last, this`contents, contents`next, contents`prev
      ensures Linked() && contents == old(contents)[1..] && w == old(contents)[0] && w !in contents
    {
      w := first;
      Remove(w, 0);
    }

    /* The start of futex_queue_sleep: a waiter made for this queue is put at its end. */
    method Enter(w: Waiter)
      requires Valid() && w !in contents && w.queue == this
      modifies this, w`next, w`prev, contents`next
      ensures Valid() && contents == old(contents) + [w]
    {
      InsertTail(w);
      count := count + 1;
    }

    /* The end of futex_queue_sleep after a timeout: a waiter removes itself. */
    method Leave(w: Waiter, ghost k: nat)
      requires Valid() && k < |contents| && contents[k] == w
      modifies this, contents`next, contents`prev
      ensures Valid() && contents == old(contents[..k] + contents[k + 1..])
    {
      Remove(w, k);
      count := count - 1;
    }

    /* futex_queue_wake_up_best. */
    method WakeUpBest() returns (w: Waiter)
      requires Valid() && contents != []
      modifies this, contents`next, contents`prev, contents`queue
      ensures Valid() && contents == old(contents[1..])
      ensures w == old(contents[0]) && w.queue == null
    {
      first.queue := null;
      w := RemoveFirst();
      count := count - 1;
      assert forall x :: x in contents ==> x in old(contents) && x != w;
    }

    /* futex_queue_wake_up_all. */
    method WakeUpAll()
      requires Valid()
      modifies this, contents`queue
      ensures Valid() && contents == []
      ensures forall x :: x in old(contents) ==> x.queue == null
    {
      ghost var i := 0;
      var w := first;
      while w != null
        invariant 0 <= i <= |contents| && contents == old(contents)
        invariant w == if i < |contents| then contents[i] else null
        invariant Linked()
        invariant forall j :: 0 <= j < i ==> contents[j].queue == null
        decreases |contents| - i
      {
        assert LinkedAt(i);
        w.queue := null;
        w := w.next;
        i := i + 1;
      }
      first := null;
      last := FirstOf(this);
      count := 0;
      contents := [];
    }

    // One round of futex_queue_requeue.
    method MoveFirst(to: FutexQueue)
      requires Valid() && to.Valid() && this != to && contents != []
      requires forall x :: x in contents ==> x !in to.contents
      modifies this, to, contents, to.contents
      ensures Valid() && to.Valid()
      ensures contents == old(contents[1..]) && to.contents == old(to.contents + [contents[0]])
    {
      var w := RemoveFirst();
      count := count - 1;
      assert forall x :: x in contents ==> x in old(contents) && x != w && x !in to.contents;
      w.queue := to;
      to.Enter(w);
    }

    /* futex_queue_requeue: the oldest waiters, up to nwaiters of them, move to the
       end of another queue in their order. */
    method Requeue(to: FutexQueue, nwaiters: nat)
      requires Valid() && to.Valid() && this != to
      requires forall x :: x in contents ==> x !in to.contents
      modifies this, to, contents, to.contents
      ensures Valid() && to.Valid()
      ensures var k := if nwaiters <= |old(contents)| then nwaiters else |old(contents)|;
              contents == old(contents)[k..] && to.contents == old(to.contents) + old(contents)[..k]
    {
      var n := nwaiters;
      ghost var k := 0;
      while n > 0 && first != null
        invariant Valid() && to.Valid()
        invariant 0 <= k <= |old(contents)| && k + n == nwaiters
        invariant contents == old(contents)[k..]
        invariant to.contents == old(to.contents) + old(contents)[..k]
        invariant forall x :: x in contents ==> x !in to.contents
      {
        assert contents[0] == old(contents)[k] && contents[0] !in contents[1..];
        MoveFirst(to);
        n := n - 1;
        k := k + 1;
      }
    }
  }
}
