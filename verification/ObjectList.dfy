/**
 The doubly linked lists of queue.h that the lock and condition variable objects of
 the futex code are kept in. The step system has a map from addresses to objects in
 their place; here the lists are proved to be such maps: at most one object for an
 address, found if it is there, added if it is not, and taken out when unreferenced.
 */
module ObjectList {

  datatype Slot = Unset | FirstOf(list: List) | NextOf(entry: Entry)

  // struct futex_lock or struct futex_condvar, as far as the list is concerned.
  class Entry {
    const address: nat
    var waitcount: nat
    var next: Entry?     // l_next
    var prev: Slot       // l_prev

    constructor (address: nat)
      ensures this.address == address && waitcount == 0
    {
      this.address := address;
      waitcount := 0;
      next := null;
      prev := Unset;
    }
  }

  // The list as a map from addresses to objects.
  ghost function Index(es: seq<Entry>): map<nat, Entry> {
    if es == [] then map[] else Index(es[1..])[es[0].address := es[0]]
  }

  ghost predicate Unique(es: seq<Entry>) {
    forall i, j :: 0 <= i < j < |es| ==> es[i].address != es[j].address
  }

  lemma {:induction false} IndexKeys(es: seq<Entry>)
    ensures forall a :: a in Index(es) ==> Index(es)[a] in es && Index(es)[a].address == a
    ensures forall e :: e in es ==> e.address in Index(es)
    decreases |es|
  {
    if es != [] {
      IndexKeys(es[1..]);
      assert es == [es[0]] + es[1..];
    }
  }

  // In a list with unique addresses, an object is the one at its address.
  lemma IndexAt(es: seq<Entry>, k: nat)
    requires Unique(es) && k < |es|
    ensures es[k].address in Index(es) && Index(es)[es[k].address] == es[k]
  {
    IndexKeys(es);
    assert es[k] in es;
  }

  lemma UniqueRemove(es: seq<Entry>, k: nat)
    requires Unique(es) && k < |es|
    ensures var q := es[..k] + es[k + 1..];
            Unique(q) && forall e :: e in q <==> e in es && e.address != es[k].address
  {
    var q := es[..k] + es[k + 1..];
    assert forall i :: 0 <= i < |q| ==> q[i] == es[if i < k then i else i + 1];
    forall e | e in es && e.address != es[k].address ensures e in q {
      var i :| 0 <= i < |es| && es[i] == e;
      assert q[if i < k then i else i - 1] == e;
    }
  }

  lemma IndexRemove(es: seq<Entry>, k: nat)
    requires Unique(es) && k < |es|
    ensures Index(es[..k] + es[k + 1..]) == Index(es) - {es[k].address}
  {
    hide Index, Unique;
    var q := es[..k] + es[k + 1..];
    UniqueRemove(es, k);
    IndexKeys(es);
    IndexKeys(q);
    forall a: nat ensures a in Index(q) <==> a in Index(es) && a != es[k].address {
      if a in Index(es) && a != es[k].address {
        assert Index(es)[a] in q;
      }
      if a in Index(q) {
        assert Index(q)[a] in es;
      }
    }
    forall a: nat | a in Index(q) ensures Index(q)[a] == Index(es)[a] {
      OneAt(es, Index(q)[a], Index(es)[a]);
    }
  }

  // No two objects of such a list have the same address.
  lemma OneAt(es: seq<Entry>, x: Entry, y: Entry)
    requires Unique(es) && x in es && y in es && x.address == y.address
    ensures x == y
  {
  }

  class List {
    var first: Entry?        // l_first
    ghost var contents: seq<Entry>

    ghost predicate LinkedAt(i: int)
      requires 0 <= i < |contents|
      reads this`contents, contents`next, contents`prev
    {
      && contents[i].next == (if i + 1 < |contents| then contents[i + 1] else null)
      && contents[i].prev == (if i == 0 then FirstOf(this) else NextOf(contents[i - 1]))
    }

    ghost predicate Valid()
      reads this, contents`next, contents`prev
    {
      Unique(contents) && Linked()
    }

    ghost predicate Linked()
      reads this, contents`next, contents`prev
    {
      && (forall i, j :: 0 <= i < j < |contents| ==> contents[i] != contents[j])
      && first == (if contents == [] then null else contents[0])
      && (forall i :: 0 <= i < |contents| ==> LinkedAt(i))
    }

    /* LIST_HEAD_INITIALIZER. */
    constructor ()
      ensures Valid() && contents == []
    {
      first := null;
      contents := [];
    }

    /* LIST_INSERT_HEAD. */
    method InsertHead(e: Entry)
      requires Valid() && forall x :: x in contents ==> x.address != e.address
      modifies this, e`next, e`prev, contents`prev
      ensures Valid() && contents == [e] + old(contents)
    {
      assert contents != [] ==> LinkedAt(0) && contents[0] in contents;
      e.next := first;
      if first != null {
        first.prev := NextOf(e);
      }
      first := e;
      e.prev := FirstOf(this);
      contents := [e] + contents;
      forall i | 0 <= i < |contents| ensures LinkedAt(i) {
        assert i > 0 ==> contents[i] == old(contents)[i - 1] && old(LinkedAt(i - 1));
      }
    }

    /* LIST_REMOVE, from any position. */
    method Unlink(e: Entry, ghost k: nat)
      requires Linked() && k < |contents| && contents[k] == e
      modifies this, contents`next, contents`prev
      ensures Linked() && contents == old(contents[..k] + contents[k + 1..])
    {
      assert LinkedAt(k) && (k > 0 ==> LinkedAt(k - 1)) && (k + 1 < |contents| ==> LinkedAt(k + 1));
      if e.next != null {
        e.next.prev := e.prev;
      }
      match e.prev {
        case FirstOf(list) => list.first := e.next;
        case NextOf(x) => x.next := e.next;
      }
      contents := contents[..k] + contents[k + 1..];
      forall i | 0 <= i < |contents| ensures LinkedAt(i) {
        assert old(LinkedAt(if i < k then i else i + 1));
      }
    }

    method Remove(e: Entry, ghost k: nat)
      requires Valid() && k < |contents| && contents[k] == e
      modifies this, contents`next, contents`prev
      ensures Valid() && contents == old(contents[..k] + contents[k + 1..])
      ensures Index(contents) == Index(old(contents)) - {e.address}
    {
      hide Unique, Linked, Index;
      UniqueRemove(contents, k);
      IndexRemove(contents, k);
      Unlink(e, k);
    }

    /* futex_lock_lookup and futex_condvar_lookup: the object at an address, if any. */
    method Lookup(address: nat) returns (e: Entry?)
      requires Valid()
      ensures e != null <==> address in Index(contents)
      ensures e != null ==> Index(contents)[address] == e && e in contents && e.address == address
    {
      IndexKeys(contents);
      ghost var i := 0;
      e := first;
      while e != null
        invariant 0 <= i <= |contents| && e == (if i < |contents| then contents[i] else null)
        invariant forall j :: 0 <= j < i ==> contents[j].address != address
        decreases |contents| - i
      {
        assert LinkedAt(i);
        if e.address == address {
          IndexAt(contents, i);
          return;
        }
        e := e.next;
        i := i + 1;
      }
    }

    /* futex_lock_lookup_locked: the object at an address, made if there is none and
       there is memory for it. */
    method LookupOrCreate(address: nat, memory: bool) returns (e: Entry?)
      requires Valid()
      modifies this, contents`prev
      ensures Valid()
      ensures e == null <==> address !in Index(old(contents)) && !memory
      ensures e == null ==> contents == old(contents)
      ensures e != null ==> e.address == address && Index(contents) == Index(old(contents))[address := e]
      ensures address in Index(old(contents)) ==> e == Index(old(contents))[address] && contents == old(contents)
      ensures address !in Index(old(contents)) && memory ==>
                e != null && fresh(e) && e.waitcount == 0 && contents == [e] + old(contents)
    {
      e := Lookup(address);
      if e != null || !memory {
        return;
      }
      IndexKeys(contents);
      var made := new Entry(address);
      InsertHead(made);
      assert contents[1..] == old(contents);
      e := made;
    }

    /* futex_lock_release and futex_condvar_release: an object goes exactly if nobody
       waits on it. */
    method Release(e: Entry, ghost k: nat)
      requires Valid() && k < |contents| && contents[k] == e
      modifies this, contents`next, contents`prev
      ensures Valid()
      ensures Index(contents) ==
              if e.waitcount == 0 then Index(old(contents)) - {e.address} else Index(old(contents))
    {
      if e.waitcount == 0 {
        Remove(e, k);
      }
    }
  }
}
