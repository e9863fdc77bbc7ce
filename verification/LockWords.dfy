/**
 The 32-bit userspace lock word of a futex lock.

 The low 30 bits hold the writer's thread identifier or the number of readers,
 bit 30 is CLOUDABI_LOCK_WRLOCKED and bit 31 is CLOUDABI_LOCK_KERNEL_MANAGED.
 The step system works on the record LockWord, the lock object on raw words; the
 lemmas say that the operators the code applies to a raw word do the same as
 updates of the record, and for which words that is so.
 */
module LockWords {

  const WRLOCKED: nat := 0x4000_0000
  const KERNEL_MANAGED: nat := 0x8000_0000
  const WORD_LIMIT: nat := 0x1_0000_0000

  type Raw = x: nat | x < WORD_LIMIT

  datatype LockWord = LockWord(count: nat, wrlocked: bool, managed: bool)

  const UNLOCKED := LockWord(0, false, false)

  // Thread identifiers are 30 bits wide; zero and one are reserved.
  predicate ValidTid(tid: nat) {
    2 <= tid < WRLOCKED
  }

  // The count fits the low 30 bits.
  predicate Representable(w: LockWord) {
    w.count < WRLOCKED
  }

  function Encode(w: LockWord): Raw
    requires Representable(w)
  {
    w.count + (if w.wrlocked then WRLOCKED else 0) + (if w.managed then KERNEL_MANAGED else 0)
  }

  function Decode(raw: Raw): LockWord {
    LockWord(raw % WRLOCKED, HasBit(raw, WRLOCKED), HasBit(raw, KERNEL_MANAGED))
  }

  // The operators of C on an unsigned 32-bit word, for a mask of a single bit.
  predicate HasBit(raw: Raw, bit: nat)
    requires bit > 0
  {
    raw / bit % 2 == 1
  }

  function SetBit(raw: Raw, bit: nat): Raw
    requires bit == WRLOCKED || bit == KERNEL_MANAGED
  {
    if HasBit(raw, bit) then raw else raw + bit
  }

  function ClearBit(raw: Raw, bit: nat): Raw
    requires bit == WRLOCKED || bit == KERNEL_MANAGED
  {
    if HasBit(raw, bit) then raw - bit else raw
  }

  function AddOne(raw: Raw): Raw {
    (raw + 1) % WORD_LIMIT
  }

  /* Encoding and decoding are inverse to each other on all words. */
  lemma RoundTrip(w: LockWord, raw: Raw)
    requires Representable(w)
    ensures Decode(Encode(w)) == w
    ensures Representable(Decode(raw)) && Encode(Decode(raw)) == raw
  {
  }

  /* Different raw words are different lock words. */
  lemma DecodeInjective(a: Raw, b: Raw)
    requires Decode(a) == Decode(b)
    ensures a == b
  {
    RoundTrip(UNLOCKED, a);
    RoundTrip(UNLOCKED, b);
  }

  // The flags, and the word of an unlocked lock.
  lemma Flags(raw: Raw)
    ensures HasBit(raw, WRLOCKED) <==> Decode(raw).wrlocked
    ensures HasBit(raw, KERNEL_MANAGED) <==> Decode(raw).managed
  {
  }

  lemma ZeroWord()
    ensures Decode(0) == UNLOCKED
  {
  }

  /* Setting and clearing the kernel-managed bit touches nothing else. */
  lemma ManagedBit(raw: Raw)
    ensures Decode(SetBit(raw, KERNEL_MANAGED)) == Decode(raw).(managed := true)
    ensures Decode(ClearBit(raw, KERNEL_MANAGED)) == Decode(raw).(managed := false)
  {
  }

  /* The two masks of futex_lock_set_owner. */
  lemma OwnerMasks(raw: Raw)
    ensures ClearBit(raw, WRLOCKED) == 0 <==> Decode(raw).count == 0 && !Decode(raw).managed
    ensures ClearBit(ClearBit(raw, WRLOCKED), KERNEL_MANAGED) == Decode(raw).count
  {
    var w := Decode(raw);
    RoundTrip(w, raw);
    assert raw == Encode(w);
  }

  /* A writer's word, tid | WRLOCKED with the managed bit on request. */
  lemma WriterWord(tid: nat)
    requires ValidTid(tid)
    ensures Decode(SetBit(tid, WRLOCKED)) == LockWord(tid, true, false)
    ensures Decode(SetBit(SetBit(tid, WRLOCKED), KERNEL_MANAGED)) == LockWord(tid, true, true)
  {
  }

  // A word that counts readers, and nothing else.
  lemma ReadersWord(n: nat)
    requires n < WRLOCKED
    ensures Decode(n) == LockWord(n, false, false)
  {
  }

  /* Adding a reader by incrementing the raw word is faithful for every count but
     the largest one, where the carry makes a write-locked word. */
  lemma AddReader(raw: Raw)
    requires !Decode(raw).wrlocked
    ensures var w := Decode(raw);
            Decode(AddOne(raw)) ==
            if w.count + 1 < WRLOCKED then w.(count := w.count + 1) else LockWord(0, true, w.managed)
  {
    var w := Decode(raw);
    RoundTrip(w, raw);
    assert raw == w.count + (if w.managed then KERNEL_MANAGED else 0);
  }
}
