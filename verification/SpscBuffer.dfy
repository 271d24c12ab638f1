/** SpscRingBuffer as one thread sees it: two wrapping indices over an array, and the queue they describe. */
module SpscBuffer {
  import opened Prelude
  import opened Modular
  import M = SpscRing
  import S = SpscSafety

  const WRAP: nat := M.WRAP

  function SlotOf(n: nat, size: nat): (i: nat)
    requires size > 0
    ensures i < size
  {
    n % size
  }

  /** The items numbered `lo` up to `hi`, each in its slot. */
  ghost function Queued<T>(slots: seq<T>, lo: nat, hi: nat): (q: seq<T>)
    requires slots != [] && lo <= hi
  {
    seq(hi - lo, i requires 0 <= i < hi - lo => slots[SlotOf(lo + i, |slots|)])
  }

  lemma QueuedPush<T>(slots: seq<T>, lo: nat, hi: nat, item: T)
    requires slots != [] && lo <= hi < lo + |slots|
    ensures Queued(slots[SlotOf(hi, |slots|) := item], lo, hi + 1) == Queued(slots, lo, hi) + [item]
  {
    forall n | lo <= n < hi ensures SlotOf(n, |slots|) != SlotOf(hi, |slots|) { SameResidue(n, hi, |slots|); }
  }

  lemma QueuedPop<T>(slots: seq<T>, lo: nat, hi: nat)
    requires slots != [] && lo < hi
    ensures Queued(slots, lo, hi) == [slots[SlotOf(lo, |slots|)]] + Queued(slots, lo + 1, hi)
  {
  }

  class RingBuffer<T(0)> {
    const bits: nat
    const slots: array<T>
    var writeIdx: nat
    var readIdx: nat
    ghost var pushed: nat
    ghost var popped: nat

    ghost predicate Valid()
      reads this
    {
      && bits <= 63 && slots.Length == Pow2(bits)
      && popped <= pushed <= popped + slots.Length
      && writeIdx == pushed % WRAP && readIdx == popped % WRAP
    }

    ghost function Contents(): (q: seq<T>)
      requires Valid()
      reads this, slots
    {
      Queued(slots[..], popped, pushed)
    }

    constructor (bits: nat)
      requires bits <= 63
      ensures Valid() && Contents() == [] && slots.Length == Pow2(bits) && fresh(slots)
    {
      this.bits := bits;
      slots := new T[Pow2(bits)];
      writeIdx, readIdx, pushed, popped := 0, 0, 0, 0;
    }

    method TryPush(item: T) returns (ok: bool)
      requires Valid()
      modifies this`writeIdx, this`pushed, slots
      ensures Valid()
      ensures ok <==> |old(Contents())| < slots.Length
      ensures Contents() == if ok then old(Contents()) + [item] else old(Contents())
    {
      var w, r := writeIdx, readIdx;
      FullTest(pushed, popped, bits);
      if (w - r) % WRAP >= slots.Length { return false; }
      MaskedIndex(pushed, bits);
      QueuedPush(slots[..], popped, pushed, item);
      ghost var before := slots[..];
      slots[M.And(w, slots.Length - 1)] := item;
      assert slots[..] == before[SlotOf(pushed, slots.Length) := item];
      writeIdx := (w + 1) % WRAP;
      pushed := pushed + 1;
      ok := true;
    }

    method TryPop() returns (out: Option<T>)
      requires Valid()
      modifies this`readIdx, this`popped
      ensures Valid()
      ensures match out
              case None => old(Contents()) == [] && Contents() == []
              case Some(x) => old(Contents()) == [x] + Contents()
    {
      var w, r := writeIdx, readIdx;
      FullTest(pushed, popped, bits);
      if r == w { return None; }
      QueuedPop(slots[..], popped, pushed);
      assert M.And(r, slots.Length - 1) == SlotOf(popped, slots.Length) by { MaskedIndex(popped, bits); }
      var x := slots[M.And(r, slots.Length - 1)];
      readIdx := (r + 1) % WRAP;
      popped := popped + 1;
      out := Some(x);
    }
  }

  /** What the full and empty tests say about the unbounded counters, and how those counters step. */
  lemma FullTest(pushed: nat, popped: nat, bits: nat)
    requires bits <= 63 && popped <= pushed <= popped + Pow2(bits)
    ensures (pushed % WRAP - popped % WRAP) % WRAP == pushed - popped
    ensures popped % WRAP == pushed % WRAP <==> popped == pushed
    ensures (pushed % WRAP + 1) % WRAP == (pushed + 1) % WRAP && (popped % WRAP + 1) % WRAP == (popped + 1) % WRAP
  {
    S.Pow2Mono(bits, 63);
    Pow64();
    WrappedDifference(popped, pushed, WRAP);
    SameResidue(popped, pushed, WRAP);
    WrappedSuccessor(pushed, 1, WRAP);
    WrappedSuccessor(popped, 1, WRAP);
  }

  /** Masking the wrapped index gives the slot of the unbounded one. */
  lemma MaskedIndex(n: nat, bits: nat)
    requires bits <= 63
    ensures M.And(n % WRAP, Pow2(bits) - 1) == SlotOf(n, Pow2(bits))
  {
    S.MaskIs(M.Init(Some(bits), 0), n);
  }
}
