/**
 SpscRingBuffer (common/store_buffer/store_buffer.h) on a TSO memory: one producer and one consumer thread,
 each with a store buffer; payloads of several words are written and read word by word.

 Indices are 64-bit and wrap.  `pushed` and `popped` are history variables, as are `tags` (which word of which
 item each buffered store is) and `dn`, `dq` and `rm`, which say how far the two buffers have drained.
 */
module SpscRing {
  import opened Prelude
  import opened TsoMemory
  import opened Modular

  const WRAP: nat := 0x1_0000_0000_0000_0000

  type Item = seq<nat>

  datatype Addr = WriteIdx | ReadIdx | Slot(i: nat, word: nat)

  datatype Producer =
    | PIdle
    | PLoadW(item: Item, sc: bool)
    | PLoadR(item: Item, sc: bool, w: nat)
    | PWrite(item: Item, sc: bool, w: nat, q: nat)       // q words stored so far
    | PFence                                             // seq_cst store: wait for the buffer
    | PDone(ok: bool)

  datatype Consumer =
    | CIdle
    | CLoadR(sc: bool)
    | CLoadW(sc: bool, r: nat)
    | CRead(sc: bool, r: nat, got: Item)
    | CFence(got: Item)
    | CDone(out: Option<Item>)

  /** Word `word` of item `item`; the word past the last is the index store that publishes the item. */
  datatype Tag = Tag(item: nat, word: nat)

  datatype State = State(
    bits: Option<nat>,              // Capacity is 2^bits, or 0, which the static_assert lets through
    width: nat,                     // words per item
    mem: Memory<Addr>,
    pbuf: seq<Store<Addr>>,
    cbuf: seq<Store<Addr>>,
    prod: Producer,
    cons: Consumer,
    pushed: seq<Item>,
    popped: seq<Item>,
    tags: seq<Tag>,                 // what each store in pbuf is
    dn: nat, dq: nat,               // the next producer store to reach memory
    rm: nat)                        // index stores of the consumer that reached memory

  datatype Act = Push(item: Item, sc: bool) | Pop(sc: bool) | ProducerStep | ConsumerStep | DrainP | DrainC

  function Capacity(s: State): nat { if s.bits == None then 0 else Pow2(s.bits.value) }

  /** Bitwise and. */
  function And(a: nat, b: nat): nat {
    if a == 0 || b == 0 then 0 else (a % 2) * (b % 2) + 2 * And(a / 2, b / 2)
  }

  function Init(bits: Option<nat>, width: nat): State {
    State(bits, width, map[], [], [], PIdle, CIdle, [], [], [], 0, 0, 0)
  }

  predicate Enabled(s: State, a: Act) {
    match a
    case Push(item, _) => s.prod == PIdle && |item| == s.width
    case Pop(_) => s.cons == CIdle
    case ProducerStep =>
      && s.prod != PIdle && (s.prod.PFence? ==> s.pbuf == [])
      && (s.prod.PWrite? ==> s.bits.Some? && |s.prod.item| == s.width && s.prod.q <= s.width)
    case ConsumerStep =>
      && s.cons != CIdle && (s.cons.CFence? ==> s.cbuf == [])
      && (s.cons.CRead? ==> s.bits.Some? && |s.cons.got| <= s.width)
    case DrainP => s.pbuf != []
    case DrainC => s.cbuf != []
  }

  function Mask(s: State): nat { if Capacity(s) == 0 then 0 else Capacity(s) - 1 }

  function Produce(s: State): State
    requires Enabled(s, ProducerStep)
  {
    match s.prod
    case PIdle => s
    case PLoadW(item, sc) => s.(prod := PLoadR(item, sc, Load(s.pbuf, s.mem, WriteIdx)))
    case PLoadR(item, sc, w) =>
      var r := Load(s.pbuf, s.mem, ReadIdx);
      s.(prod := if (w - r) % WRAP >= Capacity(s) then PDone(false) else PWrite(item, sc, w, 0))
    case PWrite(item, sc, w, q) =>
      if q < s.width then
        s.(pbuf := s.pbuf + [Store(Slot(And(w, Mask(s)), q), item[q])], tags := s.tags + [Tag(|s.pushed|, q)],
           prod := PWrite(item, sc, w, q + 1))
      else
        s.(pbuf := s.pbuf + [Store(WriteIdx, (w + 1) % WRAP)], tags := s.tags + [Tag(|s.pushed|, q)],
           pushed := s.pushed + [item],
           prod := if sc then PFence else PDone(true))
    case PFence => s.(prod := PDone(true))
    case PDone(_) => s.(prod := PIdle)
  }

  function Consume(s: State): State
    requires Enabled(s, ConsumerStep)
  {
    match s.cons
    case CIdle => s
    case CLoadR(sc) => s.(cons := CLoadW(sc, Load(s.cbuf, s.mem, ReadIdx)))
    case CLoadW(sc, r) =>
      s.(cons := if r == Load(s.cbuf, s.mem, WriteIdx) then CDone(None) else CRead(sc, r, []))
    case CRead(sc, r, got) =>
      if |got| < s.width then
        s.(cons := CRead(sc, r, got + [Load(s.cbuf, s.mem, Slot(And(r, Mask(s)), |got|))]))
      else
        s.(cbuf := s.cbuf + [Store(ReadIdx, (r + 1) % WRAP)], popped := s.popped + [got],
           cons := if sc then CFence(got) else CDone(Some(got)))
    case CFence(got) => s.(cons := CDone(Some(got)))
    case CDone(_) => s.(cons := CIdle)
  }

  function Apply(s: State, a: Act): State
    requires Enabled(s, a)
  {
    match a
    case Push(item, sc) => s.(prod := PLoadW(item, sc))
    case Pop(sc) => s.(cons := CLoadR(sc))
    case ProducerStep => Produce(s)
    case ConsumerStep => Consume(s)
    case DrainP =>
      s.(mem := Drained(s.pbuf, s.mem), pbuf := s.pbuf[1..], tags := if s.tags == [] then [] else s.tags[1..],
         dn := if s.dq < s.width then s.dn else s.dn + 1, dq := if s.dq < s.width then s.dq + 1 else 0)
    case DrainC => s.(mem := Drained(s.cbuf, s.mem), cbuf := s.cbuf[1..], rm := s.rm + 1)
  }

  // ---------------------------------------------------------------- arithmetic of the index mask

  /** `w & (Capacity - 1)` is `w % Capacity` for a power of two. */
  lemma {:induction false} AndMask(w: nat, k: nat)
    ensures And(w, Pow2(k) - 1) == w % Pow2(k)
    decreases k
  {
    if k > 0 {
      var p := Pow2(k - 1);
      assert (Pow2(k) - 1) / 2 == p - 1 && (p > 1 ==> (Pow2(k) - 1) % 2 == 1);
      AndMask(w / 2, k - 1);
      assert w == 2 * (w / 2) + w % 2;
      HalfMod(w, p);
      if w != 0 && Pow2(k) - 1 != 0 { assert (Pow2(k) - 1) % 2 == 1; }
    }
  }

  lemma HalfMod(w: nat, p: nat)
    requires p > 0
    ensures w % (2 * p) == 2 * ((w / 2) % p) + w % 2
  {
    var q, r := (w / 2) / p, (w / 2) % p;
    assert w / 2 == q * p + r;
    assert w == q * (2 * p) + (2 * r + w % 2);
    ModIs(w, 2 * p, q, 2 * r + w % 2);
  }
}
