/** Invariant of the SPSC ring under TSO, kept by every step of either thread and every drain. */
module SpscSafety {
  import opened Prelude
  import opened TsoMemory
  import opened Modular
  import opened SpscRing

  /** Pushed items, then the one being stored. */
  function Items(s: State): seq<Item> { if s.prod.PWrite? then s.pushed + [s.prod.item] else s.pushed }

  /** The producer store that comes after all issued ones. */
  function Issued(s: State): Tag { Tag(|s.pushed|, if s.prod.PWrite? then s.prod.q else 0) }

  function Next(s: State, t: Tag): Tag { if t.word < s.width then Tag(t.item, t.word + 1) else Tag(t.item + 1, 0) }

  /** The address of word `q` of the `n`-th item ever pushed. */
  function Place(s: State, n: nat, q: nat): Addr
    requires Capacity(s) > 0
  {
    Slot(n % Capacity(s), q)
  }

  ghost predicate TagOk(s: State, t: Tag, st: Store<Addr>) {
    && Capacity(s) > 0 && t.item < |Items(s)| && t.word <= s.width && |Items(s)[t.item]| == s.width
    && st == if t.word < s.width then Store(Place(s, t.item, t.word), Items(s)[t.item][t.word])
             else Store(WriteIdx, (t.item + 1) % WRAP)
  }

  ghost predicate Sizes(s: State) {
    && (s.bits.Some? ==> s.bits.value <= 63)
    && (forall n :: 0 <= n < |Items(s)| ==> |Items(s)[n]| == s.width)
    && (s.prod.PLoadW? || s.prod.PLoadR? || s.prod.PWrite? ==> |s.prod.item| == s.width)
  }

  ghost predicate Order(s: State) {
    && s.rm <= |s.popped| <= s.dn <= |s.pushed| <= s.rm + Capacity(s)
    && (s.prod.PWrite? ==> s.bits.Some? && |s.pushed| < s.rm + Capacity(s) && s.prod.q <= s.width)
    && s.dq <= s.width
  }

  /** The producer's buffer holds the stores from (dn, dq) up to the last one issued, in order. */
  ghost predicate Buffered(s: State) {
    && |s.tags| == |s.pbuf|
    && Tag(s.dn, s.dq) == (if s.tags == [] then Issued(s) else s.tags[0])
    && (forall i :: 0 <= i < |s.tags| ==> TagOk(s, s.tags[i], s.pbuf[i]))
    && (forall i :: 0 <= i < |s.tags| ==> Chained(s, i))
  }

  ghost predicate Chained(s: State, i: nat)
    requires i < |s.tags|
  {
    Next(s, s.tags[i]) == if i + 1 < |s.tags| then s.tags[i + 1] else Issued(s)
  }

  /** The consumer's buffer holds its unpublished index stores. */
  ghost predicate Returned(s: State) {
    && |s.cbuf| == |s.popped| - s.rm
    && (forall i :: 0 <= i < |s.cbuf| ==> s.cbuf[i] == Store(ReadIdx, (s.rm + 1 + i) % WRAP))
  }

  /** Word `q` of item `n` is in memory. */
  ghost predicate InMemory(s: State, n: nat, q: nat) {
    && Capacity(s) > 0 && n < |Items(s)| && q < |Items(s)[n]|
    && Read(s.mem, Place(s, n, q)) == Items(s)[n][q]
  }

  ghost predicate Slots(s: State) {
    && Read(s.mem, WriteIdx) == s.dn % WRAP && Read(s.mem, ReadIdx) == s.rm % WRAP
    && (forall n, q :: |s.popped| <= n < s.dn && 0 <= q < s.width ==> InMemory(s, n, q))
    && (forall q :: 0 <= q < s.dq && q < s.width ==> InMemory(s, s.dn, q))
  }

  ghost predicate Threads(s: State) {
    && (s.prod.PLoadR? || s.prod.PWrite? ==> s.prod.w == |s.pushed| % WRAP)
    && (s.cons.CLoadW? || s.cons.CRead? ==> s.cons.r == |s.popped| % WRAP)
    && (s.cons.CRead? ==>
          && s.bits.Some? && |s.popped| < |s.pushed| && |s.popped| < s.dn
          && |s.cons.got| <= s.width == |s.pushed[|s.popped|]|
          && s.cons.got == s.pushed[|s.popped|][..|s.cons.got|])
  }

  ghost predicate Prefix(s: State) { |s.popped| <= |s.pushed| && s.popped == s.pushed[..|s.popped|] }

  ghost predicate Inv(s: State) {
    && Sizes(s) && Order(s) && Prefix(s) && Buffered(s) && Returned(s) && Slots(s) && Threads(s)
  }

  lemma InitInv(bits: Option<nat>, width: nat)
    requires bits.Some? ==> bits.value <= 63
    ensures Inv(Init(bits, width))
  {
  }

  // ---------------------------------------------------------------- what the loads return

  lemma {:induction false} Pow2Mono(j: nat, k: nat)
    requires j <= k
    ensures Pow2(j) <= Pow2(k)
  {
    if j < k { Pow2Mono(j, k - 1); }
  }

  /** The capacity divides 2^64, so the masked wrapped index is the counter modulo the capacity. */
  lemma MaskIs(s: State, n: nat)
    requires s.bits.Some? && s.bits.value <= 63
    ensures Capacity(s) <= Pow2(63) && And(n % WRAP, Mask(s)) == n % Capacity(s)
  {
    var k := s.bits.value;
    Pow2Mono(k, 63);
    AndMask(n % WRAP, k);
    PowSum(64 - k, k);
    assert Pow2(64) == WRAP by { Pow64(); }
    ModOfMod(n, Pow2(k), Pow2(64 - k));
  }

  lemma CapacityFits(s: State)
    requires Sizes(s)
    ensures 2 * Capacity(s) <= WRAP
  {
    if s.bits.Some? { Pow2Mono(s.bits.value, 63); }
    Pow64();
  }

  /** Nobody but the consumer stores the read index. */
  lemma ProducerSeesReadIdx(s: State)
    requires Buffered(s) && Slots(s)
    ensures Load(s.pbuf, s.mem, ReadIdx) == s.rm % WRAP
  {
    forall i | 0 <= i < |s.pbuf| ensures s.pbuf[i].addr != ReadIdx { assert TagOk(s, s.tags[i], s.pbuf[i]); }
    LoadMisses(s.pbuf, s.mem, ReadIdx);
  }

  /** Between pushes the newest store of the producer is its index. */
  lemma ProducerSeesWriteIdx(s: State)
    requires Buffered(s) && Slots(s) && !s.prod.PWrite?
    ensures Load(s.pbuf, s.mem, WriteIdx) == |s.pushed| % WRAP
  {
    if s.pbuf != [] {
      var i := |s.pbuf| - 1;
      assert TagOk(s, s.tags[i], s.pbuf[i]) && Chained(s, i);
    }
  }

  lemma ConsumerSeesReadIdx(s: State)
    requires Returned(s) && Slots(s)
    ensures Load(s.cbuf, s.mem, ReadIdx) == |s.popped| % WRAP
  {
    if s.cbuf != [] {
      assert s.cbuf[|s.cbuf| - 1] == Store(ReadIdx, (s.rm + 1 + (|s.cbuf| - 1)) % WRAP);
    }
  }

  lemma ConsumerMisses(s: State, a: Addr)
    requires Returned(s) && a != ReadIdx
    ensures Load(s.cbuf, s.mem, a) == Read(s.mem, a)
  {
    forall i | 0 <= i < |s.cbuf| ensures s.cbuf[i].addr != a { }
    LoadMisses(s.cbuf, s.mem, a);
  }

  /** The producer turns an item away exactly when the pops it can see leave no room. */
  lemma FullIff(s: State)
    requires Sizes(s) && Order(s) && Buffered(s) && Slots(s) && Threads(s) && s.prod.PLoadR?
    ensures (s.prod.w - Load(s.pbuf, s.mem, ReadIdx)) % WRAP == |s.pushed| - s.rm
    ensures Produce(s).prod == PDone(false) <==> |s.pushed| - s.rm == Capacity(s)
  {
    ProducerSeesReadIdx(s);
    CapacityFits(s);
    WrappedDifference(s.rm, |s.pushed|, WRAP);
  }

  /** The consumer finds nothing exactly when no push has been published beyond its own pops. */
  lemma EmptyIff(s: State)
    requires Sizes(s) && Order(s) && Returned(s) && Slots(s) && Threads(s) && s.cons.CLoadW?
    ensures Consume(s).cons == CDone(None) <==> s.dn == |s.popped|
  {
    ConsumerMisses(s, WriteIdx);
    CapacityFits(s);
    SameResidue(|s.popped|, s.dn, WRAP);
  }

  /** Producer and consumer never work on the same slot. */
  lemma SlotsApart(s: State, m: nat, n: nat)
    requires Capacity(s) > 0 && m < n < m + Capacity(s)
    ensures m % Capacity(s) != n % Capacity(s)
  {
    SameResidue(m, n, Capacity(s));
  }

  // ---------------------------------------------------------------- the producer's steps

  lemma PushInv(s: State, item: Item, sc: bool)
    requires Inv(s) && Enabled(s, Push(item, sc))
    ensures Inv(Apply(s, Push(item, sc)))
  {
    var t := Apply(s, Push(item, sc));
    assert Items(t) == Items(s) && Issued(t) == Issued(s);
    BufferKept(s, t);
    SlotsKept(s, t);
  }

  /** Steps that leave the buffer, the history and the issue point alone. */
  lemma BufferKept(s: State, t: State)
    requires Buffered(s) && Items(t) == Items(s) && Issued(t) == Issued(s)
    requires t.tags == s.tags && t.pbuf == s.pbuf && t.width == s.width && t.bits == s.bits
    requires t.dn == s.dn && t.dq == s.dq
    ensures Buffered(t)
  {
    forall i | 0 <= i < |t.tags| ensures TagOk(t, t.tags[i], t.pbuf[i]) { assert TagOk(s, s.tags[i], s.pbuf[i]); }
    forall i | 0 <= i < |t.tags| ensures Chained(t, i) { assert Chained(s, i); }
  }

  /** Memory unchanged, items only added at the end, pops only added. */
  lemma SlotsKept(s: State, t: State)
    requires Slots(s) && t.mem == s.mem && t.width == s.width && t.bits == s.bits
    requires t.dn == s.dn && t.dq == s.dq && t.rm == s.rm && |t.popped| >= |s.popped|
    requires |Items(s)| <= |Items(t)| && forall n :: 0 <= n < |Items(s)| ==> Items(t)[n] == Items(s)[n]
    ensures Slots(t)
  {
    forall n, q | |t.popped| <= n < t.dn && 0 <= q < t.width ensures InMemory(t, n, q) { assert InMemory(s, n, q); }
    forall q | 0 <= q < t.dq && q < t.width ensures InMemory(t, t.dn, q) { assert InMemory(s, s.dn, q); }
  }

  lemma ProduceLoadsInv(s: State)
    requires Inv(s) && Enabled(s, ProducerStep) && !s.prod.PWrite?
    ensures Inv(Produce(s))
  {
    if s.prod.PLoadR? { FullIff(s); }
    if s.prod.PLoadW? { ProducerSeesWriteIdx(s); }
    LoadsMemory(s);
    LoadsRest(s);
  }

  lemma LoadsMemory(s: State)
    requires Buffered(s) && Slots(s) && Order(s) && Enabled(s, ProducerStep) && !s.prod.PWrite?
    ensures Buffered(Produce(s)) && Slots(Produce(s))
  {
    var t := Produce(s);
    if t.prod.PWrite? { ItemAppended(s, t); } else { BufferKept(s, t); }
    SlotsKept(s, t);
  }

  lemma LoadsRest(s: State)
    requires Sizes(s) && Order(s) && Prefix(s) && Returned(s) && Threads(s) && Enabled(s, ProducerStep)
             && !s.prod.PWrite?
    requires s.prod.PLoadR? && Produce(s).prod.PWrite? ==> s.bits.Some? && |s.pushed| < s.rm + Capacity(s)
    requires s.prod.PLoadW? ==> Load(s.pbuf, s.mem, WriteIdx) == |s.pushed| % WRAP
    ensures Sizes(Produce(s)) && Order(Produce(s)) && Prefix(Produce(s)) && Returned(Produce(s)) && Threads(Produce(s))
  {
    var t := Produce(s);
    forall n | 0 <= n < |Items(t)| ensures |Items(t)[n]| == t.width {
      assert n < |s.pushed| ==> |Items(s)[n]| == s.width;
    }
  }

  lemma ItemAppended(s: State, t: State)
    requires Buffered(s) && Issued(t) == Issued(s)
    requires |Items(s)| <= |Items(t)| && forall n :: 0 <= n < |Items(s)| ==> Items(t)[n] == Items(s)[n]
    requires t.tags == s.tags && t.pbuf == s.pbuf && t.width == s.width && t.bits == s.bits
    requires t.dn == s.dn && t.dq == s.dq
    ensures Buffered(t)
  {
    forall i | 0 <= i < |t.tags| ensures TagOk(t, t.tags[i], t.pbuf[i]) { assert TagOk(s, s.tags[i], s.pbuf[i]); }
    forall i | 0 <= i < |t.tags| ensures Chained(t, i) { assert Chained(s, i); }
  }

  /** The store a pushing producer issues next. */
  function IssuedStore(s: State): Store<Addr>
    requires s.prod.PWrite? && Enabled(s, ProducerStep)
  {
    if s.prod.q < s.width then Store(Slot(And(s.prod.w, Mask(s)), s.prod.q), s.prod.item[s.prod.q])
    else Store(WriteIdx, (s.prod.w + 1) % WRAP)
  }

  lemma WriteIssues(s: State)
    requires Enabled(s, ProducerStep) && s.prod.PWrite?
    ensures Produce(s).pbuf == s.pbuf + [IssuedStore(s)] && Produce(s).tags == s.tags + [Issued(s)]
    ensures Next(s, Issued(s)) == Issued(Produce(s))
  {
  }

  /** It is the one that comes next. */
  lemma WriteTag(s: State)
    requires Sizes(s) && Order(s) && Threads(s) && Enabled(s, ProducerStep) && s.prod.PWrite?
    ensures TagOk(s, Issued(s), IssuedStore(s))
  {
    MaskIs(s, |s.pushed|);
    WrappedSuccessor(|s.pushed|, 1, WRAP);
    assert Items(s)[|s.pushed|] == s.prod.item;
  }

  lemma ProduceWriteInv(s: State)
    requires Inv(s) && Enabled(s, ProducerStep) && s.prod.PWrite?
    ensures Inv(Produce(s))
  {
    var t := Produce(s);
    assert Items(t) == Items(s) && t.bits == s.bits;
    WriteTag(s);
    WriteIssues(s);
    StoreIssued(s, t, Issued(s), IssuedStore(s));
    SlotsKept(s, t);
    WrittenSizes(s);
  }

  lemma WrittenSizes(s: State)
    requires Sizes(s) && Order(s) && Threads(s) && Prefix(s) && Enabled(s, ProducerStep) && s.prod.PWrite?
    ensures Sizes(Produce(s)) && Order(Produce(s)) && Threads(Produce(s)) && Prefix(Produce(s))
  {
    var t := Produce(s);
    assert Items(t) == Items(s);
    forall n | 0 <= n < |Items(t)| ensures |Items(t)[n]| == t.width { assert |Items(s)[n]| == s.width; }
  }

  lemma StoreIssued(s: State, t: State, tag: Tag, st: Store<Addr>)
    requires Buffered(s) && Items(t) == Items(s) && tag == Issued(s) && Next(s, tag) == Issued(t)
    requires TagOk(s, tag, st) && t.tags == s.tags + [tag] && t.pbuf == s.pbuf + [st]
    requires t.width == s.width && t.bits == s.bits && t.dn == s.dn && t.dq == s.dq
    ensures Buffered(t)
  {
    forall i | 0 <= i < |t.tags| ensures TagOk(t, t.tags[i], t.pbuf[i]) {
      assert i < |s.tags| ==> TagOk(s, s.tags[i], s.pbuf[i]);
    }
    forall i | 0 <= i < |t.tags| ensures Chained(t, i) { assert i < |s.tags| ==> Chained(s, i); }
  }

  lemma DrainPInv(s: State)
    requires Inv(s) && Enabled(s, DrainP)
    ensures Inv(Apply(s, DrainP))
  {
    var t := Apply(s, DrainP);
    DrainPBuffered(s);
    DrainPSlots(s);
  }

  lemma DrainPBuffered(s: State)
    requires Sizes(s) && Order(s) && Buffered(s) && Enabled(s, DrainP)
    ensures Buffered(Apply(s, DrainP)) && Order(Apply(s, DrainP))
  {
    var t := Apply(s, DrainP);
    var tag := s.tags[0];
    assert TagOk(s, tag, s.pbuf[0]) && tag == Tag(s.dn, s.dq) && Chained(s, 0);
    assert Next(s, tag) == Tag(t.dn, t.dq);
    Behind(s);
    forall i | 0 <= i < |t.tags| ensures TagOk(t, t.tags[i], t.pbuf[i]) {
      assert TagOk(s, s.tags[i + 1], s.pbuf[i + 1]);
    }
    forall i | 0 <= i < |t.tags| ensures Chained(t, i) { assert Chained(s, i + 1); }
  }

  lemma DrainPSlots(s: State)
    requires Sizes(s) && Order(s) && Buffered(s) && Slots(s) && Enabled(s, DrainP)
    ensures Slots(Apply(s, DrainP))
  {
    var t := Apply(s, DrainP);
    Behind(s);
    forall n, q | |t.popped| <= n < t.dn && 0 <= q < t.width ensures InMemory(t, n, q) { DrainPItem(s, n, q); }
    forall q | 0 <= q < t.dq && q < t.width ensures InMemory(t, t.dn, q) { DrainPItem(s, t.dn, q); }
    DrainPIndices(s);
  }

  /** One word that was in memory, or is the one just drained. */
  lemma DrainPItem(s: State, n: nat, q: nat)
    requires Sizes(s) && Order(s) && Buffered(s) && Enabled(s, DrainP) && n < |Items(s)|
    requires s.dn < |Items(s)| && s.dn < s.rm + Capacity(s)
    requires |s.popped| <= n <= s.dn && q < s.width && (n < s.dn || q <= s.dq)
    requires n < s.dn || q < s.dq ==> InMemory(s, n, q)
    ensures InMemory(Apply(s, DrainP), n, q)
  {
    assert TagOk(s, s.tags[0], s.pbuf[0]) && s.tags[0] == Tag(s.dn, s.dq);
    if n < s.dn { SlotsApart(s, n, s.dn); }
  }

  lemma DrainPIndices(s: State)
    requires Sizes(s) && Order(s) && Buffered(s) && Slots(s) && Enabled(s, DrainP)
    ensures var t := Apply(s, DrainP);
            Read(t.mem, WriteIdx) == t.dn % WRAP && Read(t.mem, ReadIdx) == t.rm % WRAP
  {
    assert TagOk(s, s.tags[0], s.pbuf[0]) && s.tags[0] == Tag(s.dn, s.dq);
  }

  /** The next store to drain belongs to an item that is pushed or being pushed, within the capacity. */
  lemma Behind(s: State)
    requires Order(s) && Buffered(s) && s.tags != []
    ensures s.dn < |Items(s)| && s.dn < s.rm + Capacity(s)
    ensures s.dq == s.width ==> s.dn < |s.pushed|
  {
    assert TagOk(s, s.tags[0], s.pbuf[0]);
    if s.dq == s.width { NotYet(s, 0); }
  }

  /** A publishing store in the buffer means its push is complete. */
  lemma {:induction false} NotYet(s: State, i: nat)
    requires Order(s) && Buffered(s) && i < |s.tags| && s.tags[i].word == s.width
    ensures s.tags[i].item < |s.pushed|
    decreases |s.tags| - i
  {
    Ahead(s, i);
  }

  /** Later stores belong to the same or later items. */
  lemma {:induction false} Ahead(s: State, i: nat)
    requires Buffered(s) && i < |s.tags|
    ensures s.tags[i].item < Issued(s).item || (s.tags[i].item == Issued(s).item && s.tags[i].word < Issued(s).word)
    decreases |s.tags| - i
  {
    assert Chained(s, i);
    if i + 1 < |s.tags| { Ahead(s, i + 1); }
  }

  // ---------------------------------------------------------------- the consumer's steps

  lemma PopInv(s: State, sc: bool)
    requires Inv(s) && Enabled(s, Pop(sc))
    ensures Inv(Apply(s, Pop(sc)))
  {
    var t := Apply(s, Pop(sc));
    BufferKept(s, t);
    SlotsKept(s, t);
  }

  lemma ConsumeInv(s: State)
    requires Inv(s) && Enabled(s, ConsumerStep)
    ensures Inv(Consume(s))
  {
    ConsumeMemory(s);
    if s.cons.CRead? {
      ReadInv(s);
    } else {
      ConsumerLoads(s);
      ConsumerKeeps(s);
    }
  }

  lemma ConsumeMemory(s: State)
    requires Sizes(s) && Order(s) && Buffered(s) && Slots(s) && Enabled(s, ConsumerStep)
    ensures Sizes(Consume(s)) && Buffered(Consume(s)) && Slots(Consume(s))
  {
    BufferKept(s, Consume(s));
    SlotsKept(s, Consume(s));
  }

  lemma ConsumerKeeps(s: State)
    requires Order(s) && Prefix(s) && Returned(s) && Enabled(s, ConsumerStep) && !s.cons.CRead?
    ensures Order(Consume(s)) && Prefix(Consume(s)) && Returned(Consume(s))
  {
  }

  lemma ConsumerLoads(s: State)
    requires Inv(s) && Enabled(s, ConsumerStep) && !s.cons.CRead?
    ensures Threads(Consume(s))
  {
    if s.cons.CLoadR? { ConsumerSeesReadIdx(s); }
    if s.cons.CLoadW? {
      EmptyIff(s);
      if Consume(s).cons.CRead? { assert Items(s)[|s.popped|] == s.pushed[|s.popped|]; }
    }
  }

  lemma ReadInv(s: State)
    requires Sizes(s) && Order(s) && Prefix(s) && Returned(s) && Slots(s) && Threads(s)
    requires s.cons.CRead? && Enabled(s, ConsumerStep)
    ensures Threads(Consume(s)) && Returned(Consume(s)) && Prefix(Consume(s)) && Order(Consume(s))
  {
    if |s.cons.got| < s.width { ReadOn(s); } else { ReadEnds(s); }
  }

  lemma ReadOn(s: State)
    requires Sizes(s) && Order(s) && Prefix(s) && Returned(s) && Slots(s) && Threads(s)
    requires s.cons.CRead? && Enabled(s, ConsumerStep) && |s.cons.got| < s.width
    ensures Threads(Consume(s)) && Returned(Consume(s)) && Prefix(Consume(s)) && Order(Consume(s))
  {
    var item := s.pushed[|s.popped|];
    assert Items(s)[|s.popped|] == item;
    WordRead(s);
    assert Consume(s).cons.got == item[..|s.cons.got| + 1];
  }

  lemma ReadEnds(s: State)
    requires Order(s) && Prefix(s) && Returned(s) && Threads(s)
    requires s.cons.CRead? && Enabled(s, ConsumerStep) && |s.cons.got| == s.width
    ensures Threads(Consume(s)) && Returned(Consume(s)) && Prefix(Consume(s)) && Order(Consume(s))
  {
    var t := Consume(s);
    var R := |s.popped|;
    var item := s.pushed[R];
    WrappedSuccessor(R, 1, WRAP);
    assert s.cons.got == item && item == item[..|s.cons.got|];
    assert t.popped == s.pushed[..R + 1];
    forall i | 0 <= i < |t.cbuf| ensures t.cbuf[i] == Store(ReadIdx, (t.rm + 1 + i) % WRAP) {
      assert i < |s.cbuf| ==> t.cbuf[i] == s.cbuf[i];
    }
  }

  /** A word is read as it was pushed. */
  lemma WordRead(s: State)
    requires Sizes(s) && Order(s) && Returned(s) && Slots(s) && Threads(s)
    requires s.cons.CRead? && |s.cons.got| < s.width
    ensures Load(s.cbuf, s.mem, Slot(And(s.cons.r, Mask(s)), |s.cons.got|)) == s.pushed[|s.popped|][|s.cons.got|]
  {
    var R, k := |s.popped|, |s.cons.got|;
    MaskIs(s, R);
    assert InMemory(s, R, k);
    ConsumerMisses(s, Place(s, R, k));
  }

  lemma DrainCInv(s: State)
    requires Inv(s) && Enabled(s, DrainC)
    ensures Inv(Apply(s, DrainC))
  {
    var t := Apply(s, DrainC);
    DrainCReturned(s);
    BufferKept(s, t);
    forall n, q | |t.popped| <= n < t.dn && 0 <= q < t.width ensures InMemory(t, n, q) { assert InMemory(s, n, q); }
    forall q | 0 <= q < t.dq && q < t.width ensures InMemory(t, t.dn, q) { assert InMemory(s, s.dn, q); }
  }

  lemma DrainCReturned(s: State)
    requires Order(s) && Returned(s) && Enabled(s, DrainC)
    ensures s.rm < |s.popped| && Returned(Apply(s, DrainC)) && s.cbuf[0] == Store(ReadIdx, (s.rm + 1) % WRAP)
  {
    var t := Apply(s, DrainC);
    forall i | 0 <= i < |t.cbuf| ensures t.cbuf[i] == Store(ReadIdx, (t.rm + 1 + i) % WRAP) {
      assert s.cbuf[i + 1] == Store(ReadIdx, (s.rm + 1 + (i + 1)) % WRAP);
    }
  }

  lemma StepInv(s: State, a: Act)
    requires Inv(s) && Enabled(s, a)
    ensures Inv(Apply(s, a))
  {
    match a
    case Push(item, sc) => PushInv(s, item, sc);
    case Pop(sc) => PopInv(s, sc);
    case ProducerStep => if s.prod.PWrite? { ProduceWriteInv(s); } else { ProduceLoadsInv(s); }
    case ConsumerStep => ConsumeInv(s);
    case DrainP => DrainPInv(s);
    case DrainC => DrainCInv(s);
  }
}
