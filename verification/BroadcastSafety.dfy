/** Invariant of the broadcast ring: backpressure for every protected reader, and frames that stay intact. */
module BroadcastSafety {
  import opened Prelude
  import opened Modular
  import opened BroadcastFrame
  import opened BroadcastRing

  predicate Writing(p: Producer) { !p.PIdle? && !p.PScan? }

  predicate Claimed(p: Producer) { p.PFill? || p.PSeal? || p.PPublish? }

  function Target(s: State): nat
    requires !s.producer.PIdle?
  {
    s.producer.req.at + Required(s.producer.req.size)
  }

  /** The producer may store anywhere below this cursor and above the commit cursor. */
  function Claim(s: State): nat { if Writing(s.producer) then Target(s) else s.prod }

  ghost predicate Layout(s: State) {
    && WellSized(s) && s.cached <= Claim(s)
    && (!s.producer.PScan? ==> Claim(s) <= s.cached + s.cap)
    && (if s.producer.PIdle? then s.prod == s.commit
        else
          && RequestOk(s, s.producer.req)
          && s.prod == (if Claimed(s.producer) then Target(s) else s.commit)
          && (s.producer.PScan? ==> s.producer.low <= Target(s)))
  }

  ghost predicate RequestOk(s: State, req: Request) {
    && s.commit == req.at && Required(req.size) <= s.cap
    && req.size <= LONGEST && req.kind < U32 && req.time < U32 * U32
  }

  // ---------------------------------------------------------------- committed frames

  ghost predicate FrameOk(s: State, k: nat)
    requires k < |s.frames|
  {
    && |s.frames[k].msg.payload| <= LONGEST && Required(|s.frames[k].msg.payload|) <= s.cap
    && At(s, k + 1) == At(s, k) + Required(|s.frames[k].msg.payload|)
  }

  ghost predicate Chain(s: State) { forall k :: 0 <= k < |s.frames| ==> FrameOk(s, k) }

  /** Frames that the producer's claim does not reach around the ring are in it as committed. */
  ghost predicate Window(s: State)
    requires s.ring != []
  {
    forall k :: 0 <= k < |s.frames| ==> InWindow(s, k)
  }

  ghost predicate InWindow(s: State, k: nat)
    requires s.ring != [] && k < |s.frames|
  {
    Claim(s) <= s.frames[k].at + s.cap ==> Intact(s.ring, s.frames[k])
  }

  lemma {:induction false} AtMono(s: State, j: nat, k: nat)
    requires Chain(s) && j <= k <= |s.frames|
    ensures At(s, j) <= At(s, k) && (j < k ==> At(s, j) < At(s, k))
    decreases k - j
  {
    if j < k {
      assert FrameOk(s, j);
      AtMono(s, j + 1, k);
    }
  }

  /** A committed frame ends at or before the commit cursor, and its size is what its header says. */
  lemma FrameEnds(s: State, k: nat)
    requires Chain(s) && k < |s.frames|
    ensures s.frames[k].at + HEADER + |s.frames[k].msg.payload| <= At(s, k + 1) <= s.commit
    ensures TotalFrameSize(|s.frames[k].msg.payload|) == Required(|s.frames[k].msg.payload|)
    ensures |s.frames[k].msg.payload| <= s.cap && s.frames[k].at < s.commit
  {
    assert FrameOk(s, k);
    TotalExact(|s.frames[k].msg.payload|);
    AtMono(s, k + 1, |s.frames|);
  }

  // ---------------------------------------------------------------- the frame being written

  ghost predicate Draft(s: State)
    requires s.ring != []
  {
    if !Writing(s.producer) then true
    else
      var p, at := s.producer, s.producer.req.at;
      && (!p.PVersion? && !p.PPublish? ==> VersionAt(s.ring, at) % 2 == 1)
      && (p.PKind? || p.PTime? || p.PClaim? || Claimed(p) ==> LengthAt(s.ring, at) == p.req.size)
      && (p.PTime? || p.PClaim? || Claimed(p) ==> KindAt(s.ring, at) == p.req.kind)
      && (p.PClaim? || Claimed(p) ==> TimeAt(s.ring, at) == p.req.time)
      && (Claimed(p) ==> |p.draft| == p.req.size && Get(s.ring, at + HEADER, p.req.size) == p.draft)
      && (p.PPublish? ==> VersionAt(s.ring, at) % 2 == 0)
  }

  // ---------------------------------------------------------------- protected readers

  /** Still active in the slot it registered in, which no other reader has touched. */
  predicate Protected(s: State, t: nat) {
    && t < |s.readers| && s.readers[t].good && s.readers[t].slot.Some?
    && var i := s.readers[t].slot.value;
       i < |s.slots| && s.slots[i].active && s.slots[i].owner == Some(t) && !s.slots[i].fouled
  }

  function Messages(frames: seq<Frame>, first: nat, next: nat): seq<Message>
    requires first <= next <= |frames|
  {
    seq(next - first, i requires 0 <= i < next - first => frames[first + i].msg)
  }

  /** What a reader has loaded so far is what the frame at its cursor says. */
  ghost predicate Loaded(pc: ReaderPc, msg: Message, version: nat) {
    var h := Header(|msg.payload|, msg.kind, msg.time);
    match pc
    case RLength(copy, v) => copy ==> v == version
    case RKind(copy, v, length) => length == h.length && (copy ==> v == version)
    case RTime(copy, v, length, kind) => length == h.length && kind == h.kind && (copy ==> v == version)
    case RLengthAgain(kind, time) => kind == h.kind && time == h.time
    case RSpan(g) => g == h
    case RBytes(v, g, got) => g == h && |got| <= h.length && got == msg.payload[..|got|] && v == version
    case RAfter(v, g, got) => g == h && got == msg.payload && v == version
    case RHas(copy, g, span, got) => g == h && span == h.length && (copy ==> got == msg.payload)
    case _ => true
  }

  predicate Polling(pc: ReaderPc) {
    !pc.RIdle? && !pc.RCommit? && !pc.RFailed? && !pc.RCheck? && !pc.RStore?
  }

  ghost predicate PcOk(s: State, r: Reader)
    requires s.ring != []
  {
    && (Polling(r.pc) ==> r.next < |s.frames| && Loaded(r.pc, s.frames[r.next].msg, VersionAt(s.ring, r.cursor)))
    && (r.pc.RFailed? ==> r.pc.status == NotFound)
  }

  ghost predicate Placed(s: State, r: Reader) {
    && r.first <= r.next <= |s.frames| && r.cursor == At(s, r.next)
    && r.delivered == Messages(s.frames, r.first, r.next)
  }

  /** The backpressure that protects a slot. */
  ghost predicate Respected(s: State, i: nat)
    requires i < |s.slots|
  {
    && s.cached <= s.slots[i].cursor && Claim(s) <= s.slots[i].cursor + s.cap
    && (s.producer.PScan? && i < s.producer.i ==> s.producer.low <= s.slots[i].cursor)
  }

  ghost predicate ReaderOk(s: State, t: nat)
    requires s.ring != []
  {
    Protected(s, t) ==>
      var r := s.readers[t];
      var i := r.slot.value;
      Respected(s, i) && s.slots[i].cursor <= r.cursor && s.slots[i].gen == r.gen && Placed(s, r) && PcOk(s, r)
  }

  ghost predicate Inv(s: State) {
    && Layout(s) && Chain(s) && Window(s) && Draft(s)
    && forall t :: 0 <= t < |s.readers| ==> ReaderOk(s, t)
  }

  /** The frame at a protected reader's cursor is intact. */
  lemma Safe(s: State, t: nat)
    requires s.ring != [] && Window(s) && ReaderOk(s, t) && Protected(s, t) && s.readers[t].next < |s.frames|
    ensures Intact(s.ring, s.frames[s.readers[t].next]) && s.frames[s.readers[t].next].at == s.readers[t].cursor
  {
    assert InWindow(s, s.readers[t].next);
  }

  // ---------------------------------------------------------------- what a step does to the producer's part

  lemma LayoutKept(s: State, a: Act)
    requires Layout(s) && Enabled(s, a)
    ensures Layout(Apply(s, a))
  {
    if a.Produce? {
      if s.producer.PScan? { LayoutScanned(s, a.stale); } else { LayoutWritten(s, a.clock); }
    } else if a.Reserve? {
      LayoutBegun(s, a.size, a.kind);
    } else if a.Read? {
      LayoutRead(s, a.t);
    }
  }

  lemma LayoutBegun(s: State, size: nat, kind: nat)
    requires Layout(s) && Enabled(s, Reserve(size, kind))
    ensures Layout(BeginReserve(s, size, kind))
  {
  }

  lemma LayoutRead(s: State, t: nat)
    requires Layout(s) && Enabled(s, Read(t))
    ensures Layout(DoRead(s, t))
  {
  }

  lemma LayoutScanned(s: State, stale: bool)
    requires Layout(s) && s.producer.PScan?
    ensures Layout(Scan(s, stale))
  {
  }

  lemma LayoutWritten(s: State, clock: nat)
    requires Layout(s) && Enabled(s, Produce(false, clock)) && !s.producer.PScan?
    ensures Layout(Write(s, clock))
  {
  }

  lemma ChainKept(s: State, a: Act)
    requires Layout(s) && Draft(s) && Chain(s) && Enabled(s, a)
    ensures Chain(Apply(s, a))
  {
    if a.Produce? && s.producer.PPublish? { ChainGrows(s, a); } else { ChainStays(s, a); }
  }

  lemma ChainStays(s: State, a: Act)
    requires Chain(s) && Enabled(s, a) && !(a.Produce? && s.producer.PPublish?)
    ensures Chain(Apply(s, a))
  {
    var s' := Apply(s, a);
    SameFrames(s, a);
    forall k | 0 <= k < |s'.frames| ensures FrameOk(s', k) { assert FrameOk(s, k); }
  }

  /** Only the last step of a Commit adds a frame. */
  lemma SameFrames(s: State, a: Act)
    requires Enabled(s, a) && !(a.Produce? && s.producer.PPublish?)
    ensures Apply(s, a).frames == s.frames && Apply(s, a).commit == s.commit && Apply(s, a).cap == s.cap
  {
    if a.Read? { ReadLeaves(s, a.t); }
  }

  lemma ChainGrows(s: State, a: Act)
    requires Layout(s) && Draft(s) && Chain(s) && Enabled(s, a) && a.Produce? && s.producer.PPublish?
    ensures Chain(Apply(s, a))
  {
    var s' := Apply(s, a);
    forall k | 0 <= k < |s'.frames| ensures FrameOk(s', k) {
      assert k < |s.frames| ==> FrameOk(s, k);
    }
  }

  /** A store of the producer: `bs` at cursor `at`. */
  ghost predicate Stores(s: State, s': State, at: nat, bs: seq<Byte>) {
    && s.ring != [] && s'.ring == Put(s.ring, at, bs) && s'.cap == s.cap && s'.frames == s.frames
    && s'.commit == s.commit && Claim(s') == Claim(s)
    && s.commit <= at && at + |bs| <= Claim(s)
  }

  lemma StoreSpares(s: State, s': State, at: nat, bs: seq<Byte>, k: nat)
    requires Stores(s, s', at, bs) && Chain(s) && |s.ring| == s.cap && k < |s.frames|
    requires Claim(s) <= s.frames[k].at + s.cap && Intact(s.ring, s.frames[k])
    ensures Intact(s'.ring, s.frames[k]) && VersionAt(s'.ring, s.frames[k].at) == VersionAt(s.ring, s.frames[k].at)
  {
    FrameEnds(s, k);
    IntactKept(s.ring, s.frames[k], at, bs);
  }

  /** Where each step of the producer stores. */
  lemma WriteStores(s: State, a: Act) returns (at: nat, bs: seq<Byte>)
    requires Layout(s) && Draft(s) && Enabled(s, a) && Writing(s.producer)
    requires (a.Produce? && !s.producer.PClaim? && !s.producer.PPublish?) || a.StoreByte?
    ensures Stores(s, Apply(s, a), at, bs) && s.producer.req.at <= at
  {
    var req := s.producer.req;
    AlignedHolds(req.size);
    match a
    case StoreByte(j, b) => at, bs := req.at + HEADER + j, [b];
    case Produce(_, clock) =>
      match s.producer
      case PVersion(_) => at, bs := req.at, Encoded(Locked(VersionAt(s.ring, req.at)), 4);
      case PLength(_) => at, bs := req.at + 4, Encoded(req.size, 4);
      case PKind(_) => at, bs := req.at + 8, Encoded(req.kind, 4);
      case PTime(_) => at, bs := req.at + 16, Encoded(clock, 8);
      case PSeal(_, _) => at, bs := req.at, Encoded((VersionAt(s.ring, req.at) + 1) % U32, 4);
  }

  predicate StoringAct(s: State, a: Act) {
    && Writing(s.producer)
    && ((a.Produce? && !s.producer.PClaim? && !s.producer.PPublish?) || a.StoreByte?)
  }

  lemma QuietRing(s: State, a: Act)
    requires Enabled(s, a) && !StoringAct(s, a)
    ensures Apply(s, a).ring == s.ring
  {
  }

  lemma ClaimGrows(s: State, a: Act)
    requires Layout(s) && Enabled(s, a)
    ensures Claim(s) <= Claim(Apply(s, a)) && Apply(s, a).cap == s.cap
    ensures StoringAct(s, a) ==> Apply(s, a).frames == s.frames
  {
  }

  lemma WindowKept(s: State, a: Act)
    requires Layout(s) && Chain(s) && Window(s) && Draft(s) && Enabled(s, a)
    ensures Window(Apply(s, a))
  {
    ClaimGrows(s, a);
    if StoringAct(s, a) { WindowStored(s, a); }
    else if a.Produce? && s.producer.PPublish? { WindowGrows(s, a); }
    else { WindowStays(s, a); }
  }

  lemma WindowStored(s: State, a: Act)
    requires Layout(s) && Chain(s) && Window(s) && Draft(s) && Enabled(s, a) && StoringAct(s, a)
    ensures Window(Apply(s, a))
  {
    var s' := Apply(s, a);
    var at, bs := WriteStores(s, a);
    forall k | 0 <= k < |s'.frames| ensures InWindow(s', k) {
      assert InWindow(s, k);
      if Claim(s) <= s.frames[k].at + s.cap { StoreSpares(s, s', at, bs, k); }
    }
  }

  lemma WindowStays(s: State, a: Act)
    requires Layout(s) && Window(s) && Enabled(s, a) && !StoringAct(s, a) && !(a.Produce? && s.producer.PPublish?)
    requires Claim(s) <= Claim(Apply(s, a))
    ensures Window(Apply(s, a))
  {
    var s' := Apply(s, a);
    QuietRing(s, a);
    SameFrames(s, a);
    forall k | 0 <= k < |s'.frames| ensures InWindow(s', k) { assert InWindow(s, k); }
  }

  /** The frame just committed is as it was drafted. */
  lemma WindowGrows(s: State, a: Act)
    requires Layout(s) && Window(s) && Draft(s) && Enabled(s, a) && a.Produce? && s.producer.PPublish?
    ensures Window(Apply(s, a))
  {
    var s' := Apply(s, a);
    forall k | 0 <= k < |s'.frames| ensures InWindow(s', k) {
      if k < |s.frames| { assert InWindow(s, k) && s'.frames[k] == s.frames[k]; }
    }
  }

  // ---------------------------------------------------------------- what a step does to the frame being written

  lemma FieldStored(ring: Ring, at: nat, v: nat, n: nat)
    requires ring != [] && n <= |ring| && v < Pow256(n)
    ensures Decoded(Get(Put(ring, at, Encoded(v, n)), at, n)) == v
  {
    PutGet(ring, at, Encoded(v, n));
    DecodeEncode(v, n);
  }

  /** Storing one field leaves the others of the same frame alone. */
  lemma FieldsApart(ring: Ring, at: nat, off: nat, bs: seq<Byte>, from: nat, n: nat)
    requires ring != [] && (off + |bs| <= from || from + n <= off) && off + |bs| <= |ring| && from + n <= |ring|
    ensures Get(Put(ring, at + off, bs), at + from, n) == Get(ring, at + from, n)
  {
    PutKeeps(ring, at + off, bs, at + from, n);
  }

  lemma {:induction false} DecodedFits(bs: seq<Byte>)
    ensures Decoded(bs) < Pow256(|bs|)
  {
    if bs != [] { DecodedFits(bs[1..]); }
  }

  lemma VersionFits(ring: Ring, at: nat)
    requires ring != []
    ensures VersionAt(ring, at) < U32 && Locked(VersionAt(ring, at)) < U32
  {
    DecodedFits(Get(ring, at, 4));
  }

  /** What a store to one header field leaves of the frame: that field, the other fields and the payload. */
  lemma FieldWrite(ring: Ring, at: nat, off: nat, v: nat, n: nat, size: nat)
    requires HEADER + size <= |ring| && v < Pow256(n)
    requires (n == 4 && (off == 0 || off == 4 || off == 8)) || (n == 8 && off == 16)
    ensures var r := Put(ring, at + off, Encoded(v, n));
            && VersionAt(r, at) == (if off == 0 then v else VersionAt(ring, at))
            && LengthAt(r, at) == (if off == 4 then v else LengthAt(ring, at))
            && KindAt(r, at) == (if off == 8 then v else KindAt(ring, at))
            && TimeAt(r, at) == (if off == 16 then v else TimeAt(ring, at))
            && Get(r, at + HEADER, size) == Get(ring, at + HEADER, size)
  {
    var bs := Encoded(v, n);
    FieldStored(ring, at + off, v, n);
    if off != 0 { FieldsApart(ring, at, off, bs, 0, 4); }
    if off != 4 { FieldsApart(ring, at, off, bs, 4, 4); }
    if off != 8 { FieldsApart(ring, at, off, bs, 8, 4); }
    if off != 16 { FieldsApart(ring, at, off, bs, 16, 8); }
    FieldsApart(ring, at, off, bs, HEADER, size);
  }

  lemma Room(s: State)
    requires Layout(s) && !s.producer.PIdle?
    ensures HEADER + s.producer.req.size <= Required(s.producer.req.size) <= |s.ring| && s.producer.req.size < U32
  {
    AlignedHolds(s.producer.req.size);
  }

  lemma VersionStored(s: State, a: Act)
    requires Layout(s) && Draft(s) && Enabled(s, a) && a.Produce? && s.producer.PVersion?
    ensures Draft(Apply(s, a))
  {
    var at := s.producer.req.at;
    Room(s);
    VersionLocked(s.ring, at);
    assert Apply(s, a).producer == PLength(s.producer.req);
  }

  lemma VersionLocked(ring: Ring, at: nat)
    requires |ring| >= 4
    ensures VersionAt(Put(ring, at, Encoded(Locked(VersionAt(ring, at)), 4)), at) % 2 == 1
  {
    var v := Locked(VersionAt(ring, at));
    VersionFits(ring, at);
    Pow256Four();
    FieldStored(ring, at, v, 4);
    LockedOdd(VersionAt(ring, at));
  }

  lemma LockedOdd(v: nat)
    ensures Locked(v) % 2 == 1
  {
  }

  lemma Pow256Four()
    ensures Pow256(4) == U32
  {
    assert Pow256(2) == 65536;
  }

  lemma LengthStored(s: State, a: Act)
    requires Layout(s) && Draft(s) && Enabled(s, a) && a.Produce? && s.producer.PLength?
    ensures Draft(Apply(s, a))
  {
    Room(s);
    FieldWrite(s.ring, s.producer.req.at, 4, s.producer.req.size, 4, s.producer.req.size);
  }

  lemma KindStored(s: State, a: Act)
    requires Layout(s) && Draft(s) && Enabled(s, a) && a.Produce? && s.producer.PKind?
    ensures Draft(Apply(s, a))
  {
    Room(s);
    FieldWrite(s.ring, s.producer.req.at, 8, s.producer.req.kind, 4, s.producer.req.size);
  }

  lemma TimeStored(s: State, a: Act)
    requires Layout(s) && Draft(s) && Enabled(s, a) && a.Produce? && s.producer.PTime?
    ensures Draft(Apply(s, a))
  {
    Room(s);
    FieldWrite(s.ring, s.producer.req.at, 16, a.clock, 8, s.producer.req.size);
  }

  lemma SealStored(s: State, a: Act)
    requires Layout(s) && Draft(s) && Enabled(s, a) && a.Produce? && s.producer.PSeal?
    ensures Draft(Apply(s, a))
  {
    var at, ring := s.producer.req.at, s.ring;
    Room(s);
    VersionFits(ring, at);
    FieldWrite(ring, at, 0, (VersionAt(ring, at) + 1) % U32, 4, s.producer.req.size);
    SealedEven(VersionAt(ring, at));
  }

  lemma SealedEven(v: nat)
    requires v % 2 == 1
    ensures (v + 1) % U32 % 2 == 0
  {
    ModOfMod(v + 1, 2, U32 / 2);
  }

  /** A payload byte changes that byte of the draft and nothing else of the frame. */
  lemma ByteStored(s: State, j: nat, b: Byte)
    requires Layout(s) && Draft(s) && Enabled(s, StoreByte(j, b))
    ensures Draft(Apply(s, StoreByte(j, b)))
  {
    var at, ring, req := s.producer.req.at, s.ring, s.producer.req;
    AlignedHolds(req.size);
    FieldsApart(ring, at, HEADER + j, [b], 0, 4);
    FieldsApart(ring, at, HEADER + j, [b], 4, 4);
    FieldsApart(ring, at, HEADER + j, [b], 8, 4);
    FieldsApart(ring, at, HEADER + j, [b], 16, 8);
    PayloadStored(ring, at + HEADER, req.size, j, b);
  }

  lemma PayloadStored(ring: Ring, at: nat, n: nat, j: nat, b: Byte)
    requires ring != [] && j < n <= |ring|
    ensures Get(Put(ring, at + j, [b]), at, n) == Get(ring, at, n)[j := b]
  {
    var r := Put(ring, at + j, [b]);
    PutGet(ring, at + j, [b]);
    assert Get(r, at + j, 1)[0] == r[Spot(r, at + j)];
    PutKeeps(ring, at + j, [b], at, j);
    PutKeeps(ring, at + j, [b], at + j + 1, n - j - 1);
    var now, was := Get(r, at, n), Get(ring, at, n);
    forall i | 0 <= i < n ensures now[i] == was[j := b][i] {
      assert now[i] == r[Spot(r, at + i)] && was[i] == ring[Spot(ring, at + i)];
      if i < j {
        assert Get(r, at, j)[i] == Get(ring, at, j)[i];
      } else if i > j {
        assert at + i == at + j + 1 + (i - j - 1);
        assert Get(r, at + j + 1, n - j - 1)[i - j - 1] == Get(ring, at + j + 1, n - j - 1)[i - j - 1];
      }
    }
  }

  lemma DraftKept(s: State, a: Act)
    requires Layout(s) && Draft(s) && Enabled(s, a)
    ensures Draft(Apply(s, a))
  {
    if StoringAct(s, a) {
      if a.StoreByte? { ByteStored(s, a.j, a.b); }
      else if s.producer.PSeal? { SealStored(s, a); }
      else if s.producer.PVersion? { VersionStored(s, a); }
      else if s.producer.PLength? { LengthStored(s, a); }
      else if s.producer.PKind? { KindStored(s, a); }
      else { TimeStored(s, a); }
    } else {
      QuietRing(s, a);
    }
  }

  // ---------------------------------------------------------------- protected readers, while the producer moves

  predicate ProducerAct(a: Act) { a.Reserve? || a.Produce? || a.StoreByte? || a.Commit? }

  /** The scan cannot overlook a slot: it holds the minimum of the ones it has passed, and cursors only grow. */
  lemma RespectedKept(s: State, a: Act, i: nat)
    requires Layout(s) && Enabled(s, a) && ProducerAct(a) && i < |s.slots| && s.slots[i].active && Respected(s, i)
    requires Apply(s, a).slots[i].active
    ensures Respected(Apply(s, a), i)
  {
  }

  lemma PlacedKept(s: State, a: Act, r: Reader)
    requires Layout(s) && Enabled(s, a) && ProducerAct(a) && Placed(s, r)
    requires |Apply(s, a).frames| >= |s.frames| && Apply(s, a).frames[..|s.frames|] == s.frames
    ensures Placed(Apply(s, a), r)
  {
    var s' := Apply(s, a);
    assert Messages(s'.frames, r.first, r.next) == Messages(s.frames, r.first, r.next) by {
      forall i | r.first <= i < r.next ensures s'.frames[i] == s.frames[i] {
        assert s'.frames[..|s.frames|][i] == s.frames[i];
      }
    }
  }

  lemma VersionKept(s: State, a: Act, k: nat)
    requires Layout(s) && Chain(s) && Draft(s) && Enabled(s, a) && ProducerAct(a) && k < |s.frames|
    requires Claim(s) <= s.frames[k].at + s.cap && Intact(s.ring, s.frames[k])
    ensures VersionAt(Apply(s, a).ring, s.frames[k].at) == VersionAt(s.ring, s.frames[k].at)
  {
    if StoringAct(s, a) {
      var at, bs := WriteStores(s, a);
      StoreSpares(s, Apply(s, a), at, bs, k);
    } else {
      QuietRing(s, a);
    }
  }

  lemma ProducerReader(s: State, a: Act, t: nat)
    requires Layout(s) && Chain(s) && Window(s) && Draft(s) && Enabled(s, a) && ProducerAct(a)
    requires t < |s.readers| && ReaderOk(s, t) && Apply(s, a).ring != []
    ensures ReaderOk(Apply(s, a), t)
  {
    var s' := Apply(s, a);
    if Protected(s', t) {
      var r := s.readers[t];
      ProducerReaders(s, a, t);
      RespectedKept(s, a, r.slot.value);
      PlacedKept(s, a, r);
      if Polling(r.pc) {
        Safe(s, t);
        VersionKept(s, a, r.next);
        assert s'.frames[..|s.frames|][r.next] == s.frames[r.next];
      }
    }
  }

  /** The producer touches no reader, and of a slot at most whether it is active. */
  lemma ProducerReaders(s: State, a: Act, t: nat)
    requires Enabled(s, a) && ProducerAct(a) && Protected(Apply(s, a), t)
    ensures Protected(s, t) && Apply(s, a).readers == s.readers
            && Apply(s, a).slots[s.readers[t].slot.value] == s.slots[s.readers[t].slot.value]
    ensures |Apply(s, a).frames| >= |s.frames| && Apply(s, a).frames[..|s.frames|] == s.frames
  {
  }

  // ---------------------------------------------------------------- protected readers, while readers move

  function Actor(a: Act): nat
    requires !ProducerAct(a)
  {
    a.t
  }

  lemma ReadersLeave(s: State, a: Act)
    requires Layout(s) && Enabled(s, a) && !ProducerAct(a)
    ensures var s' := Apply(s, a);
            && s'.ring == s.ring && s'.frames == s.frames && s'.commit == s.commit && s'.cached == s.cached
            && s'.producer == s.producer && s'.prod == s.prod && s'.cap == s.cap
            && |s'.readers| == |s.readers| && |s'.slots| == |s.slots|
            && (forall t :: 0 <= t < |s.readers| && t != Actor(a) ==> s'.readers[t] == s.readers[t])
  {
    if a.Read? { ReadLeaves(s, a.t); }
  }

  lemma ReadLeaves(s: State, t: nat)
    requires Enabled(s, Read(t))
    ensures var s' := DoRead(s, t);
            && s' == s.(slots := s'.slots, readers := s'.readers) && |s'.slots| == |s.slots|
            && |s'.readers| == |s.readers| && s'.readers == s.readers[t := s'.readers[t]]
  {
  }

  lemma OtherReader(s: State, a: Act, t: nat)
    requires Layout(s) && Enabled(s, a) && !ProducerAct(a) && t < |s.readers| && t != Actor(a)
    requires ReaderOk(s, t) && Apply(s, a).ring != []
    ensures ReaderOk(Apply(s, a), t)
  {
    ReadersLeave(s, a);
  }

  /** Each load of a protected reader finds what the frame at its cursor says. */
  lemma LoadOk(s: State, t: nat)
    requires Layout(s) && Chain(s) && Window(s) && Enabled(s, Read(t)) && ReaderOk(s, t) && Protected(s, t)
    requires Polling(s.readers[t].pc) || s.readers[t].pc.RCommit?
    ensures PcOk(Apply(s, Read(t)), Apply(s, Read(t)).readers[t])
  {
    var r := s.readers[t];
    if r.pc.RCommit? {
      if r.cursor < s.commit { assert r.next < |s.frames|; }
    } else {
      Safe(s, t);
      FrameEnds(s, r.next);
      LoadStep(s, t);
    }
  }

  lemma LoadStep(s: State, t: nat)
    requires Enabled(s, Read(t)) && Polling(s.readers[t].pc) && s.readers[t].next < |s.frames|
    requires var r := s.readers[t];
             && Intact(s.ring, s.frames[r.next]) && s.frames[r.next].at == r.cursor && PcOk(s, r)
             && s.prod <= r.cursor + s.cap && |s.frames[r.next].msg.payload| <= s.cap
    ensures PcOk(Apply(s, Read(t)), Apply(s, Read(t)).readers[t])
  {
    var r := s.readers[t];
    var pc' := DoRead(s, t).readers[t].pc;
    assert DoRead(s, t).readers[t] == r.(pc := pc');
    if !r.pc.RBytes? { FieldStep(s, t); }
  }

  lemma FieldStep(s: State, t: nat)
    requires Enabled(s, Read(t)) && Polling(s.readers[t].pc) && !s.readers[t].pc.RBytes?
             && s.readers[t].next < |s.frames|
    requires var r := s.readers[t];
             && Intact(s.ring, s.frames[r.next]) && s.frames[r.next].at == r.cursor
             && Loaded(r.pc, s.frames[r.next].msg, VersionAt(s.ring, r.cursor))
             && s.prod <= r.cursor + s.cap && |s.frames[r.next].msg.payload| <= s.cap
    ensures var r, pc' := s.readers[t], Apply(s, Read(t)).readers[t].pc;
            Polling(pc') && Loaded(pc', s.frames[r.next].msg, VersionAt(s.ring, r.cursor))
  {
  }

  lemma ReadOk(s: State, t: nat)
    requires Layout(s) && Chain(s) && Window(s) && Enabled(s, Read(t)) && ReaderOk(s, t)
    ensures ReaderOk(Apply(s, Read(t)), t)
  {
    if s.readers[t].pc.RCheck? || s.readers[t].pc.RStore? { PublishOk(s, t); } else { PollOk(s, t); }
  }

  lemma PublishOk(s: State, t: nat)
    requires Layout(s) && Enabled(s, Read(t)) && ReaderOk(s, t) && (s.readers[t].pc.RCheck? || s.readers[t].pc.RStore?)
    ensures Apply(s, Read(t)).ring != [] && ReaderOk(Apply(s, Read(t)), t)
  {
  }

  lemma PollOk(s: State, t: nat)
    requires Layout(s) && Chain(s) && Window(s) && Enabled(s, Read(t)) && ReaderOk(s, t)
    requires !s.readers[t].pc.RCheck? && !s.readers[t].pc.RStore?
    ensures Apply(s, Read(t)).ring != [] && ReaderOk(Apply(s, Read(t)), t)
  {
    PollMoves(s, t);
    if Protected(s, t) && (Polling(s.readers[t].pc) || s.readers[t].pc.RCommit?) { LoadOk(s, t); }
  }

  lemma PollMoves(s: State, t: nat)
    requires Enabled(s, Read(t)) && !s.readers[t].pc.RCheck? && !s.readers[t].pc.RStore?
    ensures DoRead(s, t) == Goes(s, t, DoRead(s, t).readers[t].pc)
    ensures !Polling(s.readers[t].pc) && !s.readers[t].pc.RCommit? ==> DoRead(s, t).readers[t].pc == RIdle
  {
  }

  lemma AdvanceOk(s: State, t: nat)
    requires Layout(s) && Chain(s) && Window(s) && Enabled(s, Advance(t)) && ReaderOk(s, t)
    ensures ReaderOk(Apply(s, Advance(t)), t)
  {
    var s' := Apply(s, Advance(t));
    ReadersLeave(s, Advance(t));
    if Protected(s', t) {
      assert Protected(s, t);
      var r, r' := s.readers[t], s'.readers[t];
      Safe(s, t);
      FrameEnds(s, r.next);
      assert FrameOk(s, r.next);
      var msg := s.frames[r.next].msg;
      TakenIs(s, t);
      MessagesOn(s.frames, r.first, r.next);
    }
  }

  lemma TakenIs(s: State, t: nat)
    requires s.ring != [] && t < |s.readers| && s.readers[t].pc.RHas? && s.readers[t].next < |s.frames|
    requires var r := s.readers[t];
             && Intact(s.ring, s.frames[r.next]) && s.frames[r.next].at == r.cursor
             && Loaded(r.pc, s.frames[r.next].msg, VersionAt(s.ring, r.cursor))
    ensures Taken(s, s.readers[t]) == s.frames[s.readers[t].next].msg
  {
  }

  lemma MessagesOn(frames: seq<Frame>, first: nat, next: nat)
    requires first <= next < |frames|
    ensures Messages(frames, first, next + 1) == Messages(frames, first, next) + [frames[next].msg]
  {
  }

  lemma ReaderStepOk(s: State, a: Act)
    requires Layout(s) && Chain(s) && Window(s) && Enabled(s, a) && !ProducerAct(a) && ReaderOk(s, Actor(a))
    ensures Apply(s, a).ring != [] && ReaderOk(Apply(s, a), Actor(a))
  {
    ReadersLeave(s, a);
    match a
    case Read(t) => ReadOk(s, t);
    case Advance(t) => AdvanceOk(s, t);
    case _ =>
  }

  lemma StepInv(s: State, a: Act)
    requires Inv(s) && Enabled(s, a)
    ensures Inv(Apply(s, a))
  {
    var s' := Apply(s, a);
    LayoutKept(s, a);
    ChainKept(s, a);
    WindowKept(s, a);
    DraftKept(s, a);
    forall t | 0 <= t < |s'.readers| ensures ReaderOk(s', t) {
      if ProducerAct(a) {
        ProducerReader(s, a, t);
      } else {
        ReadersLeave(s, a);
        if t == Actor(a) { ReaderStepOk(s, a); } else { OtherReader(s, a, t); }
      }
    }
  }
}
