/**
 BroadcastRingBuffer (common/shared_memory/broadcast_ring_buffer.cc): one producer and any number of readers over a
 shared byte ring, one shared access per step.

 A heartbeat that is too old is an arbitrary choice of the producer's step (`stale`), so evictions may strike any
 reader at any time; timestamps are arbitrary too.  64-bit cursors do not wrap.  RegisterReader is one step.
 `frames`, the slots' `owner` and `fouled`, and the readers' `first`, `next`, `good` and `delivered` are history.
 */
module BroadcastRing {
  import opened Prelude
  import opened BroadcastFrame

  const SLOTS: nat := 16

  // `owner` is the reader that registered last; `fouled` says that another one stored a cursor here since.
  datatype Slot = Slot(active: bool, cursor: nat, gen: nat, owner: Option<nat>, fouled: bool)

  datatype Request = Request(at: nat, size: nat, kind: nat, time: nat)

  // What the scan loads next of slot `i`.
  datatype Look = Active | Heartbeat | Cursor

  datatype Producer =
    | PIdle
    | PScan(req: Request, i: nat, low: nat, look: Look)
    | PVersion(req: Request)
    | PLength(req: Request)
    | PKind(req: Request)
    | PTime(req: Request)
    | PClaim(req: Request)
    | PFill(req: Request, draft: seq<Byte>)       // Reserve has returned; the caller stores the payload
    | PSeal(req: Request, draft: seq<Byte>)
    | PPublish(req: Request, draft: seq<Byte>)

  datatype Header = Header(length: nat, kind: nat, time: nat)

  datatype Status = NotFound | Lapped | DataLoss

  // `copy` tells PollCopy from PollZeroCopy; v is the version PollCopy loaded first.
  datatype ReaderPc =
    | RIdle
    | RCommit(copy: bool)
    | RProducer(copy: bool)
    | RVersion
    | RLength(copy: bool, v: nat)
    | RKind(copy: bool, v: nat, length: nat)
    | RTime(copy: bool, v: nat, length: nat, kind: nat)
    | RLengthAgain(kind: nat, time: nat)
    | RSpan(h: Header)
    | RBytes(v: nat, h: Header, got: seq<Byte>)
    | RAfter(v: nat, h: Header, got: seq<Byte>)
    | RHas(copy: bool, h: Header, span: nat, got: seq<Byte>)
    | RFailed(status: Status)
    | RCheck                                      // Advance: the local cursor has moved
    | RStore                                      // Advance: the generation matched

  datatype Reader = Reader(cursor: nat, slot: Option<nat>, gen: nat, pc: ReaderPc,
                           first: nat, next: nat, good: bool, delivered: seq<Message>)

  datatype State = State(cap: nat, prod: nat, commit: nat, cached: nat, ring: Ring, slots: seq<Slot>,
                         producer: Producer, readers: seq<Reader>, frames: seq<Frame>)

  datatype Act =
    | Reserve(size: nat, kind: nat)
    | Produce(stale: bool, clock: nat)
    | StoreByte(j: nat, b: Byte)
    | Commit
    | Register(t: nat, k: nat)                    // k: the committed frame the reader means to start at
    | Unregister(t: nat)
    | SetCursor(t: nat, c: nat)
    | Poll(t: nat, copy: bool)
    | Read(t: nat)
    | Advance(t: nat)
    | Drop(t: nat)

  function Init(ring: Ring, n: nat): State {
    State(|ring|, 0, 0, 0, ring, seq(SLOTS, _ => Slot(false, 0, 0, None, false)), PIdle,
          seq(n, _ => Reader(0, None, 0, RIdle, 0, 0, false, [])), [])
  }

  /** The cursor where the `k`-th committed frame starts, or the commit cursor behind the last one. */
  function At(s: State, k: nat): nat { if k < |s.frames| then s.frames[k].at else s.commit }

  predicate WellSized(s: State) { s.ring != [] && |s.ring| == s.cap && |s.slots| == SLOTS }

  predicate SlotOk(s: State, t: nat) {
    t < |s.readers| && match s.readers[t].slot case None => true case Some(i) => i < |s.slots|
  }

  predicate Enabled(s: State, a: Act) {
    && WellSized(s)
    && match a
       case Reserve(size, kind) =>
         && s.producer == PIdle && kind < U32
         && (size <= LONGEST || (size <= U32 - 8 && Required(size) > s.cap))
       case Produce(_, clock) => s.producer != PIdle && !s.producer.PFill? && clock < U32 * U32
       case StoreByte(j, _) => s.producer.PFill? && j < s.producer.req.size && j < |s.producer.draft|
       case Commit => s.producer.PFill?
       case Register(t, _) => SlotOk(s, t) && s.readers[t].pc == RIdle && s.readers[t].slot == None
       case Unregister(t) => SlotOk(s, t) && s.readers[t].pc == RIdle && s.readers[t].slot != None
       case SetCursor(t, _) => SlotOk(s, t) && s.readers[t].pc == RIdle && s.readers[t].slot == None
       case Poll(t, _) => SlotOk(s, t) && s.readers[t].pc == RIdle
       case Read(t) =>
         && SlotOk(s, t) && s.readers[t].pc != RIdle && !s.readers[t].pc.RHas?
         && (s.readers[t].pc.RCheck? || s.readers[t].pc.RStore? ==> s.readers[t].slot != None)
       case Advance(t) => SlotOk(s, t) && s.readers[t].pc.RHas?
       case Drop(t) => SlotOk(s, t) && s.readers[t].pc.RHas?
  }

  // ---------------------------------------------------------------- producer

  /** version | 1 */
  function Locked(v: nat): nat { if v % 2 == 1 then v else v + 1 }

  function BeginReserve(s: State, size: nat, kind: nat): State {
    var req := Request(s.prod, size, kind, 0);
    var target := s.prod + Required(size);
    if Required(size) > s.cap then s                     // InvalidArgument
    else if target - s.cached > s.cap then s.(producer := PScan(req, 0, target, Active))
    else s.(producer := PVersion(req))
  }

  function Scan(s: State, stale: bool): State
    requires WellSized(s) && s.producer.PScan?
  {
    var PScan(req, i, low, look) := s.producer;
    var target := req.at + Required(req.size);
    if i >= SLOTS then
      s.(cached := low, producer := if target - low <= s.cap then PVersion(req) else PScan(req, 0, target, Active))
    else if look == Active then
      s.(producer := if s.slots[i].active then PScan(req, i, low, Heartbeat) else PScan(req, i + 1, low, Active))
    else if look == Heartbeat then
      if stale then s.(slots := s.slots[i := s.slots[i].(active := false)], producer := PScan(req, i + 1, low, Active))
      else s.(producer := PScan(req, i, low, Cursor))
    else
      s.(producer := PScan(req, i + 1, if s.slots[i].cursor < low then s.slots[i].cursor else low, Active))
  }

  function Write(s: State, clock: nat): State
    requires WellSized(s)
  {
    match s.producer
    case PVersion(req) =>
      s.(ring := Put(s.ring, req.at, Encoded(Locked(VersionAt(s.ring, req.at)), 4)), producer := PLength(req))
    case PLength(req) => s.(ring := Put(s.ring, req.at + 4, Encoded(req.size, 4)), producer := PKind(req))
    case PKind(req) => s.(ring := Put(s.ring, req.at + 8, Encoded(req.kind, 4)), producer := PTime(req))
    case PTime(req) =>
      s.(ring := Put(s.ring, req.at + 16, Encoded(clock, 8)), producer := PClaim(req.(time := clock)))
    case PClaim(req) =>
      s.(prod := req.at + Required(req.size), producer := PFill(req, Get(s.ring, req.at + HEADER, req.size)))
    case PSeal(req, draft) =>
      s.(ring := Put(s.ring, req.at, Encoded((VersionAt(s.ring, req.at) + 1) % U32, 4)),
         producer := PPublish(req, draft))
    case PPublish(req, draft) =>
      s.(commit := req.at + Required(req.size), producer := PIdle,
         frames := s.frames + [Frame(req.at, Message(req.kind, req.time, draft))])
    case _ => s
  }

  // ---------------------------------------------------------------- readers

  function SetReader(s: State, t: nat, r: Reader): State
    requires t < |s.readers|
  {
    s.(readers := s.readers[t := r])
  }

  function Goes(s: State, t: nat, pc: ReaderPc): State
    requires t < |s.readers|
  {
    SetReader(s, t, s.readers[t].(pc := pc))
  }

  /** The first slot without an active reader, or SLOTS. */
  function FreeSlot(slots: seq<Slot>, i: nat): (j: nat)
    requires i <= |slots|
    ensures i <= j <= |slots| && (j < |slots| ==> !slots[j].active)
    decreases |slots| - i
  {
    if i == |slots| || !slots[i].active then i else FreeSlot(slots, i + 1)
  }

  /** A reader that registers in slot `i` at a frame the producer still respects: not below the cached minimum and, if
      a scan is under way, neither a capacity behind nor below what the scan has found in the slots up to `i`. */
  predicate GoodStart(s: State, i: nat, c: nat, k: nat) {
    && k <= |s.frames| && c == At(s, k) && s.cached <= c
    && (s.producer.PScan? ==> s.prod <= c + s.cap && (i < s.producer.i ==> s.producer.low <= c))
  }

  function DoRegister(s: State, t: nat, k: nat): State
    requires Enabled(s, Register(t, k))
  {
    var i := FreeSlot(s.slots, 0);
    var r := s.readers[t];
    if i == SLOTS then s                                  // ResourceExhausted
    else
      var gen := (s.slots[i].gen + 1) % U32;
      s.(slots := s.slots[i := Slot(true, r.cursor, gen, Some(t), false)],
         readers := s.readers[t := Reader(r.cursor, Some(i), gen, RIdle, k, k, GoodStart(s, i, r.cursor, k), [])])
  }

  function DoUnregister(s: State, t: nat): State
    requires Enabled(s, Unregister(t))
  {
    var i := s.readers[t].slot.value;
    s.(slots := s.slots[i := s.slots[i].(active := false)], readers := s.readers[t := s.readers[t].(slot := None)])
  }

  /** The message a reader takes away: its copy, or what the span shows when it lets go of it. */
  function Taken(s: State, r: Reader): Message
    requires s.ring != [] && r.pc.RHas?
  {
    Message(r.pc.h.kind, r.pc.h.time, if r.pc.copy then r.pc.got else Get(s.ring, r.cursor + HEADER, r.pc.span))
  }

  function DoAdvance(s: State, t: nat): State
    requires Enabled(s, Advance(t))
  {
    var r := s.readers[t];
    SetReader(s, t, r.(cursor := r.cursor + TotalFrameSize(r.pc.h.length),
                       pc := if r.slot == None then RIdle else RCheck,
                       next := r.next + 1, delivered := r.delivered + [Taken(s, r)]))
  }

  function DoRead(s: State, t: nat): State
    requires Enabled(s, Read(t))
  {
    var r := s.readers[t];
    var c := r.cursor;
    match r.pc
    case RCommit(copy) => Goes(s, t, if c >= s.commit then RFailed(NotFound) else RProducer(copy))
    case RProducer(copy) =>
      Goes(s, t, if s.prod - c > s.cap then RFailed(Lapped) else if copy then RVersion else RLength(false, 0))
    case RVersion =>
      var v := VersionAt(s.ring, c);
      Goes(s, t, if v % 2 == 1 then RProducer(true) else RLength(true, v))
    case RLength(copy, v) =>
      var length := LengthAt(s.ring, c);
      Goes(s, t, if length > s.cap then RFailed(DataLoss) else RKind(copy, v, length))
    case RKind(copy, v, length) => Goes(s, t, RTime(copy, v, length, KindAt(s.ring, c)))
    case RTime(copy, v, length, kind) =>
      var time := TimeAt(s.ring, c);
      Goes(s, t, if copy then RBytes(v, Header(length, kind, time), []) else RLengthAgain(kind, time))
    case RLengthAgain(kind, time) => Goes(s, t, RSpan(Header(LengthAt(s.ring, c), kind, time)))
    case RSpan(h) => Goes(s, t, RHas(false, h, LengthAt(s.ring, c), []))
    case RBytes(v, h, got) =>
      Goes(s, t, if |got| < h.length then RBytes(v, h, got + Get(s.ring, c + HEADER + |got|, 1)) else RAfter(v, h, got))
    case RAfter(v, h, got) =>
      Goes(s, t, if VersionAt(s.ring, c) == v then RHas(true, h, |got|, got) else RProducer(true))
    case RCheck =>
      if s.slots[r.slot.value].gen == r.gen then Goes(s, t, RStore) else SetReader(s, t, r.(slot := None, pc := RIdle))
    case RStore =>
      var i := r.slot.value;
      var slot := s.slots[i];
      Goes(s, t, RIdle).(slots := s.slots[i := slot.(cursor := c, fouled := slot.fouled || slot.owner != Some(t))])
    case _ => Goes(s, t, RIdle)
  }

  function Apply(s: State, a: Act): State
    requires Enabled(s, a)
  {
    match a
    case Reserve(size, kind) => BeginReserve(s, size, kind)
    case Produce(stale, clock) =>
      if s.producer.PScan? then Scan(s, stale) else Write(s, clock)
    case StoreByte(j, b) =>
      s.(ring := Put(s.ring, s.producer.req.at + HEADER + j, [b]),
         producer := PFill(s.producer.req, s.producer.draft[j := b]))
    case Commit => s.(producer := PSeal(s.producer.req, s.producer.draft))
    case Register(t, k) => DoRegister(s, t, k)
    case Unregister(t) => DoUnregister(s, t)
    case SetCursor(t, c) => SetReader(s, t, s.readers[t].(cursor := c))
    case Poll(t, copy) => Goes(s, t, RCommit(copy))
    case Read(t) => DoRead(s, t)
    case Advance(t) => DoAdvance(s, t)
    case Drop(t) => Goes(s, t, RIdle)
  }
}
