/**
 When every frame has one total size and that size divides the capacity, the byte ring of BroadcastRing behaves as the
 cells of BroadcastLapped: frame `f` lives in the bytes of cell `f` modulo the number of cells, whatever its cursor.
 Versions in the ring wrap at 2^32, versions of cells do not.
 */
module BroadcastUniform {
  import opened Prelude
  import opened Modular
  import opened BroadcastFrame
  import opened BroadcastRing
  import S = BroadcastSafety
  import L = BroadcastLapped

  // ---------------------------------------------------------------- cells in the bytes

  /** The bytes from `at` on show the cell. */
  ghost predicate ShowsCell(ring: Ring, at: nat, c: L.Cell, width: nat)
    requires ring != []
  {
    && VersionAt(ring, at) == c.version % U32 && LengthAt(ring, at) == c.length
    && KindAt(ring, at) == c.kind && TimeAt(ring, at) == c.time
    && Get(ring, at + HEADER, width) == c.bytes
  }

  /** Frames of `w` bytes fill the ring, and each cell is where it belongs. */
  ghost predicate Laid(ring: Ring, c: L.Cells, w: nat) {
    && ring != [] && c.cells != [] && w == HEADER + c.width && |ring| == |c.cells| * w
  }

  ghost predicate ShowsCells(ring: Ring, c: L.Cells, w: nat) {
    && Laid(ring, c, w)
    && forall j :: 0 <= j < |c.cells| ==> ShowsCell(ring, j * w, c.cells[j], c.width)
  }

  /** Addresses a whole number of capacities apart hold the same bytes. */
  lemma GetShift(ring: Ring, at: nat, k: nat, n: nat)
    requires ring != []
    ensures Get(ring, at + k * |ring|, n) == Get(ring, at, n)
  {
    var far, near := Get(ring, at + k * |ring|, n), Get(ring, at, n);
    forall i | 0 <= i < n ensures far[i] == near[i] { SpotShift(ring, at + i, at + k * |ring| + i, k); }
  }

  lemma SpotShift(ring: Ring, at: nat, far: nat, k: nat)
    requires ring != [] && far == at + k * |ring|
    ensures Spot(ring, far) == Spot(ring, at)
  {
    var q, r := at / |ring|, at % |ring|;
    assert at == q * |ring| + r;
    assert far == (q + k) * |ring| + r;
    ModIs(far, |ring|, q + k, r);
  }

  lemma CellShift(ring: Ring, at: nat, k: nat, c: L.Cell, width: nat)
    requires ring != []
    ensures ShowsCell(ring, at + k * |ring|, c, width) <==> ShowsCell(ring, at, c, width)
  {
    var far := at + k * |ring|;
    GetShift(ring, at, k, 4);
    ShiftField(ring, at, k, 4, 4);
    ShiftField(ring, at, k, 8, 4);
    ShiftField(ring, at, k, 16, 8);
    ShiftField(ring, at, k, HEADER, width);
  }

  lemma ShiftField(ring: Ring, at: nat, k: nat, off: nat, n: nat)
    requires ring != []
    ensures Get(ring, at + k * |ring| + off, n) == Get(ring, at + off, n)
  {
    assert at + k * |ring| + off == at + off + k * |ring|;
    GetShift(ring, at + off, k, n);
  }

  /** The cursor of frame `f` is whole capacities beyond the place of its cell. */
  lemma FrameHome(f: nat, n: nat, w: nat)
    requires n > 0
    ensures f * w == (f % n) * w + (f / n) * (n * w)
  {
    var q, r := f / n, f % n;
    assert f == q * n + r;
    assert (q * n + r) * w == (q * n) * w + r * w;
    assert (q * n) * w == q * (n * w);
  }

  /** What a frame's bytes show, they show at the place of its cell. */
  lemma AtHome(ring: Ring, n: nat, w: nat, f: nat, d: L.Cell, width: nat)
    requires n > 0 && ring != [] && |ring| == n * w
    ensures ShowsCell(ring, f * w, d, width) <==> ShowsCell(ring, (f % n) * w, d, width)
  {
    FrameHome(f, n, w);
    CellShift(ring, (f % n) * w, f / n, d, width);
  }

  lemma ShowsAt(ring: Ring, c: L.Cells, w: nat, f: nat)
    requires Laid(ring, c, w)
    ensures ShowsCell(ring, f * w, c.cells[L.Home(c, f)], c.width)
            <==> ShowsCell(ring, L.Home(c, f) * w, c.cells[L.Home(c, f)], c.width)
  {
    AtHome(ring, |c.cells|, w, f, c.cells[L.Home(c, f)], c.width);
  }

  /** The next frame after `f` that lives in cell `j`. */
  lemma NextIn(f: nat, n: nat, j: nat) returns (g: nat)
    requires j < n && j != f % n
    ensures f < g < f + n && g % n == j
  {
    var q, r := f / n, f % n;
    assert f == q * n + r;
    if j > r {
      g := q * n + j;
      ModIs(g, n, q, j);
    } else {
      g := (q + 1) * n + j;
      assert (q + 1) * n == q * n + n;
      ModIs(g, n, q + 1, j);
    }
  }

  /** A store inside the frame at `at` does not show in a frame behind it within one capacity. */
  lemma StoreSpares(ring: Ring, at: nat, off: nat, bs: seq<Byte>, far: nat, w: nat, c: L.Cell, width: nat)
    requires ring != [] && off + |bs| <= w == HEADER + width && at + w <= far && far + w <= at + |ring|
    ensures ShowsCell(Put(ring, at + off, bs), far, c, width) <==> ShowsCell(ring, far, c, width)
  {
    PutKeeps(ring, at + off, bs, far, 4);
    PutKeeps(ring, at + off, bs, far + 4, 4);
    PutKeeps(ring, at + off, bs, far + 8, 4);
    PutKeeps(ring, at + off, bs, far + 16, 8);
    PutKeeps(ring, at + off, bs, far + HEADER, width);
  }

  /** A store inside frame `f` changes no other cell. */
  lemma OtherCells(ring: Ring, c: L.Cells, w: nat, f: nat, off: nat, bs: seq<Byte>, j: nat)
    requires ShowsCells(ring, c, w) && off + |bs| <= w && j < |c.cells| && j != L.Home(c, f)
    ensures ShowsCell(Put(ring, f * w + off, bs), j * w, c.cells[j], c.width)
  {
    var n := |c.cells|;
    var g := NextIn(f, n, j);
    Apart(f, g, n, w);
    AtHome(ring, n, w, g, c.cells[j], c.width);
    StoreSpares(ring, f * w, off, bs, g * w, w, c.cells[j], c.width);
    AtHome(Put(ring, f * w + off, bs), n, w, g, c.cells[j], c.width);
  }

  lemma OneMore(x: nat, w: nat)
    ensures (x + 1) * w == x * w + w
  {
  }

  lemma NotBelow(f: nat, g: nat, w: nat)
    requires f >= g
    ensures f * w >= g * w
  {
    Spread(g, f - g, w);
  }

  lemma Spread(f: nat, n: nat, w: nat)
    ensures (f + n) * w == f * w + n * w && n * w >= 0
  {
  }

  lemma Apart(f: nat, g: nat, n: nat, w: nat)
    requires f < g < f + n
    ensures f * w + w <= g * w && g * w + w <= f * w + n * w
  {
    OneMore(f, w);
    NotBelow(g, f + 1, w);
    OneMore(g, w);
    NotBelow(f + n, g + 1, w);
    Spread(f, n, w);
  }

  /** A store inside frame `f` that makes its bytes show `d` makes the ring show the cells with `d` in place. */
  lemma StoresCell(ring: Ring, c: L.Cells, w: nat, f: nat, off: nat, bs: seq<Byte>, d: L.Cell)
    requires ShowsCells(ring, c, w) && off + |bs| <= w
    requires ShowsCell(Put(ring, f * w + off, bs), f * w, d, c.width)
    ensures ShowsCells(Put(ring, f * w + off, bs), c.(cells := c.cells[L.Home(c, f) := d]), w)
  {
    var ring', h := Put(ring, f * w + off, bs), L.Home(c, f);
    var c' := c.(cells := c.cells[h := d]);
    ShowsAt(ring', c', w, f);
    forall j | 0 <= j < |c'.cells| ensures ShowsCell(ring', j * w, c'.cells[j], c.width) {
      if j != h { OtherCells(ring, c, w, f, off, bs, j); }
    }
  }

  /** One header field is stored. */
  lemma StoresField(ring: Ring, c: L.Cells, w: nat, f: nat, off: nat, v: nat, n: nat, d: L.Cell)
    requires ShowsCells(ring, c, w) && v < Pow256(n)
    requires (n == 4 && (off == 0 || off == 4 || off == 8)) || (n == 8 && off == 16)
    requires var was := c.cells[L.Home(c, f)];
             && d.version % U32 == (if off == 0 then v else was.version % U32)
             && d.length == (if off == 4 then v else was.length) && d.kind == (if off == 8 then v else was.kind)
             && d.time == (if off == 16 then v else was.time) && d.bytes == was.bytes
    ensures ShowsCells(Put(ring, f * w + off, Encoded(v, n)), c.(cells := c.cells[L.Home(c, f) := d]), w)
  {
    ShowsAt(ring, c, w, f);
    OneCellFits(|c.cells|, w);
    S.FieldWrite(ring, f * w, off, v, n, c.width);
    StoresCell(ring, c, w, f, off, Encoded(v, n), d);
  }

  lemma OneCellFits(n: nat, w: nat)
    requires n > 0
    ensures w <= n * w
  {
    assert (n - 1) * w >= 0;
    assert n * w == w + (n - 1) * w;
  }

  /** One payload byte is stored. */
  lemma StoresPayload(ring: Ring, c: L.Cells, w: nat, f: nat, j: nat, b: Byte)
    requires ShowsCells(ring, c, w) && j < c.width
    ensures var h := L.Home(c, f);
            && j < |c.cells[h].bytes|
            && ShowsCells(Put(ring, f * w + HEADER + j, [b]),
               c.(cells := c.cells[h := c.cells[h].(bytes := c.cells[h].bytes[j := b])]), w)
  {
    var at, h := f * w, L.Home(c, f);
    ShowsAt(ring, c, w, f);
    OneCellFits(|c.cells|, w);
    S.FieldsApart(ring, at, HEADER + j, [b], 0, 4);
    S.FieldsApart(ring, at, HEADER + j, [b], 4, 4);
    S.FieldsApart(ring, at, HEADER + j, [b], 8, 4);
    S.FieldsApart(ring, at, HEADER + j, [b], 16, 8);
    S.PayloadStored(ring, at + HEADER, c.width, j, b);
    assert at + (HEADER + j) == at + HEADER + j;
    StoresCell(ring, c, w, f, HEADER + j, [b], c.cells[h].(bytes := c.cells[h].bytes[j := b]));
  }

  /** Making a version odd, and then even, commutes with wrapping. */
  lemma LockedWraps(v: nat)
    ensures Locked(v % U32) == Locked(v) % U32 && (v % U32) % 2 == v % 2
    ensures (v % U32 + 1) % U32 == (v + 1) % U32
  {
    ModOfMod(v, 2, U32 / 2);
    WrappedSuccessor(v, 1, U32);
    if v % 2 == 0 { assert v % U32 + 1 < U32; }
  }

  // ---------------------------------------------------------------- the two machines side by side

  ghost predicate WriterShows(s: State, c: L.Cells, w: nat) {
    && s.prod == c.prod * w && s.commit == c.commit * w
    && (s.producer != PIdle ==> Required(s.producer.req.size) == w)
    && match s.producer
       case PIdle => c.writer == L.WIdle
       case PScan(req, _, _, _) => c.writer == L.WIdle && req.at == c.sealed * w
       case PVersion(req) => c.writer == L.WVersion(req.size, req.kind) && req.at == c.sealed * w
       case PLength(req) => c.writer == L.WLength(req.size, req.kind) && req.at == c.sealed * w
       case PKind(req) => c.writer == L.WKind(req.size, req.kind) && req.at == c.sealed * w
       case PTime(req) => c.writer == L.WTime(req.size) && req.at == c.sealed * w
       case PClaim(req) => c.writer == L.WClaim && req.at == c.sealed * w
       case PFill(req, _) => c.writer == L.WFill && req.at == c.sealed * w
       case PSeal(req, _) => c.writer == L.WFill && req.at == c.sealed * w
       case PPublish(req, _) => c.writer == L.WPublish && c.sealed > 0 && req.at == (c.sealed - 1) * w
  }

  /** The message of the `k`-th frame that Commit has sealed; the last one may not be published yet. */
  function SealedMessage(s: State, k: nat): Message {
    if k < |s.frames| then s.frames[k].msg
    else if s.producer.PPublish? then Message(s.producer.req.kind, s.producer.req.time, s.producer.draft)
    else Message(0, 0, [])
  }

  ghost predicate LogsShow(s: State, c: L.Cells, w: nat) {
    && c.sealed == |s.frames| + (if s.producer.PPublish? then 1 else 0)
    && (forall k :: 0 <= k < |s.frames| ==> s.frames[k].at == k * w)
    && forall j :: 0 <= j < |c.cells| ==> LogShows(s, c.cells[j].log, c.sealed)
  }

  ghost predicate LogShows(s: State, log: seq<L.Entry>, sealed: nat) {
    forall i :: 0 <= i < |log| ==> log[i].frame < sealed && log[i].msg == SealedMessage(s, log[i].frame)
  }

  /** A reader in PollCopy is where its copier is; to the cells any other reader is idle. */
  ghost predicate PcShows(pc: ReaderPc, lp: L.Pc, width: nat) {
    match pc
    case RCommit(copy) => lp == if copy then L.LCommit else L.LIdle
    case RProducer(copy) => lp == if copy then L.LProducer else L.LIdle
    case RVersion => lp == L.LVersion
    case RLength(copy, v) => if copy then lp.LLength? && v == lp.v % U32 else lp == L.LIdle
    case RKind(copy, v, length) =>
      if copy then lp.LKind? && v == lp.v % U32 && lp == L.LKind(lp.v, length) && length <= width else lp == L.LIdle
    case RTime(copy, v, length, kind) =>
      if copy then lp.LTime? && v == lp.v % U32 && lp == L.LTime(lp.v, length, kind) && length <= width
      else lp == L.LIdle
    case RBytes(v, h, got) => lp.LBytes? && v == lp.v % U32 && lp == L.LBytes(lp.v, h, got) && h.length <= width
    case RAfter(v, h, got) => lp.LAfter? && v == lp.v % U32 && lp == L.LAfter(lp.v, h, got)
    case RHas(copy, h, _, got) => lp == if copy then L.LOk(Message(h.kind, h.time, got)) else L.LIdle
    case RFailed(status) => lp == L.LFailed(status) || lp == L.LIdle
    case _ => lp == L.LIdle
  }

  ghost predicate ReaderShows(r: Reader, p: L.Copier, w: nat, width: nat) {
    PcShows(r.pc, p.pc, width) && (p.pc != L.LIdle ==> r.cursor == p.at * w)
  }

  ghost predicate ReadersShow(s: State, c: L.Cells, w: nat) {
    |s.readers| == |c.copiers| && forall t :: 0 <= t < |s.readers| ==>
      ReaderShows(s.readers[t], c.copiers[t], w, c.width)
  }

  ghost predicate Shows(s: State, c: L.Cells, w: nat) {
    && WellSized(s) && ShowsCells(s.ring, c, w) && WriterShows(s, c, w) && LogsShow(s, c, w) && ReadersShow(s, c, w)
  }

  /** Frames of `w` bytes only, and polls at frame boundaries only. */
  predicate Uniform(s: State, a: Act, w: nat) {
    match a
    case Reserve(size, _) => Required(size) == w
    case Poll(t, copy) => copy && t < |s.readers| ==> w > 0 && s.readers[t].cursor % w == 0
    case _ => true
  }

  /** What a step of the ring is to the cells. */
  function MoveOf(s: State, a: Act, c: L.Cells, w: nat): Option<L.Move>
    requires Enabled(s, a) && w > 0
  {
    match a
    case Reserve(size, kind) => if Apply(s, a).producer.PVersion? then Some(L.Reserves(size, kind)) else None
    case Produce(_, clock) =>
      if s.producer.PScan? then
        if Apply(s, a).producer.PVersion? then Some(L.Reserves(s.producer.req.size, s.producer.req.kind)) else None
      else if s.producer.PSeal? then Some(L.Seals)
      else Some(L.Writes(clock))
    case StoreByte(j, b) => Some(L.StoresByte(j, b))
    case Poll(t, copy) => if copy then Some(L.Polls(t, s.readers[t].cursor / w)) else None
    case Read(t) => ReadMove(c, t)
    case Advance(t) => ReadMove(c, t)
    case Drop(t) => ReadMove(c, t)
    case _ => None
  }

  function ReadMove(c: L.Cells, t: nat): Option<L.Move> {
    if t < |c.copiers| && c.copiers[t].pc != L.LIdle then Some(L.Reads(t)) else None
  }

  function Mirror(s: State, a: Act, c: L.Cells, w: nat): L.Cells
    requires Enabled(s, a) && w > 0
  {
    var m := MoveOf(s, a, c, w);
    if m.Some? && L.Can(c, m.value) then L.Step(c, m.value) else c
  }

  // ---------------------------------------------------------------- the producer

  /** Cells, writer and logs, without the readers. */
  ghost predicate Made(s: State, c: L.Cells, w: nat) {
    WellSized(s) && ShowsCells(s.ring, c, w) && WriterShows(s, c, w) && LogsShow(s, c, w)
  }

  /** A step is to the cells what `MoveOf` says, and the two machines agree again after it. */
  ghost predicate Agrees(s: State, a: Act, c: L.Cells, w: nat)
    requires Enabled(s, a) && w > 0
  {
    && (MoveOf(s, a, c, w).Some? ==> L.Can(c, MoveOf(s, a, c, w).value))
    && Made(Apply(s, a), Mirror(s, a, c, w), w)
  }

  /** The logs still show the frames when neither has changed. */
  lemma LogsKept(s: State, c: L.Cells, s': State, c': L.Cells, w: nat)
    requires LogsShow(s, c, w) && s'.frames == s.frames && c'.sealed == c.sealed && |c'.cells| == |c.cells|
    requires !s.producer.PPublish? && !s'.producer.PPublish?
    requires forall j :: 0 <= j < |c.cells| ==> c'.cells[j].log == c.cells[j].log
    ensures LogsShow(s', c', w)
  {
    forall j | 0 <= j < |c'.cells| ensures LogShows(s', c'.cells[j].log, c'.sealed) {
      assert LogShows(s, c.cells[j].log, c.sealed);
    }
  }

  lemma ReserveShows(s: State, a: Act, c: L.Cells, w: nat)
    requires Made(s, c, w) && Enabled(s, a) && w > 0 && a.Reserve? && Required(a.size) == w && c.prod == c.sealed
    ensures Agrees(s, a, c, w)
  {
    LogsKept(s, c, Apply(s, a), Mirror(s, a, c, w), w);
  }

  lemma ScanShows(s: State, a: Act, c: L.Cells, w: nat)
    requires Made(s, c, w) && Enabled(s, a) && w > 0 && a.Produce? && s.producer.PScan?
             && s.producer.req.size <= c.width
    ensures Agrees(s, a, c, w)
  {
    LogsKept(s, c, Apply(s, a), Mirror(s, a, c, w), w);
  }

  /** The cell that the producer's frame lives in. */
  function Own(c: L.Cells): (j: nat)
    requires c.cells != []
    ensures j < |c.cells|
  {
    L.Home(c, c.sealed)
  }

  /** A header field of the producer's frame is stored, and the same field of its cell becomes that of `d`. */
  ghost predicate Field(s: State, s': State, c: L.Cells, c': L.Cells, w: nat, off: nat, v: nat, n: nat, d: L.Cell)
    requires c.cells != []
  {
    && s.ring != [] && v < Pow256(n)
    && s' == s.(ring := Put(s.ring, c.sealed * w + off, Encoded(v, n)), producer := s'.producer)
    && c' == c.(cells := c.cells[Own(c) := d], writer := c'.writer)
    && !s.producer.PPublish? && !s'.producer.PPublish?
  }

  lemma FieldMade(s: State, s': State, c: L.Cells, c': L.Cells, w: nat, off: nat, v: nat, n: nat, d: L.Cell)
    requires Made(s, c, w) && Field(s, s', c, c', w, off, v, n, d) && WriterShows(s', c', w)
    requires (n == 4 && (off == 0 || off == 4 || off == 8)) || (n == 8 && off == 16)
    requires var was := c.cells[Own(c)];
             && d.version % U32 == (if off == 0 then v else was.version % U32)
             && d.length == (if off == 4 then v else was.length) && d.kind == (if off == 8 then v else was.kind)
             && d.time == (if off == 16 then v else was.time) && d.bytes == was.bytes && d.log == was.log
    ensures Made(s', c', w)
  {
    StoresField(s.ring, c, w, c.sealed, off, v, n, d);
    LogsKept(s, c, s', c', w);
  }

  lemma VersionShows(s: State, a: Act, c: L.Cells, w: nat)
    requires Made(s, c, w) && Enabled(s, a) && w > 0 && a.Produce? && s.producer.PVersion?
    ensures Agrees(s, a, c, w)
  {
    ShowsAt(s.ring, c, w, c.sealed);
    var was := c.cells[Own(c)];
    LockedWraps(was.version);
    S.VersionFits(s.ring, c.sealed * w);
    FieldMade(s, Apply(s, a), c, Mirror(s, a, c, w), w, 0, Locked(was.version % U32), 4,
      was.(version := Locked(was.version)));
  }

  lemma LengthShows(s: State, a: Act, c: L.Cells, w: nat)
    requires Made(s, c, w) && Enabled(s, a) && w > 0 && a.Produce? && s.producer.PLength? && s.producer.req.size < U32
    ensures Agrees(s, a, c, w)
  {
    var size := s.producer.req.size;
    FieldMade(s, Apply(s, a), c, Mirror(s, a, c, w), w, 4, size, 4, c.cells[Own(c)].(length := size));
  }

  lemma KindShows(s: State, a: Act, c: L.Cells, w: nat)
    requires Made(s, c, w) && Enabled(s, a) && w > 0 && a.Produce? && s.producer.PKind? && s.producer.req.kind < U32
    ensures Agrees(s, a, c, w)
  {
    var kind := s.producer.req.kind;
    FieldMade(s, Apply(s, a), c, Mirror(s, a, c, w), w, 8, kind, 4, c.cells[Own(c)].(kind := kind));
  }

  lemma TimeShows(s: State, a: Act, c: L.Cells, w: nat)
    requires Made(s, c, w) && Enabled(s, a) && w > 0 && a.Produce? && s.producer.PTime?
    ensures Agrees(s, a, c, w)
  {
    Pow256Eight();
    FieldMade(s, Apply(s, a), c, Mirror(s, a, c, w), w, 16, a.clock, 8, c.cells[Own(c)].(time := a.clock));
  }

  lemma Pow256Eight()
    ensures Pow256(8) == U32 * U32
  {
    assert Pow256(4) == U32;
    assert Pow256(8) == 256 * 256 * 256 * 256 * Pow256(4);
  }

  lemma ClaimShows(s: State, a: Act, c: L.Cells, w: nat)
    requires Made(s, c, w) && Enabled(s, a) && w > 0 && a.Produce? && s.producer.PClaim? && c.prod == c.sealed
    ensures Agrees(s, a, c, w)
  {
    OneMore(c.prod, w);
    LogsKept(s, c, Apply(s, a), Mirror(s, a, c, w), w);
  }

  lemma ByteShows(s: State, a: Act, c: L.Cells, w: nat)
    requires Made(s, c, w) && Enabled(s, a) && w > 0 && a.StoreByte? && s.producer.req.size <= c.width
    ensures Agrees(s, a, c, w)
  {
    ByteMoves(s, a, c, w);
    ByteParts(s, Apply(s, a), c, w, a.j, a.b);
  }

  /** The cells with one byte of the producer's frame stored. */
  function Byted(c: L.Cells, j: nat, b: Byte): L.Cells
    requires c.cells != [] && j < |c.cells[Own(c)].bytes|
  {
    c.(cells := c.cells[Own(c) := c.cells[Own(c)].(bytes := c.cells[Own(c)].bytes[j := b])])
  }

  lemma ByteMoves(s: State, a: Act, c: L.Cells, w: nat)
    requires WellSized(s) && WriterShows(s, c, w) && Enabled(s, a) && w > 0 && a.StoreByte?
    requires ShowsCells(s.ring, c, w) && s.producer.req.size <= c.width
    ensures a.j < c.width == |c.cells[Own(c)].bytes|
    ensures MoveOf(s, a, c, w) == Some(L.StoresByte(a.j, a.b)) && L.Can(c, L.StoresByte(a.j, a.b))
    ensures Mirror(s, a, c, w) == Byted(c, a.j, a.b)
    ensures WriterShows(Apply(s, a), Byted(c, a.j, a.b), w) && WellSized(Apply(s, a)) && Apply(s, a).frames == s.frames
    ensures !s.producer.PPublish? && !Apply(s, a).producer.PPublish?
    ensures Apply(s, a).ring == Put(s.ring, c.sealed * w + HEADER + a.j, [a.b])
  {
  }

  lemma ByteParts(s: State, s': State, c: L.Cells, w: nat, j: nat, b: Byte)
    requires Made(s, c, w) && j < c.width == |c.cells[Own(c)].bytes|
    requires s'.ring == Put(s.ring, c.sealed * w + HEADER + j, [b]) && s'.frames == s.frames
    requires !s.producer.PPublish? && !s'.producer.PPublish?
    ensures ShowsCells(s'.ring, Byted(c, j, b), w) && LogsShow(s', Byted(c, j, b), w)
  {
    StoresPayload(s.ring, c, w, c.sealed, j, b);
    LogsKept(s, c, s', Byted(c, j, b), w);
  }

  lemma CommitShows(s: State, a: Act, c: L.Cells, w: nat)
    requires Made(s, c, w) && Enabled(s, a) && w > 0 && a == Commit
    ensures Agrees(s, a, c, w)
  {
    LogsKept(s, c, Apply(s, a), c, w);
  }

  /** What the cell shows when Commit seals it is what the caller wrote. */
  lemma SealedIs(s: State, c: L.Cells, w: nat)
    requires Made(s, c, w) && S.Draft(s) && s.producer.PSeal? && s.producer.req.size <= c.width
    ensures var req := s.producer.req;
            L.Shown(c.cells[Own(c)]) == Message(req.kind, req.time, s.producer.draft)
  {
    ShowsAt(s.ring, c, w, c.sealed);
    var at, size := c.sealed * w, s.producer.req.size;
    var all, some := Get(s.ring, at + HEADER, c.width), Get(s.ring, at + HEADER, size);
    assert all[..size] == some;
  }

  lemma SealShows(s: State, a: Act, c: L.Cells, w: nat)
    requires Made(s, c, w) && Enabled(s, a) && w > 0 && a.Produce? && s.producer.PSeal?
    requires var req := s.producer.req;
             L.Shown(c.cells[Own(c)]) == Message(req.kind, req.time, s.producer.draft)
    ensures Agrees(s, a, c, w)
  {
    SealMoves(s, a, c, w);
    SealParts(s, Apply(s, a), c, w);
  }

  lemma SealParts(s: State, s': State, c: L.Cells, w: nat)
    requires Made(s, c, w) && s.producer.PSeal?
    requires var req := s.producer.req;
             L.Shown(c.cells[Own(c)]) == Message(req.kind, req.time, s.producer.draft)
    requires s'.frames == s.frames && s'.producer == PPublish(s.producer.req, s.producer.draft)
    requires var at := c.sealed * w; s'.ring == Put(s.ring, at, Encoded((VersionAt(s.ring, at) + 1) % U32, 4))
    ensures ShowsCells(s'.ring, L.SealStep(c), w) && LogsShow(s', L.SealStep(c), w)
  {
    SealStores(s.ring, c, w);
    SealLogs(s, s', c, w);
  }

  lemma SealMoves(s: State, a: Act, c: L.Cells, w: nat)
    requires WellSized(s) && WriterShows(s, c, w) && Enabled(s, a) && w > 0 && a.Produce? && s.producer.PSeal?
             && c.cells != []
    ensures MoveOf(s, a, c, w) == Some(L.Seals) && L.Can(c, L.Seals) && Mirror(s, a, c, w) == L.SealStep(c)
    ensures WriterShows(Apply(s, a), L.SealStep(c), w) && WellSized(Apply(s, a)) && Apply(s, a).frames == s.frames
    ensures Apply(s, a).producer == PPublish(s.producer.req, s.producer.draft)
    ensures var at := c.sealed * w; Apply(s, a).ring == Put(s.ring, at, Encoded((VersionAt(s.ring, at) + 1) % U32, 4))
  {
  }

  lemma SealStores(ring: Ring, c: L.Cells, w: nat)
    requires ShowsCells(ring, c, w)
    ensures var at := c.sealed * w;
            ShowsCells(Put(ring, at, Encoded((VersionAt(ring, at) + 1) % U32, 4)), L.SealStep(c), w)
  {
    ShowsAt(ring, c, w, c.sealed);
    var was := c.cells[Own(c)];
    LockedWraps(was.version);
    StoresField(ring, c, w, c.sealed, 0, (was.version % U32 + 1) % U32, 4, L.SealStep(c).cells[Own(c)]);
  }

  lemma SealLogs(s: State, s': State, c: L.Cells, w: nat)
    requires s.producer.PSeal? && LogsShow(s, c, w) && c.cells != []
    requires s'.frames == s.frames && s'.producer == PPublish(s.producer.req, s.producer.draft)
    requires var req := s.producer.req;
             L.Shown(c.cells[Own(c)]) == Message(req.kind, req.time, s.producer.draft)
    ensures LogsShow(s', L.SealStep(c), w)
  {
    var c' := L.SealStep(c);
    forall j | 0 <= j < |c'.cells| ensures LogShows(s', c'.cells[j].log, c'.sealed) {
      assert LogShows(s, c.cells[j].log, c.sealed);
    }
  }

  lemma PublishShows(s: State, a: Act, c: L.Cells, w: nat)
    requires Made(s, c, w) && Enabled(s, a) && w > 0 && a.Produce? && s.producer.PPublish? && c.prod == c.sealed
    ensures Agrees(s, a, c, w)
  {
    var s', c' := Apply(s, a), Mirror(s, a, c, w);
    OneMore(c.sealed - 1, w);
    PublishLogs(s, s', c, c', w);
  }

  lemma PublishLogs(s: State, s': State, c: L.Cells, c': L.Cells, w: nat)
    requires LogsShow(s, c, w) && s.producer.PPublish? && s'.producer == PIdle
             && s.producer.req.at == (c.sealed - 1) * w
    requires var req := s.producer.req;
             s'.frames == s.frames + [Frame(req.at, Message(req.kind, req.time, s.producer.draft))]
    requires c'.cells == c.cells && c'.sealed == c.sealed
    ensures LogsShow(s', c', w)
  {
    forall j | 0 <= j < |c'.cells| ensures LogShows(s', c'.cells[j].log, c'.sealed) {
      assert LogShows(s, c.cells[j].log, c.sealed);
    }
  }

  /** What the producer's invariants say about sizes and counters. */
  lemma ProducerFacts(s: State, c: L.Cells, w: nat)
    requires Made(s, c, w) && S.Layout(s) && L.CellsInv(c)
    ensures s.producer != PIdle ==>
            s.producer.req.size <= c.width && s.producer.req.size < U32 && s.producer.req.kind < U32
    ensures !c.writer.WFill? ==> c.prod == c.sealed
  {
    if s.producer != PIdle { AlignedHolds(s.producer.req.size); }
  }

  lemma ProducerShows(s: State, a: Act, c: L.Cells, w: nat)
    requires Made(s, c, w) && S.Layout(s) && S.Draft(s) && L.CellsInv(c)
    requires Enabled(s, a) && Uniform(s, a, w) && w > 0 && S.ProducerAct(a)
    ensures Agrees(s, a, c, w)
  {
    ProducerFacts(s, c, w);
    if a.Produce? { ProduceShows(s, a, c, w); }
    else if a.Reserve? { ReserveShows(s, a, c, w); }
    else if a.StoreByte? { ByteShows(s, a, c, w); }
    else { CommitShows(s, a, c, w); }
  }

  lemma ProduceShows(s: State, a: Act, c: L.Cells, w: nat)
    requires Made(s, c, w) && S.Draft(s) && Enabled(s, a) && w > 0 && a.Produce?
    requires s.producer.req.size <= c.width && s.producer.req.size < U32 && s.producer.req.kind < U32
    requires !c.writer.WFill? ==> c.prod == c.sealed
    ensures Agrees(s, a, c, w)
  {
    match s.producer
    case PScan(_, _, _, _) => ScanShows(s, a, c, w);
    case PVersion(_) => VersionShows(s, a, c, w);
    case PLength(_) => LengthShows(s, a, c, w);
    case PKind(_) => KindShows(s, a, c, w);
    case PTime(_) => TimeShows(s, a, c, w);
    case PClaim(_) => ClaimShows(s, a, c, w);
    case PSeal(_, _) =>
      SealedIs(s, c, w);
      SealShows(s, a, c, w);
    case PPublish(_, _) => PublishShows(s, a, c, w);
  }

  // ---------------------------------------------------------------- the readers

  lemma Scaled(a: int, b: int, w: nat)
    requires w > 0
    ensures a * w > b * w <==> a > b
  {
    assert (a - b) * w == a * w - b * w;
    if a > b { Positive(a - b, w); } else { Positive(b - a + 1, w); }
  }

  lemma Positive(d: int, w: int)
    requires d > 0 && w > 0
    ensures d * w >= w
  {
    BigMultiple(d, w);
  }

  /** The version that a copier loaded has not gone all the way around since. */
  ghost predicate NoWrap(c: L.Cells, t: nat) {
    t < |c.copiers| && c.cells != [] && c.copiers[t].pc.LAfter? ==>
      c.cells[L.Home(c, c.copiers[t].at)].version < c.copiers[t].pc.v + U32
  }

  /** The bytes of one cell, loaded one at a time. */
  lemma ByteLoaded(ring: Ring, at: nat, width: nat, i: nat)
    requires ring != [] && i < width
    ensures Get(ring, at + HEADER + i, 1) == [Get(ring, at + HEADER, width)[i]]
  {
    assert Get(ring, at + HEADER, width)[i] == ring[Spot(ring, at + HEADER + i)];
    assert Get(ring, at + HEADER + i, 1)[0] == ring[Spot(ring, at + HEADER + i + 0)];
  }

  /** The cell that a copier reads, in the bytes at the reader's cursor. */
  ghost predicate Facing(s: State, t: nat, c: L.Cells)
    requires s.ring != [] && c.cells != [] && t < |s.readers| && t < |c.copiers|
  {
    var r, p := s.readers[t], c.copiers[t];
    var cell := c.cells[L.Home(c, p.at)];
    && ShowsCell(s.ring, r.cursor, cell, c.width) && PcShows(r.pc, p.pc, c.width) && p.pc != L.LIdle
    && cell.length <= c.width && (L.Versioned(p.pc) ==> p.pc.v <= cell.version)
    && (p.pc.LAfter? ==> cell.version < p.pc.v + U32)
  }

  /** One step of PollCopy, past its first two tests. */
  lemma LoadShows(s: State, t: nat, c: L.Cells, w: nat)
    requires t < |s.readers| && t < |c.copiers| && Laid(s.ring, c, w) && |s.ring| == s.cap && Facing(s, t, c)
    requires Enabled(s, Read(t)) && !s.readers[t].pc.RCommit? && !s.readers[t].pc.RProducer?
    ensures PcShows(DoRead(s, t).readers[t].pc, L.NextPc(c, c.copiers[t]), c.width)
  {
    var r, p := s.readers[t], c.copiers[t];
    if r.pc.RBytes? || r.pc.RAfter? { CopyLoads(s, t, c); } else { FieldLoads(s, t, c, w); }
  }

  lemma FieldLoads(s: State, t: nat, c: L.Cells, w: nat)
    requires t < |s.readers| && t < |c.copiers| && Laid(s.ring, c, w) && |s.ring| == s.cap && Facing(s, t, c)
    requires Enabled(s, Read(t)) && !s.readers[t].pc.RCommit? && !s.readers[t].pc.RProducer?
    requires !s.readers[t].pc.RBytes? && !s.readers[t].pc.RAfter?
    ensures PcShows(DoRead(s, t).readers[t].pc, L.NextPc(c, c.copiers[t]), c.width)
  {
    LockedWraps(c.cells[L.Home(c, c.copiers[t].at)].version);
  }

  lemma CopyLoads(s: State, t: nat, c: L.Cells)
    requires s.ring != [] && c.cells != [] && t < |s.readers| && t < |c.copiers| && Facing(s, t, c)
    requires Enabled(s, Read(t)) && (s.readers[t].pc.RBytes? || s.readers[t].pc.RAfter?)
    ensures PcShows(DoRead(s, t).readers[t].pc, L.NextPc(c, c.copiers[t]), c.width)
  {
    var r, p := s.readers[t], c.copiers[t];
    match r.pc
    case RBytes(v, h, got) => if |got| < h.length { ByteLoaded(s.ring, r.cursor, c.width, |got|); }
    case RAfter(v, h, got) => SameResidue(p.pc.v, c.cells[L.Home(c, p.at)].version, U32);
  }

  lemma TestShows(s: State, t: nat, c: L.Cells, w: nat)
    requires t < |s.readers| && t < |c.copiers| && ShowsCells(s.ring, c, w) && |s.ring| == s.cap && w > 0
    requires s.prod == c.prod * w && s.commit == c.commit * w
    requires ReaderShows(s.readers[t], c.copiers[t], w, c.width) && c.copiers[t].pc != L.LIdle
    requires Enabled(s, Read(t)) && (s.readers[t].pc.RCommit? || s.readers[t].pc.RProducer?)
    ensures PcShows(DoRead(s, t).readers[t].pc, L.NextPc(c, c.copiers[t]), c.width)
  {
    var p := c.copiers[t];
    Scaled(c.commit, p.at, w);
    Scaled(c.prod - p.at, |c.cells|, w);
    assert (c.prod - p.at) * w == c.prod * w - p.at * w;
  }

  /** One step of a reader in PollCopy. */
  lemma CopyShows(s: State, t: nat, c: L.Cells, w: nat)
    requires Shows(s, c, w) && L.CellsInv(c) && Enabled(s, Read(t)) && w > 0 && NoWrap(c, t)
    ensures var m := ReadMove(c, t);
            && (m.Some? ==> L.Can(c, m.value))
            && ReaderShows(DoRead(s, t).readers[t], (if m.Some? then L.Step(c, m.value) else c).copiers[t], w, c.width)
  {
    assert ReaderShows(s.readers[t], c.copiers[t], w, c.width);
    var p := c.copiers[t];
    if p.pc != L.LIdle {
      assert L.CopierOk(c, p) && L.CellOk(c, L.Home(c, p.at));
      if s.readers[t].pc.RCommit? || s.readers[t].pc.RProducer? {
        TestShows(s, t, c, w);
      } else {
        ShowsAt(s.ring, c, w, p.at);
        LoadShows(s, t, c, w);
      }
    }
  }

  /** A reader's move changes its own copier and nothing else. */
  lemma CopierOnly(c: L.Cells, m: L.Move)
    requires L.Can(c, m) && (m.Polls? || m.Reads?)
    ensures var c' := L.Step(c, m);
            && c' == c.(copiers := c'.copiers) && |c'.copiers| == |c.copiers|
            && forall u :: 0 <= u < |c.copiers| && u != m.t ==> c'.copiers[u] == c.copiers[u]
  {
  }

  lemma ReaderMove(s: State, a: Act, c: L.Cells, w: nat)
    requires Enabled(s, a) && w > 0 && !S.ProducerAct(a) && c.cells != [] && |c.copiers| == |s.readers|
    requires a.Poll? && a.copy ==> c.copiers[a.t].pc == L.LIdle
    ensures MoveOf(s, a, c, w).Some? ==>
              && L.Can(c, MoveOf(s, a, c, w).value) && MoveOf(s, a, c, w).value.t == S.Actor(a)
              && (MoveOf(s, a, c, w).value.Polls? || MoveOf(s, a, c, w).value.Reads?)
    ensures var c' := Mirror(s, a, c, w);
            && c' == c.(copiers := c'.copiers) && |c'.copiers| == |c.copiers|
            && forall u :: 0 <= u < |c.copiers| && u != S.Actor(a) ==> c'.copiers[u] == c.copiers[u]
  {
    var m := MoveOf(s, a, c, w);
    if m.Some? { CopierOnly(c, m.value); }
  }

  /** The reader that acts is where its copier is. */
  lemma ActorShows(s: State, a: Act, c: L.Cells, w: nat)
    requires Shows(s, c, w) && L.CellsInv(c) && Enabled(s, a) && Uniform(s, a, w) && w > 0 && !S.ProducerAct(a)
    requires a.Read? ==> NoWrap(c, a.t)
    ensures var t, s', c' := S.Actor(a), Apply(s, a), Mirror(s, a, c, w);
            t < |s'.readers| && t < |c'.copiers| ==> ReaderShows(s'.readers[t], c'.copiers[t], w, c.width)
  {
    var t := S.Actor(a);
    assert t < |s.readers| ==> ReaderShows(s.readers[t], c.copiers[t], w, c.width);
    if a.Read? { CopyShows(s, t, c, w); } else { CallShows(s, a, c, w); }
  }

  lemma CallShows(s: State, a: Act, c: L.Cells, w: nat)
    requires Enabled(s, a) && Uniform(s, a, w) && w > 0 && !S.ProducerAct(a) && !a.Read? && c.cells != []
    requires a.t < |s.readers| && a.t < |c.copiers| && ReaderShows(s.readers[a.t], c.copiers[a.t], w, c.width)
    ensures var s', c' := Apply(s, a), Mirror(s, a, c, w);
            a.t < |s'.readers| && a.t < |c'.copiers| ==> ReaderShows(s'.readers[a.t], c'.copiers[a.t], w, c.width)
  {
    if a.Poll? && a.copy { DividesBack(s.readers[a.t].cursor, w); }
  }

  lemma ReaderActShows(s: State, a: Act, c: L.Cells, w: nat)
    requires Shows(s, c, w) && S.Layout(s) && L.CellsInv(c) && Enabled(s, a) && Uniform(s, a, w) && w > 0
             && !S.ProducerAct(a)
    requires a.Read? ==> NoWrap(c, a.t)
    ensures Agrees(s, a, c, w) && ReadersShow(Apply(s, a), Mirror(s, a, c, w), w)
  {
    S.ReadersLeave(s, a);
    PollsIdle(s, a, c, w);
    ReaderMove(s, a, c, w);
    ActorShows(s, a, c, w);
    ReadersApart(s, Apply(s, a), c, Mirror(s, a, c, w), w, S.Actor(a));
    SameMade(s, Apply(s, a), c, Mirror(s, a, c, w), w);
  }

  lemma PollsIdle(s: State, a: Act, c: L.Cells, w: nat)
    requires ReadersShow(s, c, w) && Enabled(s, a)
    ensures a.Poll? ==> a.t < |c.copiers| && c.copiers[a.t].pc == L.LIdle
  {
    if a.Poll? { assert ReaderShows(s.readers[a.t], c.copiers[a.t], w, c.width); }
  }

  lemma ReadersApart(s: State, s': State, c: L.Cells, c': L.Cells, w: nat, t: nat)
    requires ReadersShow(s, c, w) && |s'.readers| == |s.readers| && |c'.copiers| == |c.copiers| && c'.width == c.width
    requires forall u :: 0 <= u < |s.readers| && u != t ==>
             s'.readers[u] == s.readers[u] && c'.copiers[u] == c.copiers[u]
    requires t < |s'.readers| ==> ReaderShows(s'.readers[t], c'.copiers[t], w, c.width)
    ensures ReadersShow(s', c', w)
  {
    forall u | 0 <= u < |s'.readers| ensures ReaderShows(s'.readers[u], c'.copiers[u], w, c'.width) {
      if u != t { assert ReaderShows(s.readers[u], c.copiers[u], w, c.width); }
    }
  }

  /** Ring, frames, counters and cells are as they were. */
  lemma SameMade(s: State, s': State, c: L.Cells, c': L.Cells, w: nat)
    requires Made(s, c, w) && c' == c.(copiers := c'.copiers) && |s'.slots| == |s.slots| && s'.cap == s.cap
    requires s'.ring == s.ring && s'.frames == s.frames && s'.commit == s.commit && s'.prod == s.prod
             && s'.producer == s.producer
    ensures Made(s', c', w)
  {
    forall j | 0 <= j < |c'.cells| ensures LogShows(s', c'.cells[j].log, c'.sealed) {
      assert LogShows(s, c.cells[j].log, c.sealed);
    }
  }

  lemma DividesBack(a: nat, w: nat)
    requires w > 0 && a % w == 0
    ensures (a / w) * w == a
  {
  }

  /** The byte ring simulates the cells, step by step, whoever moves. */
  lemma StepShows(s: State, a: Act, c: L.Cells, w: nat)
    requires S.Inv(s) && Shows(s, c, w) && L.CellsInv(c) && Enabled(s, a) && Uniform(s, a, w) && w > 0
    requires a.Read? ==> NoWrap(c, a.t)
    ensures var m := MoveOf(s, a, c, w);
            && (m.Some? ==> L.Can(c, m.value)) && Mirror(s, a, c, w) == (if m.Some? then L.Step(c, m.value) else c)
            && L.CellsInv(Mirror(s, a, c, w)) && Shows(Apply(s, a), Mirror(s, a, c, w), w)
  {
    if S.ProducerAct(a) {
      ProducerShows(s, a, c, w);
      ReadersStay(s, a, c, w);
    } else {
      ReaderActShows(s, a, c, w);
    }
    if MoveOf(s, a, c, w).Some? { L.StepCells(c, MoveOf(s, a, c, w).value); }
  }

  lemma ReadersStay(s: State, a: Act, c: L.Cells, w: nat)
    requires ReadersShow(s, c, w) && Enabled(s, a) && S.ProducerAct(a) && w > 0
    ensures ReadersShow(Apply(s, a), Mirror(s, a, c, w), w)
  {
  }
}
