/**
 PollCopy (common/shared_memory/broadcast_ring_buffer.cc) without backpressure: readers that the producer may lap at
 any time, evicted ones included, when all frames have one total size that divides the capacity.  The ring is then
 an array of cells; cursors count frames, and versions are taken unbounded.
 */
module BroadcastLapped {
  import opened BroadcastFrame
  import opened BroadcastRing

  // `frame` is the number of a frame whose Commit has sealed it.
  datatype Entry = Entry(frame: nat, msg: Message)

  // `log` is history: what has been sealed in this cell.
  datatype Cell = Cell(version: nat, length: nat, kind: nat, time: nat, bytes: seq<Byte>, log: seq<Entry>)

  datatype Writer =
    | WIdle
    | WVersion(size: nat, kind: nat)
    | WLength(size: nat, kind: nat)
    | WKind(size: nat, kind: nat)
    | WTime(size: nat)
    | WClaim
    | WFill
    | WPublish

  datatype Pc =
    | LIdle
    | LCommit
    | LProducer
    | LVersion
    | LLength(v: nat)
    | LKind(v: nat, length: nat)
    | LTime(v: nat, length: nat, kind: nat)
    | LBytes(v: nat, h: Header, got: seq<Byte>)
    | LAfter(v: nat, h: Header, got: seq<Byte>)
    | LOk(msg: Message)
    | LFailed(status: Status)

  datatype Copier = Copier(at: nat, pc: Pc)

  // `sealed` counts the frames whose version store in Commit has happened.
  datatype Cells = Cells(width: nat, cells: seq<Cell>, prod: nat, commit: nat, sealed: nat, writer: Writer,
                         copiers: seq<Copier>)

  datatype Move =
    | Reserves(size: nat, kind: nat)
    | Writes(clock: nat)
    | StoresByte(j: nat, b: Byte)
    | Seals                                   // Commit
    | Polls(t: nat, at: nat)                  // PollCopy with the cursor at frame `at`
    | Reads(t: nat)

  function Start(width: nat, cells: nat, n: nat): Cells {
    Cells(width, seq(cells, _ => Cell(0, 0, 0, 0, seq(width, _ => 0), [])), 0, 0, 0, WIdle,
          seq(n, _ => Copier(0, LIdle)))
  }

  function Home(s: Cells, frame: nat): (j: nat)
    requires s.cells != []
    ensures j < |s.cells|
  {
    frame % |s.cells|
  }

  predicate Can(s: Cells, m: Move) {
    && s.cells != []
    && match m
       case Reserves(size, _) => s.writer == WIdle && size <= s.width
       case Writes(_) => s.writer != WIdle && s.writer != WFill
       case StoresByte(j, _) => s.writer == WFill && j < |s.cells[Home(s, s.sealed)].bytes|
       case Seals => s.writer == WFill
       case Polls(t, _) => t < |s.copiers| && s.copiers[t].pc == LIdle
       case Reads(t) => t < |s.copiers| && s.copiers[t].pc != LIdle
  }

  /** The contents of a cell, read as a message. */
  function Shown(c: Cell): Message {
    Message(c.kind, c.time, if c.length <= |c.bytes| then c.bytes[..c.length] else [])
  }

  function SetCell(s: Cells, c: Cell): Cells
    requires s.cells != []
  {
    s.(cells := s.cells[Home(s, s.sealed) := c])
  }

  function WriteStep(s: Cells, clock: nat): Cells
    requires s.cells != []
  {
    var c := s.cells[Home(s, s.sealed)];
    match s.writer
    case WVersion(size, kind) => SetCell(s, c.(version := Locked(c.version))).(writer := WLength(size, kind))
    case WLength(size, kind) => SetCell(s, c.(length := size)).(writer := WKind(size, kind))
    case WKind(size, kind) => SetCell(s, c.(kind := kind)).(writer := WTime(size))
    case WTime(_) => SetCell(s, c.(time := clock)).(writer := WClaim)
    case WClaim => s.(prod := s.prod + 1, writer := WFill)
    case WPublish => s.(commit := s.prod, writer := WIdle)
    case _ => s
  }

  function SealStep(s: Cells): Cells
    requires s.cells != []
  {
    var c := s.cells[Home(s, s.sealed)];
    SetCell(s, c.(version := c.version + 1, log := c.log + [Entry(s.sealed, Shown(c))]))
      .(sealed := s.sealed + 1, writer := WPublish)
  }

  function Goes(s: Cells, t: nat, pc: Pc): Cells
    requires t < |s.copiers|
  {
    s.(copiers := s.copiers[t := s.copiers[t].(pc := pc)])
  }

  function NextPc(s: Cells, r: Copier): Pc
    requires s.cells != []
  {
    var c := s.cells[Home(s, r.at)];
    match r.pc
    case LCommit => if r.at >= s.commit then LFailed(NotFound) else LProducer
    case LProducer => if s.prod - r.at > |s.cells| then LFailed(Lapped) else LVersion
    case LVersion => if c.version % 2 == 1 then LProducer else LLength(c.version)
    case LLength(v) => if c.length > |s.cells| * (HEADER + s.width) then LFailed(DataLoss) else LKind(v, c.length)
    case LKind(v, length) => LTime(v, length, c.kind)
    case LTime(v, length, kind) => LBytes(v, Header(length, kind, c.time), [])
    case LBytes(v, h, got) =>
      if |got| < h.length then LBytes(v, h, got + [if |got| < |c.bytes| then c.bytes[|got|] else 0])
      else LAfter(v, h, got)
    case LAfter(v, h, got) => if c.version == v then LOk(Message(h.kind, h.time, got)) else LProducer
    case _ => LIdle
  }

  function Step(s: Cells, m: Move): Cells
    requires Can(s, m)
  {
    match m
    case Reserves(size, kind) => s.(writer := WVersion(size, kind))
    case Writes(clock) => WriteStep(s, clock)
    case StoresByte(j, b) =>
      var c := s.cells[Home(s, s.sealed)];
      SetCell(s, c.(bytes := c.bytes[j := b]))
    case Seals => SealStep(s)
    case Polls(t, at) => s.(copiers := s.copiers[t := Copier(at, LCommit)])
    case Reads(t) => Goes(s, t, NextPc(s, s.copiers[t]))
  }

  // ---------------------------------------------------------------- invariant

  /** The producer has made the version of its cell odd and not yet even again. */
  predicate Open(w: Writer) { w.WLength? || w.WKind? || w.WTime? || w.WClaim? || w.WFill? }

  ghost predicate CellOk(s: Cells, j: nat)
    requires s.cells != [] && j < |s.cells|
  {
    var c := s.cells[j];
    && |c.bytes| == s.width && c.length <= s.width
    && c.version == 2 * |c.log| + (if Open(s.writer) && j == Home(s, s.sealed) then 1 else 0)
    && (c.log != [] ==> Home(s, c.log[|c.log| - 1].frame) == j)
    && (c.log != [] && c.version % 2 == 0 ==> Shown(c) == c.log[|c.log| - 1].msg && |Shown(c).payload| == c.length)
  }

  /** Every sealed frame was sealed in its cell, where only later ones may have followed. */
  ghost predicate SealedIn(s: Cells, k: nat)
    requires s.cells != []
  {
    var log := s.cells[Home(s, k)].log;
    log != [] && log[|log| - 1].frame >= k
  }

  ghost predicate Sized(w: Writer, width: nat) {
    match w
    case WVersion(size, _) => size <= width
    case WLength(size, _) => size <= width
    case _ => true
  }

  /** While the version is still v, what has been loaded is from the newest entry of the cell. */
  ghost predicate Matches(pc: Pc, c: Cell) {
    c.log != [] &&
    var msg := c.log[|c.log| - 1].msg;
    var h := Header(|msg.payload|, msg.kind, msg.time);
    match pc
    case LKind(_, length) => length == h.length
    case LTime(_, length, kind) => length == h.length && kind == h.kind
    case LBytes(_, g, got) => g == h && |got| <= h.length && got == msg.payload[..|got|]
    case LAfter(_, g, got) => g == h && got == msg.payload
    case _ => true
  }

  predicate Versioned(pc: Pc) { pc.LLength? || pc.LKind? || pc.LTime? || pc.LBytes? || pc.LAfter? }

  ghost predicate CopierOk(s: Cells, r: Copier)
    requires s.cells != []
  {
    && (r.pc.LProducer? || r.pc.LVersion? || Versioned(r.pc) || r.pc.LOk? ==> r.at < s.sealed)
    && (Versioned(r.pc) ==>
          var c := s.cells[Home(s, r.at)];
          r.pc.v % 2 == 0 && r.pc.v <= c.version && (r.pc.v == c.version ==> Matches(r.pc, c)))
  }

  ghost predicate CellsInv(s: Cells) {
    && s.cells != [] && s.commit <= s.sealed && Sized(s.writer, s.width)
    && (if s.writer == WFill then s.prod == s.sealed + 1 else s.prod == s.sealed)
    && (forall j :: 0 <= j < |s.cells| ==> CellOk(s, j))
    && (forall k :: 0 <= k < s.sealed ==> SealedIn(s, k))
    && (forall t :: 0 <= t < |s.copiers| ==> CopierOk(s, s.copiers[t]))
  }

  lemma CellsKept(s: Cells, m: Move, j: nat)
    requires s.cells != [] && j < |s.cells| && CellOk(s, j) && Can(s, m) && Sized(s.writer, s.width)
    ensures |Step(s, m).cells| == |s.cells| && CellOk(Step(s, m), j)
  {
    if m.Writes? { CellWritten(s, m.clock, j); }
    else if m.Seals? { CellSealed(s, j); }
  }

  lemma CellWritten(s: Cells, clock: nat, j: nat)
    requires s.cells != [] && j < |s.cells| && CellOk(s, j) && Sized(s.writer, s.width)
    requires s.writer != WIdle && s.writer != WFill
    ensures |WriteStep(s, clock).cells| == |s.cells| && CellOk(WriteStep(s, clock), j)
  {
  }

  lemma CellSealed(s: Cells, j: nat)
    requires s.cells != [] && j < |s.cells| && CellOk(s, j) && s.writer == WFill
    ensures |SealStep(s).cells| == |s.cells| && CellOk(SealStep(s), j)
  {
  }

  /** The version of a cell never falls, and while it stays even the cell does not change. */
  lemma EvenStable(s: Cells, m: Move, j: nat)
    requires s.cells != [] && Can(s, m) && j < |s.cells| && CellOk(s, j)
    ensures |Step(s, m).cells| == |s.cells| && s.cells[j].version <= Step(s, m).cells[j].version
    ensures s.cells[j].version % 2 == 0 && Step(s, m).cells[j].version == s.cells[j].version
            ==> Step(s, m).cells[j] == s.cells[j]
  {
  }

  lemma CopierReads(s: Cells, r: Copier)
    requires CellsInv(s) && CopierOk(s, r)
    ensures CopierOk(s, r.(pc := NextPc(s, r)))
  {
    var c := s.cells[Home(s, r.at)];
    assert CellOk(s, Home(s, r.at));
    if r.pc.LVersion? { assert SealedIn(s, r.at); }
    if r.pc.LBytes? && r.pc.v == c.version && |r.pc.got| < r.pc.h.length {
      var msg := c.log[|c.log| - 1].msg;
      assert msg.payload == c.bytes[..c.length];
      assert msg.payload[..|r.pc.got| + 1] == msg.payload[..|r.pc.got|] + [msg.payload[|r.pc.got|]];
    }
  }

  lemma StepCells(s: Cells, m: Move)
    requires CellsInv(s) && Can(s, m)
    ensures CellsInv(Step(s, m))
  {
    var s' := Step(s, m);
    assert CellOk(s, Home(s, s.sealed));
    assert s'.cells != [];
    forall j | 0 <= j < |s'.cells| ensures CellOk(s', j) { CellsKept(s, m, j); }
    forall k | 0 <= k < s'.sealed ensures SealedIn(s', k) {
      assert k < s.sealed ==> SealedIn(s, k);
    }
    forall t | 0 <= t < |s'.copiers| ensures CopierOk(s', s'.copiers[t]) {
      if m.Reads? && m.t == t { CopierReads(s, s.copiers[t]); }
      else if !m.Polls? || m.t != t { OtherCopier(s, m, s.copiers[t]); }
    }
  }

  lemma OtherCopier(s: Cells, m: Move, r: Copier)
    requires s.cells != [] && Can(s, m) && CopierOk(s, r) && (forall j :: 0 <= j < |s.cells| ==> CellOk(s, j))
    ensures |Step(s, m).cells| == |s.cells| && CopierOk(Step(s, m), r)
  {
    assert CellOk(s, Home(s, r.at));
    EvenStable(s, m, Home(s, r.at));
  }

  // ---------------------------------------------------------------- runs

  datatype Trace = Trace(states: seq<Cells>, moves: seq<Move>)

  ghost predicate Traces(r: Trace) {
    && |r.states| == |r.moves| + 1
    && (exists width: nat, cells: nat, n: nat :: cells > 0 && r.states[0] == Start(width, cells, n))
    && forall i :: 0 <= i < |r.moves| ==> StepsAt(r, i)
  }

  ghost predicate StepsAt(r: Trace, i: nat)
    requires i < |r.moves| && |r.states| == |r.moves| + 1
  {
    Can(r.states[i], r.moves[i]) && r.states[i + 1] == Step(r.states[i], r.moves[i])
  }

  lemma {:induction false} TraceInv(r: Trace, i: nat)
    requires Traces(r) && i < |r.states|
    ensures CellsInv(r.states[i])
  {
    if i == 0 {
      var width: nat, cells: nat, n: nat :| cells > 0 && r.states[0] == Start(width, cells, n);
    } else {
      TraceInv(r, i - 1);
      assert StepsAt(r, i - 1);
      StepCells(r.states[i - 1], r.moves[i - 1]);
    }
  }

  /** The step that returns OK returns the newest entry of its cell. */
  lemma OkIsNewest(s: Cells, r: Copier)
    requires CellsInv(s) && CopierOk(s, r) && NextPc(s, r).LOk?
    ensures var log := s.cells[Home(s, r.at)].log;
            && log != [] && NextPc(s, r).msg == log[|log| - 1].msg
            && log[|log| - 1].frame >= r.at && Home(s, log[|log| - 1].frame) == Home(s, r.at)
  {
    assert CellOk(s, Home(s, r.at)) && SealedIn(s, r.at);
  }

  /** A PollCopy that returns OK, however often the producer has lapped the reader, returns exactly one sealed
      message: that of the frame it asked for, or of a later frame in the same place. */
  lemma CopiesOneMessage(r: Trace, i: nat, t: nat)
    requires Traces(r) && i < |r.moves| && r.moves[i] == Reads(t) && t < |r.states[i + 1].copiers|
    requires r.states[i + 1].copiers[t].pc.LOk?
    ensures var s, at := r.states[i], r.states[i + 1].copiers[t].at;
            && s.cells != []
            && var log := s.cells[Home(s, at)].log;
               && log != [] && r.states[i + 1].copiers[t].pc.msg == log[|log| - 1].msg
               && log[|log| - 1].frame >= at && Home(s, log[|log| - 1].frame) == Home(s, at)
  {
    TraceInv(r, i);
    assert StepsAt(r, i);
    var s := r.states[i];
    assert CopierOk(s, s.copiers[t]);
    OkIsNewest(s, s.copiers[t]);
  }
}
