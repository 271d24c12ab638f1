/** What the byte ring gives readers that nothing protects, when all frames have one size. */
module BroadcastLappedRuns {
  import opened Prelude
  import opened BroadcastFrame
  import opened BroadcastRing
  import opened BroadcastTheorems
  import opened BroadcastUniform
  import L = BroadcastLapped

  /** A run over a ring of zeros, with frames of `w` bytes only, which fill the ring, and polls at their starts. */
  ghost predicate UniformRun(r: Run, w: nat) {
    && Runs(r) && w >= HEADER && |r.states[0].ring| % w == 0 && r.states[0].ring == Zeros(|r.states[0].ring|)
    && forall i :: 0 <= i < |r.acts| ==> Uniform(r.states[i], r.acts[i], w)
  }

  function Zeros(n: nat): Ring { seq(n, _ => 0) }

  function FirstCells(r: Run, w: nat): L.Cells
    requires |r.states| > 0 && w >= HEADER
  {
    L.Start(w - HEADER, |r.states[0].ring| / w, |r.states[0].readers|)
  }

  /** `cs[i]` are the cells after the first `i` events. */
  ghost predicate Mirrored(r: Run, w: nat, cs: seq<L.Cells>) {
    && UniformRun(r, w) && |cs| == |r.states| && cs[0] == FirstCells(r, w)
    && forall i :: 0 <= i < |r.acts| ==> MirrorAt(r, w, cs, i)
  }

  ghost predicate MirrorAt(r: Run, w: nat, cs: seq<L.Cells>, i: nat)
    requires |cs| == |r.states| == |r.acts| + 1 && i < |r.acts|
  {
    Enabled(r.states[i], r.acts[i]) && w > 0 && cs[i + 1] == Mirror(r.states[i], r.acts[i], cs[i], w)
  }

  lemma {:induction false} MirrorTo(r: Run, w: nat, n: nat) returns (cs: seq<L.Cells>)
    requires UniformRun(r, w) && n < |r.states|
    ensures |cs| == n + 1 && cs[0] == FirstCells(r, w)
    ensures forall i :: 0 <= i < n ==>
      Enabled(r.states[i], r.acts[i]) && cs[i + 1] == Mirror(r.states[i], r.acts[i], cs[i], w)
  {
    if n == 0 {
      cs := [FirstCells(r, w)];
    } else {
      cs := MirrorTo(r, w, n - 1);
      assert Steps(r, n - 1);
      cs := cs + [Mirror(r.states[n - 1], r.acts[n - 1], cs[n - 1], w)];
    }
  }

  lemma Mirroring(r: Run, w: nat) returns (cs: seq<L.Cells>)
    requires UniformRun(r, w)
    ensures Mirrored(r, w, cs)
  {
    cs := MirrorTo(r, w, |r.acts|);
    forall i | 0 <= i < |r.acts| ensures MirrorAt(r, w, cs, i) {}
  }

  // ---------------------------------------------------------------- how long a call may take

  predicate Copying(s: State, t: nat) {
    && t < |s.readers|
    && match s.readers[t].pc
       case RLength(copy, _) => copy
       case RKind(copy, _, _) => copy
       case RTime(copy, _, _, _) => copy
       case RBytes(_, _, _) => true
       case RAfter(_, _, _) => true
       case _ => false
  }

  /** In event `m` reader `t` loads a version, and up to state `i` it has not compared it yet. */
  ghost predicate Attempt(r: Run, m: nat, i: nat, t: nat) {
    && m < i < |r.states| && m < |r.acts| && r.acts[m] == Read(t) && t < |r.states[m].readers|
    && r.states[m].readers[t].pc.RVersion?
    && forall l :: m < l <= i ==> Copying(r.states[l], t)
  }

  const HALF: nat := 0x7FFF_FFFF

  /** No attempt sees so many frames committed that a 32-bit version could come around. */
  ghost predicate Quick(r: Run) {
    forall m: nat, i: nat, t: nat :: Attempt(r, m, i, t) ==> |r.states[i].frames| < |r.states[m].frames| + HALF
  }

  // ---------------------------------------------------------------- the simulation along a run

  /** In `c`, copier `t` holds the version that its cell had in `was`. */
  ghost predicate Holds(was: L.Cells, c: L.Cells, t: nat) {
    && t < |c.copiers| && L.Versioned(c.copiers[t].pc) && was.cells != [] && |was.cells| == |c.cells|
    && c.copiers[t].pc.v == was.cells[L.Home(was, c.copiers[t].at)].version
  }

  ghost predicate HeldFrom(r: Run, cs: seq<L.Cells>, m: nat, i: nat, t: nat) {
    Attempt(r, m, i, t) && i < |cs| && Holds(cs[m], cs[i], t)
  }

  /** Every version a copier holds was loaded in an attempt still under way. */
  ghost predicate AllHeld(r: Run, cs: seq<L.Cells>, i: nat) {
    forall t: nat :: Held(r, cs, i, t)
  }

  ghost predicate Held(r: Run, cs: seq<L.Cells>, i: nat, t: nat) {
    i < |cs| && t < |cs[i].copiers| && L.Versioned(cs[i].copiers[t].pc) ==> exists m: nat :: HeldFrom(r, cs, m, i, t)
  }

  ghost predicate Follows(r: Run, w: nat, cs: seq<L.Cells>, i: nat) {
    i < |r.states| && i < |cs| && Shows(r.states[i], cs[i], w) && L.CellsInv(cs[i])
  }

  ghost predicate AllFollow(r: Run, w: nat, cs: seq<L.Cells>, i: nat) {
    forall l :: 0 <= l <= i ==> Follows(r, w, cs, l)
  }

  /** From cells `c` to cells `d` the log of cell `j` has grown by no more than the number of frames sealed. */
  ghost predicate GrownBy(c: L.Cells, d: L.Cells, j: nat) {
    |d.cells| == |c.cells| && j < |c.cells| && |d.cells[j].log| - |c.cells[j].log| <= d.sealed - c.sealed
  }

  lemma LogGrowth(c: L.Cells, m: L.Move, j: nat)
    requires L.Can(c, m) && j < |c.cells|
    ensures GrownBy(c, L.Step(c, m), j)
  {
  }

  lemma MirrorGrowth(s: State, a: Act, c: L.Cells, w: nat, j: nat)
    requires Enabled(s, a) && w > 0 && j < |c.cells|
    ensures GrownBy(c, Mirror(s, a, c, w), j)
  {
    var m := MoveOf(s, a, c, w);
    if m.Some? && L.Can(c, m.value) { LogGrowth(c, m.value, j); }
  }

  lemma {:induction false} Grown(r: Run, w: nat, cs: seq<L.Cells>, m: nat, i: nat, j: nat)
    requires Mirrored(r, w, cs) && m <= i < |cs| && j < |cs[m].cells|
    ensures GrownBy(cs[m], cs[i], j)
    decreases i - m
  {
    if m < i {
      Grown(r, w, cs, m, i - 1, j);
      assert MirrorAt(r, w, cs, i - 1);
      MirrorGrowth(r.states[i - 1], r.acts[i - 1], cs[i - 1], w, j);
    }
  }

  lemma SealedCount(s: State, c: L.Cells, w: nat)
    requires Shows(s, c, w)
    ensures |s.frames| <= c.sealed <= |s.frames| + 1
  {
  }

  lemma VersionGrowth(c: L.Cells, d: L.Cells, j: nat)
    requires c.cells != [] && GrownBy(c, d, j) && L.CellsInv(c) && L.CellsInv(d)
    ensures d.cells[j].version <= c.cells[j].version + 2 * (d.sealed - c.sealed) + 1
  {
    assert L.CellOk(c, j) && L.CellOk(d, j);
  }

  /** Versions count what was sealed, so a held version has not been lapped by 2^32. */
  lemma HeldFits(r: Run, w: nat, cs: seq<L.Cells>, i: nat, t: nat)
    requires Mirrored(r, w, cs) && Quick(r) && AllFollow(r, w, cs, i) && Held(r, cs, i, t)
    ensures i < |cs| && NoWrap(cs[i], t)
  {
    assert Follows(r, w, cs, i);
    var c := cs[i];
    if t < |c.copiers| && c.copiers[t].pc.LAfter? {
      var m: nat :| HeldFrom(r, cs, m, i, t);
      assert Follows(r, w, cs, m);
      var j := L.Home(c, c.copiers[t].at);
      Grown(r, w, cs, m, i, j);
      SealedCount(r.states[m], cs[m], w);
      SealedCount(r.states[i], c, w);
      VersionGrowth(cs[m], c, j);
    }
  }

  /** Where a copier's version comes from: it had it, or loads it in this step. */
  ghost predicate Sourced(s: State, a: Act, c: L.Cells, c': L.Cells, t: nat) {
    && t < |c.copiers| && t < |c'.copiers| && |c'.cells| == |c.cells| && c.cells != []
    && L.Versioned(c'.copiers[t].pc) && c'.copiers[t].at == c.copiers[t].at
    && (|| (L.Versioned(c.copiers[t].pc) && c'.copiers[t].pc.v == c.copiers[t].pc.v)
        || (a == Read(t) && t < |s.readers| && s.readers[t].pc.RVersion? && Holds(c, c', t)))
  }

  lemma VersionFrom(c: L.Cells, m: L.Move, t: nat)
    requires L.Can(c, m) && t < |c.copiers|
    ensures |L.Step(c, m).copiers| == |c.copiers| && |L.Step(c, m).cells| == |c.cells|
    ensures var p, p' := c.copiers[t], L.Step(c, m).copiers[t];
            L.Versioned(p'.pc) ==>
              && p'.at == p.at
              && (|| (L.Versioned(p.pc) && p'.pc.v == p.pc.v)
                  || (m == L.Reads(t) && p.pc == L.LVersion && p'.pc.v == c.cells[L.Home(c, p.at)].version))
  {
  }

  lemma CopierCount(c: L.Cells, m: L.Move)
    requires L.Can(c, m)
    ensures |L.Step(c, m).copiers| == |c.copiers|
  {
  }

  /** A copier that holds a version belongs to a reader that is copying. */
  lemma VersionedCopies(s: State, c: L.Cells, w: nat, t: nat)
    requires Shows(s, c, w) && t < |c.copiers|
    ensures L.Versioned(c.copiers[t].pc) ==> Copying(s, t)
    ensures c.copiers[t].pc == L.LVersion ==> t < |s.readers| && s.readers[t].pc.RVersion?
  {
    assert ReaderShows(s.readers[t], c.copiers[t], w, c.width);
  }

  lemma LoadEvent(s: State, a: Act, c: L.Cells, w: nat, t: nat)
    requires Enabled(s, a) && w > 0 && MoveOf(s, a, c, w) == Some(L.Reads(t)) && t < |s.readers|
             && s.readers[t].pc.RVersion?
    ensures a == Read(t)
  {
  }

  lemma VersionSource(s: State, a: Act, c: L.Cells, w: nat, t: nat)
    requires Enabled(s, a) && w > 0 && c.cells != [] && Shows(s, c, w)
    requires t < |Mirror(s, a, c, w).copiers| && L.Versioned(Mirror(s, a, c, w).copiers[t].pc)
    ensures Sourced(s, a, c, Mirror(s, a, c, w), t)
  {
    var m := MoveOf(s, a, c, w);
    if m.Some? && L.Can(c, m.value) {
      CopierCount(c, m.value);
      VersionFrom(c, m.value, t);
      if m.value == L.Reads(t) && c.copiers[t].pc == L.LVersion {
        VersionedCopies(s, c, w, t);
        LoadEvent(s, a, c, w, t);
      }
    }
  }

  lemma AttemptOn(r: Run, m: nat, i: nat, t: nat)
    requires Attempt(r, m, i, t) && i + 1 < |r.states| && Copying(r.states[i + 1], t)
    ensures Attempt(r, m, i + 1, t)
  {
  }

  lemma HeldFromSource(r: Run, cs: seq<L.Cells>, i: nat, t: nat)
    requires i < |r.acts| && |r.states| == |cs| == |r.acts| + 1 && Held(r, cs, i, t)
    requires Sourced(r.states[i], r.acts[i], cs[i], cs[i + 1], t) && Copying(r.states[i + 1], t)
    ensures Held(r, cs, i + 1, t)
  {
    if L.Versioned(cs[i].copiers[t].pc) && cs[i + 1].copiers[t].pc.v == cs[i].copiers[t].pc.v {
      var m: nat :| HeldFrom(r, cs, m, i, t);
      AttemptOn(r, m, i, t);
      assert HeldFrom(r, cs, m, i + 1, t);
    } else {
      assert Attempt(r, i, i + 1, t);
      assert HeldFrom(r, cs, i, i + 1, t);
    }
  }

  lemma HeldOn(r: Run, w: nat, cs: seq<L.Cells>, i: nat, t: nat)
    requires Mirrored(r, w, cs) && i < |r.acts| && Follows(r, w, cs, i) && Follows(r, w, cs, i + 1) && Held(r, cs, i, t)
    ensures Held(r, cs, i + 1, t)
  {
    assert MirrorAt(r, w, cs, i);
    if t < |cs[i + 1].copiers| && L.Versioned(cs[i + 1].copiers[t].pc) {
      VersionSource(r.states[i], r.acts[i], cs[i], w, t);
      VersionedCopies(r.states[i + 1], cs[i + 1], w, t);
      HeldFromSource(r, cs, i, t);
    }
  }

  lemma {:induction false} RunFollows(r: Run, w: nat, cs: seq<L.Cells>, i: nat)
    requires Mirrored(r, w, cs) && Quick(r) && i < |r.states|
    ensures AllFollow(r, w, cs, i) && AllHeld(r, cs, i)
  {
    if i == 0 {
      FirstFollows(r, w, cs);
    } else {
      RunFollows(r, w, cs, i - 1);
      NextFollows(r, w, cs, i - 1);
      NextHeld(r, w, cs, i - 1);
    }
  }

  lemma NextHeld(r: Run, w: nat, cs: seq<L.Cells>, i: nat)
    requires Mirrored(r, w, cs) && i < |r.acts| && AllFollow(r, w, cs, i + 1) && AllHeld(r, cs, i)
    ensures AllHeld(r, cs, i + 1)
  {
    assert Follows(r, w, cs, i) && Follows(r, w, cs, i + 1);
    var n := i + 1;
    forall t: nat ensures Held(r, cs, n, t) {
      assert Held(r, cs, i, t);
      HeldOn(r, w, cs, i, t);
    }
  }

  lemma NextFollows(r: Run, w: nat, cs: seq<L.Cells>, i: nat)
    requires Mirrored(r, w, cs) && Quick(r) && i < |r.acts| && AllFollow(r, w, cs, i) && AllHeld(r, cs, i)
    ensures AllFollow(r, w, cs, i + 1)
  {
    RunInv(r, i);
    assert Steps(r, i) && MirrorAt(r, w, cs, i) && Follows(r, w, cs, i);
    if r.acts[i].Read? {
      assert Held(r, cs, i, r.acts[i].t);
      HeldFits(r, w, cs, i, r.acts[i].t);
    }
    StepShows(r.states[i], r.acts[i], cs[i], w);
    assert Follows(r, w, cs, i + 1);
  }

  lemma {:induction false} ZerosDecode(n: nat)
    ensures Decoded(Zeros(n)) == 0
  {
    if n > 0 {
      assert Zeros(n)[1..] == Zeros(n - 1);
      ZerosDecode(n - 1);
    }
  }

  lemma ZerosGet(ring: Ring, at: nat, n: nat)
    requires ring != [] && ring == Zeros(|ring|)
    ensures Get(ring, at, n) == Zeros(n)
  {
    var bs := Get(ring, at, n);
    forall i | 0 <= i < n ensures bs[i] == 0 { assert bs[i] == ring[Spot(ring, at + i)]; }
  }

  lemma FirstFollows(r: Run, w: nat, cs: seq<L.Cells>)
    requires Mirrored(r, w, cs)
    ensures AllFollow(r, w, cs, 0) && AllHeld(r, cs, 0)
  {
    var ring: Ring, n: nat :| ring != [] && r.states[0] == Init(ring, n);
    FirstLaid(ring, w);
    FirstShows(ring, n, L.Start(w - HEADER, |ring| / w, n), w);
    FirstInv(w - HEADER, |ring| / w, n);
  }

  lemma FirstShows(ring: Ring, n: nat, c: L.Cells, w: nat)
    requires w >= HEADER && ring != [] && ring == Zeros(|ring|) && |ring| == (|ring| / w) * w && |ring| / w > 0
    requires c == L.Start(w - HEADER, |ring| / w, n)
    ensures Shows(Init(ring, n), c, w)
  {
    forall j | 0 <= j < |c.cells|
      ensures ShowsCell(ring, j * w, c.cells[j], c.width)
    {
      FirstCell(ring, j * w, c.width);
    }
  }

  lemma FirstInv(width: nat, cells: nat, n: nat)
    requires cells > 0
    ensures L.CellsInv(L.Start(width, cells, n))
  {
  }

  lemma FirstLaid(ring: Ring, w: nat)
    requires ring != [] && w > 0 && |ring| % w == 0
    ensures |ring| == (|ring| / w) * w && |ring| / w > 0
  {
  }

  lemma FirstCell(ring: Ring, at: nat, width: nat)
    requires ring != [] && ring == Zeros(|ring|)
    ensures ShowsCell(ring, at, L.Cell(0, 0, 0, 0, Zeros(width), []), width)
  {
    ZerosGet(ring, at, 4);
    ZerosGet(ring, at + 4, 4);
    ZerosGet(ring, at + 8, 4);
    ZerosGet(ring, at + 16, 8);
    ZerosGet(ring, at + HEADER, width);
    ZerosDecode(4);
    ZerosDecode(8);
  }

  // ---------------------------------------------------------------- the theorem

  /** `msg` is what a sealed frame says that lies where the frame at `cursor` lies, in the same lap or a later one. */
  ghost predicate OneSealed(s: State, cursor: nat, msg: Message)
    requires s.ring != []
  {
    || (exists k :: 0 <= k < |s.frames| && SamePlace(s.ring, s.frames[k].at, cursor) && s.frames[k].msg == msg)
    || (s.producer.PPublish? && SamePlace(s.ring, s.producer.req.at, cursor)
        && msg == Message(s.producer.req.kind, s.producer.req.time, s.producer.draft))
  }

  ghost predicate SamePlace(ring: Ring, at: nat, cursor: nat)
    requires ring != []
  {
    at >= cursor && Spot(ring, at) == Spot(ring, cursor)
  }

  lemma FrameSpot(ring: Ring, c: L.Cells, w: nat, f: nat)
    requires Laid(ring, c, w)
    ensures Spot(ring, f * w) == Spot(ring, L.Home(c, f) * w)
  {
    FrameHome(f, |c.cells|, w);
    SpotShift(ring, L.Home(c, f) * w, f * w, f / |c.cells|);
  }

  lemma SameSpot(ring: Ring, c: L.Cells, w: nat, f: nat, g: nat)
    requires Laid(ring, c, w) && L.Home(c, f) == L.Home(c, g) && f >= g
    ensures SamePlace(ring, f * w, g * w)
  {
    FrameSpot(ring, c, w, f);
    FrameSpot(ring, c, w, g);
    NotBelow(f, g, w);
  }

  /**
   A PollCopy of any reader, protected or not, evicted or not, that returns OK has copied exactly one sealed message:
   that of the frame at its cursor or of a frame that has since taken its place, however often the producer lapped it.
   */
  lemma CopiesOneFrame(r: Run, w: nat, i: nat, t: nat)
    requires UniformRun(r, w) && Quick(r) && i < |r.acts| && r.acts[i] == Read(t) && t < |r.states[i + 1].readers|
    requires var pc := r.states[i + 1].readers[t].pc; pc.RHas? && pc.copy
    ensures r.states[i].ring != []
    ensures var rd := r.states[i + 1].readers[t];
            OneSealed(r.states[i], rd.cursor, Message(rd.pc.h.kind, rd.pc.h.time, rd.pc.got))
  {
    var cs := Mirroring(r, w);
    RunFollows(r, w, cs, i + 1);
    assert Steps(r, i) && MirrorAt(r, w, cs, i) && Follows(r, w, cs, i) && Follows(r, w, cs, i + 1);
    CopiedAt(r.states[i], t, cs[i], w, cs[i + 1]);
  }

  lemma CopiedAt(s: State, t: nat, c: L.Cells, w: nat, c': L.Cells)
    requires Shows(s, c, w) && L.CellsInv(c) && w > 0 && Enabled(s, Read(t)) && c' == Mirror(s, Read(t), c, w)
    requires t < |s.readers| && ReadersShow(DoRead(s, t), c', w) && c'.width == c.width
    requires var pc := DoRead(s, t).readers[t].pc; pc.RHas? && pc.copy
    ensures var rd := DoRead(s, t).readers[t];
            OneSealed(s, rd.cursor, Message(rd.pc.h.kind, rd.pc.h.time, rd.pc.got))
  {
    assert ReaderShows(s.readers[t], c.copiers[t], w, c.width);
    assert ReaderShows(DoRead(s, t).readers[t], c'.copiers[t], w, c.width);
    CopierSays(s, t, c, w);
    assert L.CopierOk(c, c.copiers[t]);
    NewestSealed(s, c, w, c.copiers[t]);
  }

  lemma NewestSealed(s: State, c: L.Cells, w: nat, p: L.Copier)
    requires Shows(s, c, w) && L.CellsInv(c) && L.CopierOk(c, p) && L.NextPc(c, p).LOk?
    ensures OneSealed(s, p.at * w, L.NextPc(c, p).msg)
  {
    L.OkIsNewest(c, p);
    var j := L.Home(c, p.at);
    EntrySealed(s, c, w, j, |c.cells[j].log| - 1, p.at);
  }

  /** The copier of a reader that has just got its message has just got the same. */
  lemma CopierSays(s: State, t: nat, c: L.Cells, w: nat)
    requires Enabled(s, Read(t)) && w > 0 && c.cells != [] && t < |s.readers| && t < |c.copiers|
    requires ReaderShows(s.readers[t], c.copiers[t], w, c.width)
    requires t < |Mirror(s, Read(t), c, w).copiers|
    requires ReaderShows(DoRead(s, t).readers[t], Mirror(s, Read(t), c, w).copiers[t], w, c.width)
    requires var pc := DoRead(s, t).readers[t].pc; pc.RHas? && pc.copy
    ensures var rd, p := DoRead(s, t).readers[t], c.copiers[t];
            && L.NextPc(c, p) == L.LOk(Message(rd.pc.h.kind, rd.pc.h.time, rd.pc.got)) && rd.cursor == p.at * w
  {
  }

  /** What a cell's log holds is sealed. */
  lemma EntrySealed(s: State, c: L.Cells, w: nat, j: nat, i: nat, at: nat)
    requires Shows(s, c, w) && j < |c.cells| && i < |c.cells[j].log|
    requires var f := c.cells[j].log[i].frame; L.Home(c, f) == L.Home(c, at) && f >= at
    ensures OneSealed(s, at * w, c.cells[j].log[i].msg)
  {
    var e := c.cells[j].log[i];
    assert LogShows(s, c.cells[j].log, c.sealed);
    SameSpot(s.ring, c, w, e.frame, at);
  }
}
