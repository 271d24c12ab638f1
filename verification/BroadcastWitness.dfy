/** Runs of the broadcast ring in which its limits show: a reader that starts at the latest cursor and is lapped
    although it never stops being active, and a cursor store that outlives the eviction of the reader that makes it. */
module BroadcastWitness {
  import opened Prelude
  import opened BroadcastFrame
  import opened BroadcastRing
  import opened BroadcastSafety
  import opened BroadcastTheorems
  import W = BroadcastWait

  // ---------------------------------------------------------------- stretches of a run

  /** The run leads from `s` to `s'`. */
  ghost predicate Leads(r: Run, s: State, s': State) {
    && |r.states| == |r.acts| + 1 && r.states[0] == s && r.states[|r.acts|] == s'
    && forall i :: 0 <= i < |r.acts| ==> Steps(r, i)
  }

  function Joined(r: Run, q: Run): Run
    requires |q.states| > 0
  {
    Run.Run(r.states + q.states[1..], r.acts + q.acts)
  }

  lemma Then(r: Run, q: Run, s: State, s1: State, s': State)
    requires Leads(r, s, s1) && Leads(q, s1, s')
    ensures Leads(Joined(r, q), s, s')
  {
    var all := Joined(r, q);
    forall i | 0 <= i < |all.acts| ensures Steps(all, i) {
      if i < |r.acts| { assert Steps(r, i); } else { assert Steps(q, i - |r.acts|); }
    }
  }

  lemma One(s: State, a: Act) returns (r: Run)
    requires Enabled(s, a)
    ensures Leads(r, s, Apply(s, a)) && r.acts == [a]
  {
    r := Run.Run([s, Apply(s, a)], [a]);
    assert Steps(r, 0);
  }

  lemma More(r: Run, s: State, s1: State, a: Act) returns (q: Run)
    requires Leads(r, s, s1) && Enabled(s1, a)
    ensures Leads(q, s, Apply(s1, a)) && q.acts == r.acts + [a] && q.states[..|r.states|] == r.states
  {
    var one := One(s1, a);
    Then(r, one, s, s1, Apply(s1, a));
    q := Joined(r, one);
  }

  lemma {:induction false} LeadsInv(r: Run, s: State, s': State)
    requires Leads(r, s, s') && Inv(s)
    ensures Inv(s')
    decreases |r.acts|
  {
    if r.acts != [] {
      var n := |r.acts| - 1;
      var q := Run.Run(r.states[..n + 1], r.acts[..n]);
      forall i | 0 <= i < n ensures Steps(q, i) { assert Steps(r, i); }
      LeadsInv(q, s, r.states[n]);
      assert Steps(r, n);
      StepInv(r.states[n], r.acts[n]);
    }
  }

  /** From the version store to the return of Reserve. */
  lemma Writes(s: State) returns (r: Run, s': State)
    requires WellSized(s) && s.producer.PVersion?
    ensures Leads(r, s, s') && WellSized(s')
    ensures s'.producer.PFill? && s'.producer.req == s.producer.req.(time := 0)
    ensures s' == s.(ring := s'.ring, producer := s'.producer, prod := Target(s))
    ensures forall i :: 0 <= i < |r.acts| ==> r.acts[i] == Produce(false, 0)
  {
    var go := Produce(false, 0);
    r := One(s, go);
    s' := Apply(s, go);
    assert s'.producer == PLength(s.producer.req);
    r := More(r, s, s', go);
    s' := Apply(s', go);
    r := More(r, s, s', go);
    s' := Apply(s', go);
    r := More(r, s, s', go);
    s' := Apply(s', go);
    r := More(r, s, s', go);
    s' := Apply(s', go);
  }

  /** Commit. */
  lemma Commits(s: State) returns (r: Run, s': State)
    requires WellSized(s) && s.producer.PFill?
    ensures Leads(r, s, s') && WellSized(s')
    ensures var req := s.producer.req;
            s' == s.(ring := s'.ring, producer := PIdle, commit := Target(s),
                     frames := s.frames + [Frame(req.at, Message(req.kind, req.time, s.producer.draft))])
    ensures forall i :: 0 <= i < |r.acts| ==> r.acts[i] == Commit || r.acts[i] == Produce(false, 0)
  {
    r := One(s, Commit);
    s' := Apply(s, Commit);
    r := More(r, s, s', Produce(false, 0));
    s' := Apply(s', Produce(false, 0));
    r := More(r, s, s', Produce(false, 0));
    s' := Apply(s', Produce(false, 0));
  }

  predicate NoScan(s: State, size: nat) {
    s.producer == PIdle && size <= LONGEST && Required(size) <= s.cap && s.prod + Required(size) - s.cached <= s.cap
  }

  /** A Reserve that finds room below the cached minimum. */
  lemma Reserves(s: State, size: nat, kind: nat) returns (r: Run, s': State)
    requires WellSized(s) && NoScan(s, size) && kind < U32
    ensures Leads(r, s, s') && WellSized(s')
    ensures s'.producer.PFill? && s'.producer.req == Request(s.prod, size, kind, 0)
    ensures s' == s.(ring := s'.ring, producer := s'.producer, prod := s.prod + Required(size))
    ensures forall i :: 0 <= i < |r.acts| ==> !r.acts[i].Produce? || !r.acts[i].stale
  {
    var first := One(s, Reserve(size, kind));
    var s1 := Apply(s, Reserve(size, kind));
    var rest;
    rest, s' := Writes(s1);
    Then(first, rest, s, s1, s');
    r := Joined(first, rest);
  }

  /** Heartbeats that make the reader of slot 0 stale, or nobody. */
  function Beats(dead: bool): (h: seq<int>)
    ensures |h| == SLOTS
  {
    seq(SLOTS, i => if dead && i == 0 then -1 else 0)
  }

  /** What is left active after the pass: nobody. */
  predicate Empties(s: State, dead: bool) {
    |s.slots| == SLOTS && forall i :: 0 <= i < SLOTS && s.slots[i].active ==> dead && i == 0
  }

  /** A Reserve that has to scan, finds nobody, and takes its own target for the minimum. */
  lemma ReservesAlone(s: State, size: nat, kind: nat, dead: bool) returns (r: Run, s': State)
    requires WellSized(s) && s.producer == PIdle && size <= LONGEST && Required(size) <= s.cap && kind < U32
    requires s.prod + Required(size) - s.cached > s.cap && Empties(s, dead)
    ensures Leads(r, s, s') && WellSized(s')
    ensures s'.producer.PFill? && s'.producer.req == Request(s.prod, size, kind, 0)
    ensures var target := s.prod + Required(size);
            s' == s.(ring := s'.ring, producer := s'.producer, prod := target, cached := target,
                     slots := W.Swept(s.slots, Beats(dead), 0, 0))
    ensures !dead ==> forall i :: 0 <= i < |r.acts| ==> !r.acts[i].Produce? || !r.acts[i].stale
  {
    var first := One(s, Reserve(size, kind));
    var s1 := Apply(s, Reserve(size, kind));
    var states, s2 := W.PassAlone(s1, Beats(dead), 0, 0);
    var scan := ScanRun(states, Beats(dead), s1, s2);
    Then(first, scan, s, s1, s2);
    r := Joined(first, scan);
    var rest;
    rest, s' := Writes(s2);
    Then(r, rest, s, s2, s');
    r := Joined(r, rest);
  }

  lemma ScanRun(states: seq<State>, beats: seq<int>, s: State, s': State) returns (r: Run)
    requires W.ScansAlone(states, beats, 0, 0) && W.Joins(states, s, s')
    ensures Leads(r, s, s') && forall i :: 0 <= i < |r.acts| ==> r.acts[i].Produce?
    ensures (forall i :: 0 <= i < |beats| ==> beats[i] == 0) ==> forall i :: 0 <= i < |r.acts| ==> !r.acts[i].stale
  {
    var acts := seq(|states| - 1, j requires 0 <= j < |states| - 1 =>
      Produce(states[j].producer.PScan? && states[j].producer.i < |beats|
        && W.Stale(beats[states[j].producer.i], 0, 0), 0));
    r := Run.Run(states, acts);
    forall j | 0 <= j < |acts| ensures Steps(r, j) { assert W.ScansAt(states, j, beats, 0, 0); }
  }

  // ---------------------------------------------------------------- lapped from the latest cursor

  // Nobody has been found stale.
  ghost predicate NobodyStale(r: Run) { forall i :: 0 <= i < |r.acts| && r.acts[i].Produce? ==> !r.acts[i].stale }

  lemma NobodyStaleThen(r: Run, q: Run)
    requires NobodyStale(r) && NobodyStale(q) && |q.states| > 0
    ensures NobodyStale(Joined(r, q))
  {
  }

  const RING: Ring := seq(64, _ => 0)

  /** A first message of 32 bytes has been committed. */
  lemma FirstMessage(n: nat) returns (r: Run, s: State)
    ensures Leads(r, Init(RING, n), s) && NobodyStale(r) && WellSized(s) && Inv(s)
    ensures s.cap == 64 && s.prod == s.commit == 56 && s.cached == 0 && s.producer == PIdle
    ensures s.slots == Init(RING, n).slots && s.readers == Init(RING, n).readers
    ensures |s.frames| == 1 && s.frames[0].at == 0 && |s.frames[0].msg.payload| == 32
  {
    var s0 := Init(RING, n);
    assert Inv(s0);
    var s1;
    r, s1 := Reserves(s0, 32, 0);
    LeadsInv(r, s0, s1);
    var q;
    q, s := Commits(s1);
    Then(r, q, s0, s1, s);
    NobodyStaleThen(r, q);
    r := Joined(r, q);
    LeadsInv(q, s1, s);
  }

  /** The run so far ends in a state in which reader 0 may register while the caller fills its frame. */
  lemma Waiting() returns (r: Run, s: State)
    ensures Leads(r, Init(RING, 1), s) && NobodyStale(r) && WellSized(s)
    ensures s.cap == 64 && s.prod == s.cached == 88 && s.commit == 56 && s.producer.PFill?
    ensures s.producer.req == Request(56, 8, 0, 0) && |s.frames| == 1
    ensures s.readers == [Reader(56, None, 0, RIdle, 0, 0, false, [])]
    ensures forall i :: 0 <= i < SLOTS ==> s.slots[i] == Slot(false, 0, 0, None, false)
  {
    var s1, s2;
    r, s1 := FirstMessage(1);
    var q;
    q, s2 := ReservesAlone(s1, 8, 0, false);
    Then(r, q, Init(RING, 1), s1, s2);
    NobodyStaleThen(r, q);
    r := Joined(r, q);
    q := One(s2, SetCursor(0, 56));
    s := Apply(s2, SetCursor(0, 56));
    Then(r, q, Init(RING, 1), s2, s);
    NobodyStaleThen(r, q);
    r := Joined(r, q);
  }

  /** After the registration: two more messages, and a poll that says the reader was lapped. */
  lemma Overtaken(s: State) returns (r: Run, s': State)
    requires WellSized(s) && s.cap == 64 && s.prod == s.cached == 88 && s.commit == 56 && s.producer.PFill?
    requires s.producer.req == Request(56, 8, 0, 0) && |s.readers| == 1
    requires s.readers[0].cursor == 56 && s.readers[0].pc == RIdle && SlotOk(s, 0)
    ensures Leads(r, s, s') && NobodyStale(r) && s'.slots == s.slots && s'.prod == 128 && s'.cap == 64
    ensures s'.readers == [s.readers[0].(pc := RFailed(Lapped))]
  {
    var s1, s2, q;
    r, s1 := Commits(s);
    q, s2 := Reserves(s1, 16, 0);
    Then(r, q, s, s1, s2);
    NobodyStaleThen(r, q);
    r := Joined(r, q);
    q := One(s2, Poll(0, true));
    var s3 := Apply(s2, Poll(0, true));
    q := More(q, s2, s3, Read(0));
    var s4 := Apply(s3, Read(0));
    q := More(q, s2, s4, Read(0));
    s' := Apply(s4, Read(0));
    Then(r, q, s, s2, s');
    NobodyStaleThen(r, q);
    r := Joined(r, q);
  }

  /** A reader that registers at the latest cursor while a frame is being filled can be lapped: the scan for that frame
      found no reader and left a cached minimum beyond the commit cursor, and the next Reserve trusts it.  The reader
      stays active in its slot and nobody finds it stale. */
  lemma LatestCanBeLapped() returns (r: Run, i: nat)
    ensures Runs(r) && NobodyStale(r) && i < |r.acts| && r.acts[i] == Register(0, |r.states[i].frames|)
    ensures r.states[i].producer.PFill? && |r.states[i].readers| == 1
            && r.states[i].readers[0].cursor == r.states[i].commit
    ensures var s := r.states[|r.acts|];
            && |s.readers| == 1 && s.readers[0].pc == RFailed(Lapped) && s.prod - s.readers[0].cursor > s.cap
            && s.readers[0].slot == Some(0) && |s.slots| == SLOTS && s.slots[0].active && s.slots[0].owner == Some(0)
            && s.slots[0].gen == s.readers[0].gen && s.slots[0].cursor == s.readers[0].cursor
  {
    var s0, s := Init(RING, 1), Init(RING, 1);
    r, s := Waiting();
    i := |r.acts|;
    var one := One(s, Register(0, 1));
    var s1 := Apply(s, Register(0, 1));
    var q, s' := Overtaken(s1);
    Then(one, q, s, s1, s');
    var rest := Joined(one, q);
    Then(r, rest, s0, s, s');
    NobodyStaleThen(one, q);
    NobodyStaleThen(r, rest);
    r := Joined(r, rest);
    assert r.acts[i] == rest.acts[0] && r.states[i] == s;
    assert RING != [] && r.states[0] == Init(RING, 1);
  }

  // ---------------------------------------------------------------- a cursor store after the eviction

  /** Eight steps take a protected reader from a poll to the span of the message at its cursor. */
  lemma PollsSpan(s: State, t: nat) returns (r: Run, s': State)
    requires Inv(s) && Protected(s, t) && s.readers[t].pc == RIdle && s.readers[t].next < |s.frames|
    ensures Leads(r, s, s') && t < |s'.readers| && s' == SetReader(s, t, s'.readers[t])
    ensures var msg := s.frames[s.readers[t].next].msg;
            s'.readers[t] == s.readers[t].(pc :=
              RHas(false, Header(|msg.payload|, msg.kind, msg.time), |msg.payload|, []))
  {
    assert ReaderOk(s, t);
    Safe(s, t);
    FrameEnds(s, s.readers[t].next);
    var msg := s.frames[s.readers[t].next].msg;
    r := One(s, Poll(t, false));
    s' := Apply(s, Poll(t, false));
    r, s' := Loads(r, s, s', t, RProducer(false));
    r, s' := Loads(r, s, s', t, RLength(false, 0));
    r, s' := Loads(r, s, s', t, RKind(false, 0, |msg.payload|));
    r, s' := Loads(r, s, s', t, RTime(false, 0, |msg.payload|, msg.kind));
    r, s' := Loads(r, s, s', t, RLengthAgain(msg.kind, msg.time));
    r, s' := Loads(r, s, s', t, RSpan(Header(|msg.payload|, msg.kind, msg.time)));
    r, s' := Loads(r, s, s', t, RHas(false, Header(|msg.payload|, msg.kind, msg.time), |msg.payload|, []));
  }

  /** One more load, which leaves the reader at `pc`. */
  lemma Loads(r: Run, s: State, s1: State, t: nat, pc: ReaderPc) returns (q: Run, s': State)
    requires Leads(r, s, s1) && Enabled(s1, Read(t)) && DoRead(s1, t) == Goes(s1, t, pc)
    ensures Leads(q, s, s') && s' == Goes(s1, t, pc)
  {
    q := More(r, s, s1, Read(t));
    s' := Apply(s1, Read(t));
  }

  const IDLE: Reader := Reader(0, None, 0, RIdle, 0, 0, false, [])

  /** Reader 0 has registered, and the first message is there. */
  lemma FirstReader() returns (r: Run, s: State)
    ensures Leads(r, Init(RING, 2), s) && Inv(s) && WellSized(s) && Protected(s, 0)
    ensures s.cap == 64 && s.prod == s.commit == 56 && s.cached == 0 && s.producer == PIdle
    ensures |s.frames| == 1 && s.frames[0].at == 0 && |s.frames[0].msg.payload| == 32
    ensures s.readers == [Reader(0, Some(0), 1, RIdle, 0, 0, true, []), IDLE]
    ensures s.slots == Init(RING, 2).slots[0 := Slot(true, 0, 1, Some(0), false)]
  {
    var s1;
    r, s1 := FirstMessage(2);
    s := Apply(s1, Register(0, 0));
    r := More(r, Init(RING, 2), s1, Register(0, 0));
    StepInv(s1, Register(0, 0));
  }

  /** Reader 0 has read the message and is about to store its new cursor. */
  lemma AboutToStore() returns (r: Run, s: State)
    ensures Leads(r, Init(RING, 2), s) && Inv(s) && WellSized(s)
    ensures s.cap == 64 && s.prod == s.commit == 56 && s.cached == 0 && s.producer == PIdle && |s.frames| == 1
    ensures |s.readers| == 2 && s.readers[1] == IDLE
    ensures s.readers[0].pc == RStore && s.readers[0].slot == Some(0) && s.readers[0].cursor == 56
    ensures s.slots == Init(RING, 2).slots[0 := Slot(true, 0, 1, Some(0), false)]
  {
    var s2, s3, q;
    r, s2 := FirstReader();
    q, s3 := PollsSpan(s2, 0);
    LeadsInv(q, s2, s3);
    Then(r, q, Init(RING, 2), s2, s3);
    r := Joined(r, q);
    r, s := Advances(r, Init(RING, 2), s3);
  }

  lemma Advances(r: Run, s0: State, s: State) returns (q: Run, s': State)
    requires Leads(r, s0, s) && Inv(s) && |s.readers| == 2 && s.readers[0].pc.RHas?
    requires s.readers[0].slot == Some(0) && |s.slots| == SLOTS && s.slots[0].gen == s.readers[0].gen
    ensures Leads(q, s0, s') && Inv(s') && |s'.readers| == 2 && s' == SetReader(s, 0, s'.readers[0])
    ensures s'.readers[0].pc == RStore && s'.readers[0].slot == Some(0)
    ensures s'.readers[0].cursor == s.readers[0].cursor + TotalFrameSize(s.readers[0].pc.h.length)
  {
    StepInv(s, Advance(0));
    var s1 := Apply(s, Advance(0));
    q := More(r, s0, s, Advance(0));
    StepInv(s1, Read(0));
    s' := Apply(s1, Read(0));
    q := More(q, s0, s1, Read(0));
  }

  /** The next Reserve has evicted reader 0 and its frame is committed; reader 1 has taken the slot. */
  lemma Replaced() returns (r: Run, s: State)
    ensures Leads(r, Init(RING, 2), s) && WellSized(s) && Protected(s, 1) && |s.readers| == 2 && s.producer == PIdle
    ensures s.readers[0].pc == RStore && s.readers[0].slot == Some(0) && s.readers[0].cursor == 56
    ensures s.readers[1].slot == Some(0) && s.readers[1].cursor == 96 && s.slots[0].cursor == 96
  {
    var s0, s1, s2, s3, q := Init(RING, 2), Init(RING, 2), Init(RING, 2), Init(RING, 2), Run.Run([], []);
    r, s1 := AboutToStore();
    q, s2 := ReservesAlone(s1, 16, 0, true);
    Then(r, q, s0, s1, s2);
    r := Joined(r, q);
    q, s3 := Commits(s2);
    Then(r, q, s0, s2, s3);
    r := Joined(r, q);
    r, s := NextReader(r, s0, s3);
  }

  lemma NextReader(r: Run, s0: State, s: State) returns (q: Run, s': State)
    requires Leads(r, s0, s) && WellSized(s) && s.producer == PIdle && |s.readers| == 2 && s.readers[1] == IDLE
    requires !s.slots[0].active && s.commit == s.cached == 96 && |s.frames| == 2
    ensures Leads(q, s0, s') && WellSized(s') && Protected(s', 1) && |s'.readers| == 2 && s'.producer == PIdle
    ensures s'.readers[0] == s.readers[0] && s'.readers[1].slot == Some(0)
    ensures s'.readers[1].cursor == 96 && s'.slots[0].cursor == 96
  {
    q := More(r, s0, s, SetCursor(1, 96));
    var s1 := Apply(s, SetCursor(1, 96));
    q := More(q, s0, s1, Register(1, 2));
    s' := Apply(s1, Register(1, 2));
    assert At(s1, 2) == 96 && FreeSlot(s1.slots, 0) == 0;
  }

  /** The generation test of Advance does not keep an evicted reader out of a slot that has gone to another: a run ends
      with the store that ends the protection of the new reader, and sets its cursor back. */
  lemma LateStore() returns (r: Run, i: nat)
    ensures Runs(r) && i + 1 == |r.acts| && r.acts[i] == Read(0) && |r.states[i].readers| == 2
    ensures var s, s' := r.states[i], r.states[i + 1];
            && s.readers[0].pc == RStore && s.readers[0].slot == s.readers[1].slot == Some(0)
            && |s'.readers| == 2 && Protected(s, 1) && !Protected(s', 1) && |s.slots| == |s'.slots| == SLOTS
            && s'.slots[0].active && s'.slots[0].cursor < s.slots[0].cursor == s'.readers[1].cursor
  {
    var s;
    r, s := Replaced();
    i := |r.acts|;
    var q := r;
    r := More(q, Init(RING, 2), s, Read(0));
    assert RING != [] && r.states[0] == Init(RING, 2);
  }
}
