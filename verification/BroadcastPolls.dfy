/**
 The reader's calls of the broadcast ring when nobody else moves: the steps of the machine do what the calls of
 BroadcastBatch do.  And who may hold a slot: registrations are counted by its generation.
 */
module BroadcastPolls {
  import opened Prelude
  import opened BroadcastFrame
  import opened BroadcastRing
  import opened BroadcastBatch

  /** Steps of reader `t` and of nobody else. */
  ghost predicate ReadsAlone(run: seq<State>, t: nat, s: State, s': State) {
    && run != [] && run[0] == s && run[|run| - 1] == s'
    && forall j :: 0 <= j < |run| - 1 ==> ReadsAt(run, t, j)
  }

  ghost predicate ReadsAt(run: seq<State>, t: nat, j: nat)
    requires j + 1 < |run|
  {
    Enabled(run[j], Read(t)) && run[j + 1] == Apply(run[j], Read(t))
  }

  lemma ReadFirst(run: seq<State>, t: nat, s: State, s': State) returns (all: seq<State>)
    requires Enabled(s, Read(t)) && ReadsAlone(run, t, Apply(s, Read(t)), s')
    ensures ReadsAlone(all, t, s, s')
  {
    all := [s] + run;
    forall j | 0 <= j < |all| - 1 ensures ReadsAt(all, t, j) {
      if j > 0 { assert ReadsAt(run, t, j - 1); }
    }
  }

  // ---------------------------------------------------------------- Advance

  /** The slots show the same readers: what is history in them does not count. */
  ghost predicate SameSlots(a: seq<Slot>, b: seq<Slot>) {
    |a| == |b| && forall i :: 0 <= i < |a| ==>
      a[i].active == b[i].active && a[i].cursor == b[i].cursor && a[i].gen == b[i].gen
  }

  ghost predicate Stands(s: State, t: nat, trail: Trail) {
    && t < |s.readers| && trail.cursor == s.readers[t].cursor && SameSlots(s.slots, trail.slots)
    && trail.slot == match s.readers[t].slot case None => -1 case Some(i) => i
  }

  /** The steps of an Advance that nobody disturbs do what the call does. */
  lemma AdvanceAlone(s: State, t: nat, was: Trail, now: Trail) returns (run: seq<State>, s': State)
    requires Enabled(s, Advance(t)) && Stands(s, t, was)
    requires Advanced(was, now, s.readers[t].gen, TotalFrameSize(s.readers[t].pc.h.length))
    ensures ReadsAlone(run, t, Apply(s, Advance(t)), s')
    ensures Stands(s', t, now) && s'.readers[t].pc == RIdle
  {
    var s1 := Apply(s, Advance(t));
    run, s' := [s1], s1;
    if s.readers[t].slot != None { run, s' := ChecksAlone(s1, t, was, now); }
  }

  lemma ChecksAlone(s: State, t: nat, was: Trail, now: Trail) returns (run: seq<State>, s': State)
    requires Enabled(s, Read(t)) && Stands(s, t, was.(cursor := now.cursor)) && s.readers[t].pc == RCheck
    requires Advanced(was, now, s.readers[t].gen, now.cursor - was.cursor)
    ensures ReadsAlone(run, t, s, s') && Stands(s', t, now) && s'.readers[t].pc == RIdle
  {
    s' := Apply(s, Read(t));
    run := [s'];
    if s'.readers[t].pc == RStore {
      var s1 := s';
      s' := Apply(s1, Read(t));
      run := ReadFirst([s'], t, s1, s');
    }
    run := ReadFirst(run, t, s, s');
  }

  // ---------------------------------------------------------------- polls

  /** A poll of either kind that finds the claimed end more than one capacity ahead fails, and changes nothing. */
  lemma LappedFails(s: State, t: nat, copy: bool) returns (run: seq<State>)
    requires Enabled(s, Poll(t, copy)) && s.readers[t].cursor < s.commit && s.prod - s.readers[t].cursor > s.cap
    ensures ReadsAlone(run, t, Apply(s, Poll(t, copy)), Goes(s, t, RFailed(Lapped)))
  {
    run := [Goes(s, t, RFailed(Lapped))];
    run := PollStep(s, t, RProducer(copy), run, RFailed(Lapped));
    run := PollStep(s, t, RCommit(copy), run, RFailed(Lapped));
  }

  /** A poll that is not lapped and finds an impossible length says that the frame is corrupt. */
  lemma CorruptFails(s: State, t: nat, copy: bool) returns (run: seq<State>)
    requires Enabled(s, Poll(t, copy)) && s.readers[t].cursor < s.commit && s.prod - s.readers[t].cursor <= s.cap
    requires VersionAt(s.ring, s.readers[t].cursor) % 2 == 0 && LengthAt(s.ring, s.readers[t].cursor) > s.cap
    ensures ReadsAlone(run, t, Apply(s, Poll(t, copy)), Goes(s, t, RFailed(DataLoss)))
  {
    run := CorruptLength(s, t, copy);
    run := PollStep(s, t, RProducer(copy), run, RFailed(DataLoss));
    run := PollStep(s, t, RCommit(copy), run, RFailed(DataLoss));
  }

  lemma CorruptLength(s: State, t: nat, copy: bool) returns (run: seq<State>)
    requires SlotOk(s, t) && WellSized(s)
    requires VersionAt(s.ring, s.readers[t].cursor) % 2 == 0 && LengthAt(s.ring, s.readers[t].cursor) > s.cap
    ensures ReadsAlone(run, t, Goes(s, t, if copy then RVersion else RLength(false, 0)), Goes(s, t, RFailed(DataLoss)))
  {
    var v := VersionAt(s.ring, s.readers[t].cursor);
    run := [Goes(s, t, RFailed(DataLoss))];
    run := PollStep(s, t, RLength(copy, if copy then v else 0), run, RFailed(DataLoss));
    if copy { run := PollStep(s, t, RVersion, run, RFailed(DataLoss)); }
  }

  /** Reader `t` at `pc` makes one step more than `run`. */
  lemma PollStep(s: State, t: nat, pc: ReaderPc, run: seq<State>, end: ReaderPc) returns (all: seq<State>)
    requires t < |s.readers| && Enabled(Goes(s, t, pc), Read(t))
    requires ReadsAlone(run, t, Apply(Goes(s, t, pc), Read(t)), Goes(s, t, end))
    ensures ReadsAlone(all, t, Goes(s, t, pc), Goes(s, t, end))
  {
    all := ReadFirst(run, t, Goes(s, t, pc), Goes(s, t, end));
  }

  function HeaderOf(msg: Message): Header { Header(|msg.payload|, msg.kind, msg.time) }

  /** Where a poll ends; `frames` are the committed frames from the cursor on. */
  function Polled(frames: seq<Frame>, lapped: bool, copy: bool): ReaderPc {
    if frames == [] then RFailed(NotFound)
    else if lapped then RFailed(Lapped)
    else
      var msg := frames[0].msg;
      RHas(copy, HeaderOf(msg), |msg.payload|, if copy then msg.payload else [])
  }

  /** The steps of a poll that nobody disturbs, with copy or without, do what PollCopy does. */
  lemma PollAlone(s: State, t: nat, copy: bool, frames: seq<Frame>) returns (run: seq<State>)
    requires Enabled(s, Poll(t, copy)) && Pending(s.ring, s.prod, s.commit, s.readers[t].cursor, frames)
    ensures ReadsAlone(run, t, Apply(s, Poll(t, copy)),
                       Goes(s, t, Polled(frames, s.prod - s.readers[t].cursor > s.cap, copy)))
  {
    var c := s.readers[t].cursor;
    if frames == [] {
      run := [Goes(s, t, RFailed(NotFound))];
      run := PollStep(s, t, RCommit(copy), run, RFailed(NotFound));
    } else {
      PendingFacts(s.ring, s.prod, s.commit, c, frames, 0);
      assert PendingAt(s.ring, s.prod, c, frames, 0);
      if s.prod - c > s.cap { run := LappedFails(s, t, copy); } else { run := FrameAlone(s, t, copy, frames[0]); }
    }
  }

  lemma FrameAlone(s: State, t: nat, copy: bool, f: Frame) returns (run: seq<State>)
    requires Enabled(s, Poll(t, copy)) && AtIntact(s, t, f)
    requires s.readers[t].cursor < s.commit && s.prod - s.readers[t].cursor <= s.cap
    ensures ReadsAlone(run, t, Apply(s, Poll(t, copy)), Goes(s, t, Polled([f], false, copy)))
  {
    var end := Polled([f], false, copy);
    if copy { run := CopyAlone(s, t, f); } else { run := SpanAlone(s, t, f); }
    run := PollStep(s, t, RProducer(copy), run, end);
    run := PollStep(s, t, RCommit(copy), run, end);
  }

  ghost predicate AtIntact(s: State, t: nat, f: Frame) {
    && SlotOk(s, t) && WellSized(s) && f.at == s.readers[t].cursor && Intact(s.ring, f) && |f.msg.payload| <= s.cap
  }

  lemma LengthAndKind(s: State, t: nat, f: Frame, copy: bool, v: nat, run: seq<State>, end: ReaderPc)
    returns (all: seq<State>)
    requires AtIntact(s, t, f)
    requires ReadsAlone(run, t, Goes(s, t, RTime(copy, v, |f.msg.payload|, f.msg.kind)), Goes(s, t, end))
    ensures ReadsAlone(all, t, Goes(s, t, RLength(copy, v)), Goes(s, t, end))
  {
    all := PollStep(s, t, RKind(copy, v, |f.msg.payload|), run, end);
    all := PollStep(s, t, RLength(copy, v), all, end);
  }

  lemma SpanAlone(s: State, t: nat, f: Frame) returns (run: seq<State>)
    requires AtIntact(s, t, f)
    ensures ReadsAlone(run, t, Goes(s, t, RLength(false, 0)),
                       Goes(s, t, RHas(false, HeaderOf(f.msg), |f.msg.payload|, [])))
  {
    var msg := f.msg;
    var end := RHas(false, HeaderOf(msg), |msg.payload|, []);
    run := [Goes(s, t, end)];
    run := PollStep(s, t, RSpan(HeaderOf(msg)), run, end);
    run := PollStep(s, t, RLengthAgain(msg.kind, msg.time), run, end);
    run := PollStep(s, t, RTime(false, 0, |msg.payload|, msg.kind), run, end);
    run := LengthAndKind(s, t, f, false, 0, run, end);
  }

  lemma CopyAlone(s: State, t: nat, f: Frame) returns (run: seq<State>)
    requires AtIntact(s, t, f)
    ensures ReadsAlone(run, t, Goes(s, t, RVersion),
                       Goes(s, t, RHas(true, HeaderOf(f.msg), |f.msg.payload|, f.msg.payload)))
  {
    var msg, v := f.msg, VersionAt(s.ring, f.at);
    var end := RHas(true, HeaderOf(msg), |msg.payload|, msg.payload);
    run := BytesAlone(s, t, f, 0);
    run := PollStep(s, t, RTime(true, v, |msg.payload|, msg.kind), run, end);
    run := LengthAndKind(s, t, f, true, v, run, end);
    run := PollStep(s, t, RVersion, run, end);
  }

  /** The byte loop of a copy, with `n` bytes copied. */
  lemma {:induction false} BytesAlone(s: State, t: nat, f: Frame, n: nat) returns (run: seq<State>)
    requires AtIntact(s, t, f) && n <= |f.msg.payload|
    ensures ReadsAlone(run, t, Goes(s, t, RBytes(VersionAt(s.ring, f.at), HeaderOf(f.msg), f.msg.payload[..n])),
                       Goes(s, t, RHas(true, HeaderOf(f.msg), |f.msg.payload|, f.msg.payload)))
    decreases |f.msg.payload| - n
  {
    var msg, v := f.msg, VersionAt(s.ring, f.at);
    var end := RHas(true, HeaderOf(msg), |msg.payload|, msg.payload);
    var pc := RBytes(v, HeaderOf(msg), msg.payload[..n]);
    if n == |msg.payload| {
      assert msg.payload[..n] == msg.payload;
      run := PollStep(s, t, RAfter(v, HeaderOf(msg), msg.payload), [Goes(s, t, end)], end);
    } else {
      var whole := Get(s.ring, f.at + HEADER, |msg.payload|);
      assert Get(s.ring, f.at + HEADER + n, 1)[0] == whole[n];
      assert msg.payload[..n] + Get(s.ring, f.at + HEADER + n, 1) == msg.payload[..n + 1];
      run := BytesAlone(s, t, f, n + 1);
    }
    run := PollStep(s, t, pc, run, end);
  }
}
