/** What every run of the broadcast ring gives its protected readers. */
module BroadcastTheorems {
  import opened Prelude
  import opened BroadcastFrame
  import opened BroadcastRing
  import opened BroadcastSafety

  // `states[i]` is the state before `acts[i]`.
  datatype Run = Run(states: seq<State>, acts: seq<Act>)

  /** Any interleaving of the producer with any number of readers, over fresh or leftover bytes. */
  ghost predicate Runs(r: Run) {
    && |r.states| == |r.acts| + 1
    && (exists ring: Ring, n: nat :: ring != [] && r.states[0] == Init(ring, n))
    && forall i :: 0 <= i < |r.acts| ==> Steps(r, i)
  }

  ghost predicate Steps(r: Run, i: nat)
    requires i < |r.acts| && |r.states| == |r.acts| + 1
  {
    Enabled(r.states[i], r.acts[i]) && r.states[i + 1] == Apply(r.states[i], r.acts[i])
  }

  lemma {:induction false} RunInv(r: Run, i: nat)
    requires Runs(r) && i < |r.states|
    ensures Inv(r.states[i])
  {
    if i == 0 {
      var ring: Ring, n: nat :| ring != [] && r.states[0] == Init(ring, n);
    } else {
      RunInv(r, i - 1);
      assert Steps(r, i - 1);
      StepInv(r.states[i - 1], r.acts[i - 1]);
    }
  }

  /** Backpressure: the producer never claims more than one capacity beyond a protected reader's published cursor,
      although it works from a cached minimum and scans the slots one by one. */
  lemma Backpressure(r: Run, i: nat, t: nat)
    requires Runs(r) && i < |r.states| && Protected(r.states[i], t)
    ensures var s := r.states[i];
            && s.prod - s.slots[s.readers[t].slot.value].cursor <= s.cap
            && Claim(s) - s.readers[t].cursor <= s.cap
  {
    RunInv(r, i);
    assert ReaderOk(r.states[i], t);
  }

  /** A protected reader has received exactly the messages committed from the frame it started at up to its
      cursor: in order, none twice, none missing, kind, time and payload as committed. */
  lemma Delivery(r: Run, i: nat, t: nat)
    requires Runs(r) && i < |r.states| && Protected(r.states[i], t)
    ensures var s := r.states[i];
            var rd := s.readers[t];
            && rd.first <= rd.next <= |s.frames| && rd.cursor == At(s, rd.next)
            && rd.delivered == Messages(s.frames, rd.first, rd.next)
  {
    RunInv(r, i);
    assert ReaderOk(r.states[i], t);
  }

  /** A span stays as it was committed for as long as a protected reader holds it, and the header beside it too. */
  lemma SpanStable(r: Run, i: nat, t: nat)
    requires Runs(r) && i < |r.states| && Protected(r.states[i], t) && r.states[i].readers[t].pc.RHas?
    ensures var s := r.states[i];
            var rd := s.readers[t];
            && s.ring != [] && rd.next < |s.frames|
            && var msg := s.frames[rd.next].msg;
               && rd.pc.h == Header(|msg.payload|, msg.kind, msg.time) && rd.pc.span == |msg.payload|
               && Get(s.ring, rd.cursor + HEADER, rd.pc.span) == msg.payload
               && (rd.pc.copy ==> rd.pc.got == msg.payload)
  {
    RunInv(r, i);
    assert ReaderOk(r.states[i], t);
    Safe(r.states[i], t);
  }

  /** Committed messages are never changed or taken back. */
  lemma {:induction false} FramesStay(r: Run, i: nat, j: nat)
    requires Runs(r) && i <= j < |r.states|
    ensures r.states[i].frames <= r.states[j].frames
    decreases j - i
  {
    if i < j {
      FramesStay(r, i, j - 1);
      assert Steps(r, j - 1);
    }
  }

  /** What is committed is what the caller stored: the bytes in the claimed region at the moment of Commit. */
  lemma CommittedAsStored(r: Run, i: nat)
    requires Runs(r) && i < |r.acts| && |r.states[i + 1].frames| != |r.states[i].frames|
    ensures r.states[i].producer.PPublish? && r.states[i].ring != []
    ensures var s, req := r.states[i], r.states[i].producer.req;
            r.states[i + 1].frames
            == s.frames + [Frame(s.commit, Message(req.kind, req.time, Get(s.ring, s.commit + HEADER, req.size)))]
  {
    RunInv(r, i);
    assert Steps(r, i);
  }

  /** A Reserve changes nothing if the padded frame is larger than the ring.  Otherwise the producer goes on with it,
      and scans the slots first exactly if the frame would end more than one capacity beyond the cached minimum. */
  lemma ReserveDecides(s: State, size: nat, kind: nat)
    requires Enabled(s, Reserve(size, kind))
    ensures var s' := Apply(s, Reserve(size, kind));
            && (s'.producer == PIdle <==> Required(size) > s.cap) && (s'.producer == PIdle ==> s' == s)
            && (s'.producer.PScan? <==> Required(size) <= s.cap && s.cached + s.cap < s.prod + Required(size))
  {
  }

  /** Event `i` calls Reserve(size, kind), and the frame is not published in the states up to `j`. */
  ghost predicate Reserves(r: Run, i: nat, j: nat, size: nat, kind: nat) {
    && Runs(r) && i < j < |r.states| && r.acts[i] == Reserve(size, kind)
    && forall m :: i < m <= j && m < |r.states| ==> r.states[m].producer != PIdle
  }

  ghost predicate Asked(s: State, at: nat, size: nat, kind: nat) {
    s.producer != PIdle && s.producer.req.at == at && s.producer.req.size == size && s.producer.req.kind == kind
  }

  lemma AskedStays(s: State, a: Act, at: nat, size: nat, kind: nat)
    requires Enabled(s, a) && Asked(s, at, size, kind) && Apply(s, a).producer != PIdle
    ensures Asked(Apply(s, a), at, size, kind)
  {
  }

  lemma {:induction false} ReserveGoesOn(r: Run, i: nat, j: nat, size: nat, kind: nat)
    requires Reserves(r, i, j, size, kind)
    ensures Asked(r.states[j], r.states[i].prod, size, kind)
  {
    assert Steps(r, j - 1);
    if j > i + 1 {
      ReserveGoesOn(r, i, j - 1, size, kind);
      AskedStays(r.states[j - 1], r.acts[j - 1], r.states[i].prod, size, kind);
    }
  }

  /** The frame that a Reserve leads to is published where the producer stood, with the length and type asked for. */
  lemma CommittedAsAsked(r: Run, i: nat, j: nat, size: nat, kind: nat)
    requires Reserves(r, i, j, size, kind) && j < |r.acts| && r.states[j + 1].producer == PIdle
    ensures var frames, frames' := r.states[j].frames, r.states[j + 1].frames;
            && |frames'| == |frames| + 1 && frames <= frames' && frames'[|frames|].at == r.states[i].prod
            && frames'[|frames|].msg.kind == kind && |frames'[|frames|].msg.payload| == size
  {
    RunInv(r, j);
    ReserveGoesOn(r, i, j, size, kind);
    assert Steps(r, j);
    PublishStep(r.states[j], r.acts[j]);
  }

  lemma PublishStep(s: State, a: Act)
    requires Enabled(s, a) && s.producer != PIdle && Apply(s, a).producer == PIdle
    ensures s.producer.PPublish?
    ensures Apply(s, a).frames
            == s.frames + [Frame(s.producer.req.at,
              Message(s.producer.req.kind, s.producer.req.time, s.producer.draft))]
  {
  }

  /** A protected reader is never told that it was lapped or that a frame is corrupt, and PollCopy never has to
      try again: the version is even and unchanged. */
  lemma NeverLapped(r: Run, i: nat, t: nat)
    requires Runs(r) && i < |r.acts| && r.acts[i] == Read(t) && Protected(r.states[i], t)
    ensures t < |r.states[i + 1].readers|
    ensures var pc, pc' := r.states[i].readers[t].pc, r.states[i + 1].readers[t].pc;
            && (pc'.RFailed? ==>
                  pc.RCommit? && pc'.status == NotFound && r.states[i].readers[t].cursor == r.states[i].commit)
            && (pc.RVersion? ==> pc'.RLength?) && (pc.RAfter? ==> pc'.RHas?)
  {
    var s := r.states[i];
    RunInv(r, i);
    assert Steps(r, i) && ReaderOk(s, t);
    if Polling(s.readers[t].pc) { Safe(s, t); NeverLappedStep(s, t); }
    else if s.readers[t].pc.RCommit? { AtMono(s, s.readers[t].next, |s.frames|); }
  }

  lemma NeverLappedStep(s: State, t: nat)
    requires Layout(s) && Chain(s) && Window(s) && Enabled(s, Read(t)) && ReaderOk(s, t) && Protected(s, t)
    requires Polling(s.readers[t].pc)
    ensures var pc, pc' := s.readers[t].pc, Apply(s, Read(t)).readers[t].pc;
            !pc'.RFailed? && (pc.RVersion? ==> pc'.RLength?) && (pc.RAfter? ==> pc'.RHas?)
  {
    Safe(s, t);
    FrameEnds(s, s.readers[t].next);
  }

  /** A reader that registers with the cursor of GetLatestCursor() is protected exactly if neither the cached minimum
      nor, behind a scan that is past its slot, the minimum found so far is beyond that cursor.  Between a Commit and
      the next Reserve it always is. */
  lemma LatestIsGood(r: Run, i: nat, t: nat)
    requires Runs(r) && i < |r.acts| && r.acts[i] == Register(t, |r.states[i].frames|)
    requires t < |r.states[i].readers| && r.states[i].readers[t].cursor == r.states[i].commit
    requires exists j :: 0 <= j < |r.states[i].slots| && !r.states[i].slots[j].active
    ensures var s, c := r.states[i], r.states[i].commit;
            && (Protected(r.states[i + 1], t)
                <==> && s.cached <= c
                     && (s.producer.PScan? && FreeSlot(s.slots, 0) < s.producer.i ==> s.producer.low <= c))
            && (s.producer == PIdle ==> Protected(r.states[i + 1], t))
  {
    RunInv(r, i);
    assert Steps(r, i);
    var s := r.states[i];
    var j :| 0 <= j < |s.slots| && !s.slots[j].active;
    FreeSlotFinds(s.slots, 0, j);
  }

  lemma {:induction false} FreeSlotFinds(slots: seq<Slot>, i: nat, j: nat)
    requires i <= j < |slots| && !slots[j].active
    ensures FreeSlot(slots, i) <= j
    decreases j - i
  {
    if i < j && slots[i].active { FreeSlotFinds(slots, i + 1, j); }
  }

  /** What can end the protection of a reader, and nothing else can: an eviction, an UnregisterReader on its slot,
      its own or of a reader that was evicted from that slot, or the cursor store of an Advance that another
      reader began before it lost the slot (the generation test and the store are two steps). */
  lemma ProtectionEndsIff(r: Run, i: nat, t: nat)
    requires Runs(r) && i < |r.acts| && Protected(r.states[i], t)
    ensures var s, a, slot := r.states[i], r.acts[i], r.states[i].readers[t].slot;
            !Protected(r.states[i + 1], t)
            <==> || (&& a.Produce? && a.stale && s.producer.PScan? && s.producer.look == Heartbeat
                     && Some(s.producer.i) == slot)
                 || (a.Unregister? && a.t < |s.readers| && s.readers[a.t].slot == slot)
                 || (&& a.Read? && a.t < |s.readers| && a.t != t && s.readers[a.t].pc.RStore?
                     && s.readers[a.t].slot == slot)
  {
    var s := r.states[i];
    RunInv(r, i);
    assert Steps(r, i) && ReaderOk(s, t);
    EndsIff(s, r.acts[i], t);
  }

  lemma EndsIff(s: State, a: Act, t: nat)
    requires Layout(s) && Enabled(s, a) && Protected(s, t) && s.slots[s.readers[t].slot.value].gen == s.readers[t].gen
    ensures !Protected(Apply(s, a), t)
            <==> || (a.Produce? && a.stale && s.producer.PScan? && s.producer.look == Heartbeat
                     && Some(s.producer.i) == s.readers[t].slot)
                 || (a.Unregister? && s.readers[a.t].slot == s.readers[t].slot)
                 || (a.Read? && a.t != t && s.readers[a.t].pc.RStore? && s.readers[a.t].slot == s.readers[t].slot)
  {
    if !ProducerAct(a) { ReaderEndsIff(s, a, t); }
  }

  lemma ReaderEndsIff(s: State, a: Act, t: nat)
    requires Layout(s) && Enabled(s, a) && !ProducerAct(a)
    requires Protected(s, t) && s.slots[s.readers[t].slot.value].gen == s.readers[t].gen
    ensures !Protected(Apply(s, a), t)
            <==> || (a.Unregister? && s.readers[a.t].slot == s.readers[t].slot)
                 || (a.Read? && a.t != t && s.readers[a.t].pc.RStore? && s.readers[a.t].slot == s.readers[t].slot)
  {
  }

  /** Advance of a protected reader always reaches its slot. */
  lemma AdvancePublishes(r: Run, i: nat, t: nat)
    requires Runs(r) && i < |r.acts| && r.acts[i] == Read(t) && Protected(r.states[i], t)
    requires r.states[i].readers[t].pc.RCheck? || r.states[i].readers[t].pc.RStore?
    ensures Protected(r.states[i + 1], t)
    ensures var s' := r.states[i + 1];
            if r.states[i].readers[t].pc.RCheck? then s'.readers[t].pc.RStore?
            else s'.slots[s'.readers[t].slot.value].cursor == s'.readers[t].cursor == r.states[i].readers[t].cursor
  {
    RunInv(r, i);
    assert Steps(r, i) && ReaderOk(r.states[i], t);
  }
}
