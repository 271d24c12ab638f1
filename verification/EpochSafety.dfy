/**
 The invariant of the reclamation machine holds in every reachable state.

 Each step is reduced to its `Delta` first; the lemmas below it are about arbitrary deltas of the
 right form, so each one sees only the part of the invariant it needs.
 */
module EpochSafety {
  import opened Prelude
  import opened EpochReclamation

  // ---------------------------------------------------------------- shape

  /** How a step may move a thread between control blocks. */
  ghost predicate ShapedDelta(s: State, t: nat, d: Delta)
    requires t < |s.threads|
  {
    && (d.grow ==> s.threads[t].tcb < 0)
    && d.th.tcb == (if d.grow then |s.tcbs| else if s.threads[t].pc.Deactivated? then -1 else s.threads[t].tcb)
  }

  lemma StepShaped(s: State, t: nat, a: Act)
    requires Shape(s) && Enabled(s, t, a)
    ensures ShapedDelta(s, t, StepOf(s, t, a)) && StepOf(s, t, a).epoch >= s.epoch
  {
    assert ThreadShape(s, t);
  }

  lemma OtherShapeKept(s: State, t: nat, d: Delta, u: nat)
    requires Shape(s) && t < |s.threads| && s.threads[t].tcb < |s.tcbs| && u < |s.threads| && u != t
    ensures ThreadShape(Commit(s, t, d), u)
  {
    assert ThreadShape(s, u);
  }

  lemma OwnShapeKept(s: State, t: nat, a: Act)
    requires Enabled(s, t, a) && ThreadShape(s, t)
    ensures ThreadShape(Apply(s, t, a), t)
  {
    if a == Continue {
      if s.threads[t].pc.InScan() { OwnShapeScans(s, t); } else { OwnShapeContinues(s, t); }
    }
  }

  lemma OwnShapeScans(s: State, t: nat)
    requires Enabled(s, t, Continue) && ThreadShape(s, t) && s.threads[t].pc.InScan()
    ensures ThreadShape(Apply(s, t, Continue), t)
  {
    if s.threads[t].pc.GcSweep? { OwnShapeSweeps(s, t); }
  }

  lemma OwnShapeSweeps(s: State, t: nat)
    requires Enabled(s, t, Continue) && ThreadShape(s, t) && s.threads[t].pc.GcSweep?
    ensures ThreadShape(Apply(s, t, Continue), t)
  {
  }

  lemma OwnShapeContinues(s: State, t: nat)
    requires Enabled(s, t, Continue) && ThreadShape(s, t) && !s.threads[t].pc.InScan()
    ensures ThreadShape(Apply(s, t, Continue), t)
  {
  }

  lemma DistinctKept(s: State, t: nat, d: Delta)
    requires Shape(s) && t < |s.threads| && s.threads[t].tcb < |s.tcbs| && ShapedDelta(s, t, d)
    ensures TcbsDistinct(Commit(s, t, d))
  {
    forall u | 0 <= u < |s.threads| ensures s.threads[u].tcb < |s.tcbs| { assert ThreadShape(s, u); }
  }

  lemma ShapeKept(s: State, t: nat, a: Act)
    requires Shape(s) && Enabled(s, t, a)
    ensures Shape(Apply(s, t, a))
  {
    var s' := Apply(s, t, a);
    StepShaped(s, t, a);
    DistinctKept(s, t, StepOf(s, t, a));
    assert ThreadShape(s, t);
    forall u | 0 <= u < |s'.threads| ensures ThreadShape(s', u) {
      if u == t { OwnShapeKept(s, t, a); } else { OtherShapeKept(s, t, StepOf(s, t, a), u); }
    }
  }

  // ---------------------------------------------------------------- critical sections

  /** The step starts no critical section; an ongoing one keeps its pin. */
  ghost predicate NoNewPin(s: State, t: nat, d: Delta)
    requires t < |s.threads| && s.threads[t].tcb < |s.tcbs|
  {
    && d.epoch >= s.epoch
    && (InCritical(d.th) ==>
          var th := s.threads[t];
          && InCritical(th) && !d.grow
          && d.th.tcb == th.tcb >= 0 && d.th.pinTime == th.pinTime && d.th.pinEpoch == th.pinEpoch
          && d.own.local == Own(s, t).local)
  }

  lemma StepNoNewPin(s: State, t: nat, a: Act)
    requires Shape(s) && Enabled(s, t, a) && !(a == Continue && s.threads[t].pc.Pinning?)
    ensures NoNewPin(s, t, StepOf(s, t, a))
  {
    assert ThreadShape(s, t);
  }

  /** Thread `u`'s critical section in `s'`, if any, is the one it has in `s`. */
  ghost predicate CritKept(s: State, s': State) {
    && |s'.threads| == |s.threads| && s.now < s'.now && s.epoch <= s'.epoch && |s.tcbs| <= |s'.tcbs|
    && forall u :: Crit(s', u) ==> Crit(s, u) && SamePin(s, s', u)
  }

  ghost predicate SamePin(s: State, s': State, u: nat)
    requires u < |s.threads| && u < |s'.threads|
  {
    && s'.threads[u].pinTime == s.threads[u].pinTime
    && s'.threads[u].pinEpoch == s.threads[u].pinEpoch
    && s'.threads[u].tcb == s.threads[u].tcb
    && Local(s', u) == Local(s, u)
  }

  lemma OthersPin(s: State, t: nat, d: Delta, u: nat)
    requires Shape(s) && t < |s.threads| && s.threads[t].tcb < |s.tcbs| && u < |s.threads| && u != t
    ensures SamePin(s, Commit(s, t, d), u)
  {
    assert ThreadShape(s, u);
  }

  lemma CritIsKept(s: State, t: nat, d: Delta)
    requires Shape(s) && t < |s.threads| && s.threads[t].tcb < |s.tcbs| && NoNewPin(s, t, d)
    ensures CritKept(s, Commit(s, t, d))
  {
    var s' := Commit(s, t, d);
    forall u | Crit(s', u) ensures Crit(s, u) && SamePin(s, s', u) {
      if u != t { OthersPin(s, t, d, u); }
    }
  }

  lemma BelowKept(s: State, s': State, time: nat, e: nat)
    requires CritKept(s, s') && PinnedBelow(s, time, e)
    ensures PinnedBelow(s', time, e)
  {
  }

  lemma PinsKept(s: State, t: nat, a: Act)
    requires Shape(s) && Pins(s) && Enabled(s, t, a)
    ensures Pins(Apply(s, t, a))
  {
    var d, s' := StepOf(s, t, a), Apply(s, t, a);
    StepShaped(s, t, a);
    forall u | 0 <= u < |s'.threads| ensures Pinned(s', u) {
      assert Pinned(s, u) && ThreadShape(s, u);
      if u != t { OthersPin(s, t, d, u); } else { OwnPinKept(s, t, a); }
    }
  }

  lemma OwnPinKept(s: State, t: nat, a: Act)
    requires Enabled(s, t, a) && ThreadShape(s, t) && Pinned(s, t) && s.epoch >= 1
    ensures Pinned(Apply(s, t, a), t)
  {
    if a == Continue { OwnPinContinues(s, t); }
  }

  lemma OwnPinContinues(s: State, t: nat)
    requires Enabled(s, t, Continue) && ThreadShape(s, t) && Pinned(s, t) && s.epoch >= 1
    ensures Pinned(Apply(s, t, Continue), t)
  {
    if s.threads[t].pc.GcSweep? { OwnPinSweeps(s, t); }
  }

  lemma OwnPinSweeps(s: State, t: nat)
    requires Enabled(s, t, Continue) && ThreadShape(s, t) && Pinned(s, t) && s.threads[t].pc.GcSweep?
    ensures Pinned(Apply(s, t, Continue), t)
  {
  }

  // ---------------------------------------------------------------- blocks without a thread, epochs of batches

  lemma UnownedBefore(s: State, t: nat, a: Act, j: nat)
    requires Shape(s) && Enabled(s, t, a) && j < |Apply(s, t, a).tcbs| && Unowned(Apply(s, t, a), j)
    ensures j < |s.tcbs|
    ensures if s.threads[t].tcb == j then a == Continue && s.threads[t].pc.Deactivated?
            else Unowned(s, j) && Apply(s, t, a).tcbs[j] == s.tcbs[j]
  {
    var s' := Apply(s, t, a);
    StepShaped(s, t, a);
    assert s'.threads[t] == StepOf(s, t, a).th;
    if s.threads[t].tcb != j {
      forall u | 0 <= u < |s.threads| ensures s.threads[u].tcb != j {
        if u != t { assert s'.threads[u] == s.threads[u]; }
      }
    }
  }

  lemma SpareKept(s: State, t: nat, a: Act)
    requires Shape(s) && Enabled(s, t, a) && Spare(s)
    ensures Spare(Apply(s, t, a))
  {
    var s' := Apply(s, t, a);
    forall j | 0 <= j < |s'.tcbs| && Unowned(s', j) ensures !s'.tcbs[j].active && s'.tcbs[j].local == 0 {
      UnownedBefore(s, t, a, j);
      assert ThreadShape(s, t);
    }
  }

  lemma OwnDated(s: State, t: nat, a: Act)
    requires Shape(s) && Dated(s) && Enabled(s, t, a)
    ensures DatedBy(StepOf(s, t, a).own.batches, s.epoch)
    ensures StepOf(s, t, a).th.pc.Retiring? ==> StepOf(s, t, a).th.pc.e <= s.epoch
  {
    assert ThreadShape(s, t) && DatedBy(Own(s, t).batches, s.epoch);
  }

  lemma DatedKept(s: State, t: nat, a: Act)
    requires Shape(s) && Dated(s) && Enabled(s, t, a)
    ensures Dated(Apply(s, t, a))
  {
    var s' := Apply(s, t, a);
    OwnDated(s, t, a);
    StepShaped(s, t, a);
    forall j | 0 <= j < |s'.tcbs| ensures DatedBy(s'.tcbs[j].batches, s'.epoch) {
      if j < |s.tcbs| { assert DatedBy(s.tcbs[j].batches, s.epoch); }
    }
  }

  // ---------------------------------------------------------------- unlinked, retired, freed

  ghost predicate NoUnlink(s: State, t: nat, d: Delta)
    requires t < |s.threads|
  {
    d.unlinked == s.unlinked && d.tags == s.tags && d.th.pending == s.threads[t].pending
  }

  lemma StepNoUnlink(s: State, t: nat, a: Act)
    requires Enabled(s, t, a) && !a.Unlink? && !(a == Continue && s.threads[t].pc.Retiring?)
    ensures NoUnlink(s, t, StepOf(s, t, a))
  {
  }

  lemma TagsKept(s: State, t: nat, a: Act)
    requires Shape(s) && Tags(s) && Pending(s) && Enabled(s, t, a)
    requires !(a == Continue && s.threads[t].pc.Pinning?)
    ensures Tags(Apply(s, t, a))
  {
    var s' := Apply(s, t, a);
    StepNoNewPin(s, t, a);
    CritIsKept(s, t, StepOf(s, t, a));
    assert PendingOk(s, t);
    if !a.Unlink? && !(a == Continue && s.threads[t].pc.Retiring?) { StepNoUnlink(s, t, a); }
    forall o | o in s'.tags ensures o in s'.unlinked && PinnedBelow(s', s'.unlinked[o].time, s'.tags[o].epoch) {
      BelowKept(s, s', s'.unlinked[o].time, s'.tags[o].epoch);
    }
  }

  lemma BelowAfterPin(s: State, t: nat, time: nat, e: nat)
    requires Shape(s) && Enabled(s, t, Continue) && s.threads[t].pc.Pinning?
    requires PinnedBelow(s, time, e) && time < s.now
    ensures PinnedBelow(Apply(s, t, Continue), time, e)
  {
    var d, s' := StepOf(s, t, Continue), Apply(s, t, Continue);
    forall u | Crit(s', u) && s'.threads[u].pinTime <= time ensures Local(s', u) <= e {
      if u != t { OthersPin(s, t, d, u); }
    }
  }

  lemma TagsAfterPin(s: State, t: nat)
    requires Shape(s) && Tags(s) && Enabled(s, t, Continue) && s.threads[t].pc.Pinning?
    ensures Tags(Apply(s, t, Continue))
  {
    var s' := Apply(s, t, Continue);
    forall o | o in s'.tags ensures o in s'.unlinked && PinnedBelow(s', s'.unlinked[o].time, s'.tags[o].epoch) {
      BelowAfterPin(s, t, s.unlinked[o].time, s.tags[o].epoch);
    }
  }

  /** When the tag of a pending object is loaded, every older pin is at or below it. */
  lemma TagLoaded(s: State, time: nat)
    requires Pins(s)
    ensures PinnedBelow(s, time, s.epoch)
  {
    forall u | Crit(s, u) ensures Local(s, u) <= s.epoch { assert Pinned(s, u); }
  }

  lemma OwnPendingKept(s: State, t: nat, a: Act)
    requires Shape(s) && Pins(s) && Tags(s) && Pending(s) && Enabled(s, t, a)
    requires !(a == Continue && s.threads[t].pc.Pinning?)
    ensures PendingOk(Apply(s, t, a), t)
  {
    var s' := Apply(s, t, a);
    assert PendingOk(s, t) && ThreadShape(s, t);
    OwnPendingMoves(s, t, a);
    if s'.threads[t].pc.Retiring? && s'.threads[t].pending.Some? {
      StepNoNewPin(s, t, a);
      CritIsKept(s, t, StepOf(s, t, a));
      var time := s'.unlinked[s'.threads[t].pending.value].time;
      TagLoaded(s, time);
      BelowKept(s, s', time, s.epoch);
    }
  }

  /** What a thread has unlinked stays pending until it is batched; its tag is the epoch just loaded. */
  lemma OwnPendingMoves(s: State, t: nat, a: Act)
    requires Enabled(s, t, a) && PendingOk(s, t) && (forall o :: o in s.tags ==> o in s.unlinked)
    ensures t < |Apply(s, t, a).threads|
    ensures var s' := Apply(s, t, a);
            && (s'.threads[t].pending.Some? ==>
                  var o := s'.threads[t].pending.value;
                  o in s'.unlinked && s'.unlinked[o].thread == t && o !in s'.tags)
            && (s'.threads[t].pc.Retiring? ==> s'.threads[t].pc.e == s.epoch)
  {
    if !a.Unlink? && !(a == Continue && s.threads[t].pc.Retiring?) { StepNoUnlink(s, t, a); }
  }

  predicate IsPin(s: State, t: nat, a: Act)
    requires t < |s.threads|
  {
    a == Continue && s.threads[t].pc.Pinning?
  }

  lemma BelowAfter(s: State, t: nat, a: Act, time: nat, e: nat)
    requires Shape(s) && Enabled(s, t, a) && PinnedBelow(s, time, e) && time < s.now
    ensures PinnedBelow(Apply(s, t, a), time, e)
  {
    if IsPin(s, t, a) {
      BelowAfterPin(s, t, time, e);
    } else {
      StepNoNewPin(s, t, a);
      CritIsKept(s, t, StepOf(s, t, a));
      BelowKept(s, Apply(s, t, a), time, e);
    }
  }

  lemma OtherPendingKept(s: State, t: nat, a: Act, u: nat)
    requires Shape(s) && Tags(s) && Enabled(s, t, a) && u < |s.threads| && u != t
    requires PendingOk(s, t) && PendingOk(s, u)
    ensures PendingOk(Apply(s, t, a), u)
  {
    var s' := Apply(s, t, a);
    if !a.Unlink? && !(a == Continue && s.threads[t].pc.Retiring?) { StepNoUnlink(s, t, a); }
    assert s'.threads[u] == s.threads[u];
    if s.threads[u].pc.Retiring? && s.threads[u].pending.Some? {
      BelowAfter(s, t, a, s.unlinked[s.threads[u].pending.value].time, s.threads[u].pc.e);
    }
  }

  lemma PendingKept(s: State, t: nat, a: Act)
    requires Shape(s) && Pins(s) && Tags(s) && Pending(s) && Enabled(s, t, a)
    ensures Pending(Apply(s, t, a))
  {
    var s' := Apply(s, t, a);
    assert PendingOk(s, t) && ThreadShape(s, t);
    if !a.Unlink? && !(a == Continue && s.threads[t].pc.Retiring?) { StepNoUnlink(s, t, a); }
    forall u | 0 <= u < |s'.threads| ensures PendingOk(s', u) {
      if u != t { OtherPendingKept(s, t, a, u); }
      else if !IsPin(s, t, a) { OwnPendingKept(s, t, a); }
    }
  }

  // ---------------------------------------------------------------- batches

  lemma PushHolds(bs: seq<Batch>, j: nat, tags: map<Obj, Tag>, freed: set<Obj>, e: nat, o: Obj)
    requires Holds(bs, j, tags, freed) && o !in tags && o !in freed
    ensures Holds(Push(bs, e, o), j, tags[o := Tag(e, j)], freed)
  {
    var r := Push(bs, e, o);
    var last := |r| - 1;
    assert At(r, last, |r[last].nodes| - 1, o);
    forall b, p, x | At(r, b, p, x) ensures (x == o && b == last && p == |r[last].nodes| - 1) || At(bs, b, p, x) {}
    forall b, p, x | At(bs, b, p, x) ensures At(r, b, p, x) {}
  }

  lemma FreeHolds(bs: seq<Batch>, j: nat, tags: map<Obj, Tag>, freed: set<Obj>, at: nat)
    requires Holds(bs, j, tags, freed) && at < |bs| && bs[at].nodes != []
    ensures Holds(bs[at := Batch(bs[at].epoch, bs[at].nodes[1..])], j, tags, freed + {bs[at].nodes[0]})
  {
    var r := bs[at := Batch(bs[at].epoch, bs[at].nodes[1..])];
    var o := bs[at].nodes[0];
    assert At(bs, at, 0, o);
    forall b, p, x | At(r, b, p, x) ensures At(bs, b, if b == at then p + 1 else p, x) {}
    forall b, p, x | At(bs, b, p, x) && x != o ensures At(r, b, if b == at then p - 1 else p, x) {}
  }

  function Skip(at: nat, b: int): int { if b < at then b else b + 1 }

  lemma DropAt(bs: seq<Batch>, at: nat, b: int, p: int, o: Obj)
    requires at < |bs| && bs[at].nodes == []
    ensures At(bs[..at] + bs[at + 1..], b, p, o) <==> At(bs, Skip(at, b), p, o)
    ensures 0 <= b < |bs| - 1 ==> (bs[..at] + bs[at + 1..])[b].epoch == bs[Skip(at, b)].epoch
    ensures At(bs, b, p, o) ==> b != at && b == Skip(at, if b < at then b else b - 1)
  {
  }

  lemma DropHolds(bs: seq<Batch>, j: nat, tags: map<Obj, Tag>, freed: set<Obj>, at: nat)
    requires Holds(bs, j, tags, freed) && at < |bs| && bs[at].nodes == []
    ensures Holds(bs[..at] + bs[at + 1..], j, tags, freed)
  {
    var r := bs[..at] + bs[at + 1..];
    forall b, p, o | At(r, b, p, o) ensures At(bs, Skip(at, b), p, o) && r[b].epoch == bs[Skip(at, b)].epoch {
      DropAt(bs, at, b, p, o);
    }
    DropFinds(bs, r, j, tags, freed, at);
  }

  lemma DropFinds(bs: seq<Batch>, r: seq<Batch>, j: nat, tags: map<Obj, Tag>, freed: set<Obj>, at: nat)
    requires Holds(bs, j, tags, freed) && at < |bs| && bs[at].nodes == [] && r == bs[..at] + bs[at + 1..]
    ensures forall o :: o in tags && o !in freed && tags[o].tcb == j ==> exists b, p :: At(r, b, p, o)
  {
    forall o | o in tags && o !in freed && tags[o].tcb == j ensures exists b, p :: At(r, b, p, o) {
      var b, p :| At(bs, b, p, o);
      var c := if b < at then b else b - 1;
      DropAt(bs, at, b, p, o);
      DropAt(bs, at, c, p, o);
      assert At(r, c, p, o);
    }
  }

  /** Batches of another block do not notice an object retired to, or freed from, block `j`. */
  lemma OtherHolds(bs: seq<Batch>, i: nat, j: nat, tags: map<Obj, Tag>, freed: set<Obj>, o: Obj, e: nat)
    requires Holds(bs, i, tags, freed) && i != j
    ensures o !in tags && o !in freed ==> Holds(bs, i, tags[o := Tag(e, j)], freed)
    ensures o in tags && tags[o].tcb == j ==> Holds(bs, i, tags, freed + {o})
  {
  }

  ghost predicate NoBatch(s: State, t: nat, d: Delta)
    requires t < |s.threads| && s.threads[t].tcb < |s.tcbs|
  {
    d.tags == s.tags && d.freed == s.freed && d.own.batches == Own(s, t).batches
  }

  lemma StepNoBatch(s: State, t: nat, a: Act)
    requires Enabled(s, t, a) && !(a == Continue && (s.threads[t].pc.Retiring? || s.threads[t].pc.GcSweep?))
    ensures NoBatch(s, t, StepOf(s, t, a))
  {
  }

  lemma QuietBatched(s: State, t: nat, d: Delta)
    requires Batched(s) && t < |s.threads| && s.threads[t].tcb < |s.tcbs| && NoBatch(s, t, d)
    ensures Batched(Commit(s, t, d))
  {
    var s' := Commit(s, t, d);
    forall j | 0 <= j < |s'.tcbs| ensures Holds(s'.tcbs[j].batches, j, s'.tags, s'.freed) {
      if j < |s.tcbs| { assert s'.tcbs[j].batches == s.tcbs[j].batches; } else { assert s'.tcbs[j].batches == []; }
    }
  }

  lemma PushBatched(s: State, t: nat)
    requires Batched(s) && Enabled(s, t, Continue) && s.threads[t].pc.Retiring? && PendingOk(s, t)
    ensures Batched(Apply(s, t, Continue))
  {
    var s' := Apply(s, t, Continue);
    var k, e, o := s.threads[t].tcb, s.threads[t].pc.e, s.threads[t].pending.value;
    forall j | 0 <= j < |s'.tcbs| ensures Holds(s'.tcbs[j].batches, j, s'.tags, s'.freed) {
      if j == k { PushHolds(s.tcbs[k].batches, k, s.tags, s.freed, e, o); }
      else { OtherHolds(s.tcbs[j].batches, j, k, s.tags, s.freed, o, e); }
    }
  }

  lemma SweepBatched(s: State, t: nat)
    requires Batched(s) && Enabled(s, t, Continue) && s.threads[t].pc.GcSweep?
    ensures Batched(Apply(s, t, Continue))
  {
    var d, s' := StepOf(s, t, Continue), Apply(s, t, Continue);
    var k, at, bs := s.threads[t].tcb, s.threads[t].pc.at, Own(s, t).batches;
    if k < 0 || at == |bs| || bs[at].epoch >= s.threads[t].pc.min {
      QuietBatched(s, t, d);
    } else {
      if bs[at].nodes == [] { DropHolds(bs, k, s.tags, s.freed, at); }
      else { assert At(bs, at, 0, bs[at].nodes[0]); FreeHolds(bs, k, s.tags, s.freed, at); }
      forall j | 0 <= j < |s'.tcbs| ensures Holds(s'.tcbs[j].batches, j, s'.tags, s'.freed) {
        if j != k && bs[at].nodes != [] { OtherHolds(s.tcbs[j].batches, j, k, s.tags, s.freed, bs[at].nodes[0], 0); }
      }
    }
  }

  lemma BatchedKept(s: State, t: nat, a: Act)
    requires Batched(s) && Enabled(s, t, a) && PendingOk(s, t)
    ensures Batched(Apply(s, t, a))
  {
    if a == Continue && s.threads[t].pc.Retiring? { PushBatched(s, t); }
    else if a == Continue && s.threads[t].pc.GcSweep? { SweepBatched(s, t); }
    else { StepNoBatch(s, t, a); QuietBatched(s, t, StepOf(s, t, a)); }
  }

  // ---------------------------------------------------------------- scans

  lemma OtherScanKept(s: State, t: nat, a: Act, g: nat)
    requires Shape(s) && Pins(s) && Enabled(s, t, a) && g < |s.threads| && g != t && ScanOk(s, g)
    ensures ScanOk(Apply(s, t, a), g)
  {
    var d, s' := StepOf(s, t, a), Apply(s, t, a);
    StepShaped(s, t, a);
    if s.threads[g].pc.InScan() {
      var pc := s.threads[g].pc;
      if !IsPin(s, t, a) { StepNoNewPin(s, t, a); CritIsKept(s, t, d); }
      forall u | Crit(s', u)
        ensures s'.threads[u].pinTime < pc.start ==> s'.threads[u].tcb < Left(s', pc) || pc.min <= Local(s', u)
        ensures s'.threads[u].pinEpoch < pc.min ==> s'.threads[u].pinTime < pc.start
      {
        assert Pinned(s, u);
        if u != t { OthersPin(s, t, d, u); }
      }
    }
  }

  lemma OwnScanKept(s: State, t: nat, a: Act)
    requires Shape(s) && Pins(s) && Enabled(s, t, a) && ScanOk(s, t)
    ensures ScanOk(Apply(s, t, a), t)
  {
    var d, s' := StepOf(s, t, a), Apply(s, t, a);
    if s'.threads[t].pc.InScan() {
      StepNoNewPin(s, t, a);
      CritIsKept(s, t, d);
      if s.threads[t].pc.GcScan? || s.threads[t].pc.GcLocal? { OwnScanVisits(s, t); } else { OwnScanMoves(s, t, a); }
    }
  }

  lemma OwnScanMoves(s: State, t: nat, a: Act)
    requires Shape(s) && Pins(s) && Enabled(s, t, a) && ScanOk(s, t) && Apply(s, t, a).threads[t].pc.InScan()
    requires !s.threads[t].pc.GcScan? && !s.threads[t].pc.GcLocal? && CritKept(s, Apply(s, t, a))
    ensures ScanOk(Apply(s, t, a), t)
  {
    var s' := Apply(s, t, a);
    var pc := s'.threads[t].pc;
    ScanBounds(s, t, a);
    forall u | Crit(s', u)
      ensures s'.threads[u].pinTime < pc.start ==> s'.threads[u].tcb < Left(s', pc) || pc.min <= Local(s', u)
      ensures s'.threads[u].pinEpoch < pc.min ==> s'.threads[u].pinTime < pc.start
    {
      assert Pinned(s, u) && ThreadShape(s, u) && ThreadShape(s, t);
    }
  }

  /** A scan starts at the epoch and now, or keeps its minimum and start. */
  lemma ScanBounds(s: State, t: nat, a: Act)
    requires Enabled(s, t, a) && ScanOk(s, t) && Apply(s, t, a).threads[t].pc.InScan()
    requires !s.threads[t].pc.GcScan? && !s.threads[t].pc.GcLocal?
    ensures var s', pc := Apply(s, t, a), Apply(s, t, a).threads[t].pc;
            if s.threads[t].pc.InScan() then ScanCarriesOn(s, s', s.threads[t].pc, pc)
            else pc == GcHead(s.epoch, s.now) && s'.epoch == s.epoch && s'.now == s.now + 1
  {
    if s.threads[t].pc.InScan() { ScanGoesOn(s, t); }
  }

  ghost predicate ScanCarriesOn(s: State, s': State, pc: Pc, pc': Pc)
    requires pc.InScan() && pc'.InScan()
  {
    && pc'.start == pc.start && pc'.min == pc.min && s.epoch <= s'.epoch && s.now < s'.now
    && (if pc.GcHead? then pc' == GcScan(pc.min, pc.start, |s.tcbs|) else pc'.GcSweep?)
  }

  lemma ScanGoesOn(s: State, t: nat)
    requires Enabled(s, t, Continue) && s.threads[t].pc.InScan() && Apply(s, t, Continue).threads[t].pc.InScan()
    requires !s.threads[t].pc.GcScan? && !s.threads[t].pc.GcLocal?
    ensures ScanCarriesOn(s, Apply(s, t, Continue), s.threads[t].pc, Apply(s, t, Continue).threads[t].pc)
  {
  }

  /** The scan goes past one control block. */
  lemma OwnScanVisits(s: State, t: nat)
    requires Shape(s) && Pins(s) && Enabled(s, t, Continue) && ScanOk(s, t)
    requires (s.threads[t].pc.GcScan? || s.threads[t].pc.GcLocal?) && CritKept(s, Apply(s, t, Continue))
    ensures ScanOk(Apply(s, t, Continue), t)
  {
    var s' := Apply(s, t, Continue);
    var pc := s'.threads[t].pc;
    forall u | Crit(s', u)
      ensures s'.threads[u].pinTime < pc.start ==> s'.threads[u].tcb < Left(s', pc) || pc.min <= Local(s', u)
      ensures s'.threads[u].pinEpoch < pc.min ==> s'.threads[u].pinTime < pc.start
    {
      assert Pinned(s, u) && ThreadShape(s, u) && ThreadShape(s, t);
    }
  }

  lemma ScansKept(s: State, t: nat, a: Act)
    requires Shape(s) && Pins(s) && Enabled(s, t, a) && Scans(s)
    ensures Scans(Apply(s, t, a))
  {
    var s' := Apply(s, t, a);
    assert ScanOk(s, t);
    forall g | 0 <= g < |s'.threads| ensures ScanOk(s', g) {
      if g == t { OwnScanKept(s, t, a); } else { assert ScanOk(s, g); OtherScanKept(s, t, a, g); }
    }
  }

  lemma SweepsKept(s: State, t: nat, a: Act)
    requires Shape(s) && Tags(s) && Enabled(s, t, a) && Sweeps(s)
    ensures Sweeps(Apply(s, t, a))
  {
    var d, s' := StepOf(s, t, a), Apply(s, t, a);
    StepShaped(s, t, a);
    if !a.Unlink? && !(a == Continue && s.threads[t].pc.Retiring?) { StepNoUnlink(s, t, a); }
    FreedGrows(s, t, a);
    forall g, o | Scanning(s', g) && o in s'.tags && o in s'.unlinked && s'.tags[o].tcb == s'.threads[g].tcb
      ensures o in s'.freed || s'.unlinked[o].time < s'.threads[g].pc.start
    {
      if g == t { StartKept(s, t, a); }
    }
  }

  lemma FreedGrows(s: State, t: nat, a: Act)
    requires Enabled(s, t, a)
    ensures s.freed <= Apply(s, t, a).freed
    ensures !(a == Continue && s.threads[t].pc.GcSweep?) ==> Apply(s, t, a).freed == s.freed
  {
  }

  /** A scan that is running after the step either just started or was running before it. */
  lemma StartKept(s: State, t: nat, a: Act)
    requires Enabled(s, t, a) && Scanning(Apply(s, t, a), t)
    ensures NoUnlink(s, t, StepOf(s, t, a))
    ensures
      var pc := Apply(s, t, a).threads[t].pc;
      && Apply(s, t, a).threads[t].tcb == s.threads[t].tcb
      && (pc.start == s.now || (s.threads[t].pc.InScan() && pc.start == s.threads[t].pc.start))
  {
    if a == Continue { StartContinues(s, t); }
  }

  lemma StartContinues(s: State, t: nat)
    requires Enabled(s, t, Continue) && Scanning(Apply(s, t, Continue), t)
    ensures NoUnlink(s, t, StepOf(s, t, Continue))
    ensures
      var pc := Apply(s, t, Continue).threads[t].pc;
      && Apply(s, t, Continue).threads[t].tcb == s.threads[t].tcb
      && (pc.start == s.now || (s.threads[t].pc.InScan() && pc.start == s.threads[t].pc.start))
  {
  }

  // ---------------------------------------------------------------- the epoch bound and the grace period

  lemma BoundKept(s: State, t: nat, a: Act)
    requires Shape(s) && Pins(s) && Enabled(s, t, a) && ScanOk(s, t) && EpochBound(s)
    ensures EpochBound(Apply(s, t, a))
  {
    var d, s' := StepOf(s, t, a), Apply(s, t, a);
    if !IsPin(s, t, a) { StepNoNewPin(s, t, a); CritIsKept(s, t, d); }
    forall u | Crit(s', u) ensures s'.epoch <= s'.threads[u].pinEpoch + 1 {
      assert Pinned(s, u);
      EpochMoves(s, t, a);
    }
  }

  lemma EpochMoves(s: State, t: nat, a: Act)
    requires Enabled(s, t, a)
    ensures
      var e' := Apply(s, t, a).epoch;
      e' == s.epoch || (a == Continue && s.threads[t].pc.GcCas? && s.epoch == s.threads[t].pc.cur && e' == s.epoch + 1)
  {
  }

  /** The object the next sweep step frees, if it frees one. */
  lemma FreedByStep(s: State, t: nat, a: Act, o: Obj)
    requires Enabled(s, t, a) && o in Apply(s, t, a).freed && o !in s.freed
    ensures a == Continue && s.threads[t].pc.GcSweep? && s.threads[t].tcb >= 0
    ensures
      var bs, at := Own(s, t).batches, s.threads[t].pc.at;
      at < |bs| && bs[at].epoch < s.threads[t].pc.min && At(bs, at, 0, o)
  {
  }

  /** An object a collection frees was unlinked before any thread now in its critical section pinned. */
  lemma FreedIsQuiet(s: State, t: nat, a: Act, o: Obj, u: nat)
    requires Pins(s) && Tags(s) && Batched(s) && Sweeps(s) && Enabled(s, t, a) && ScanOk(s, t)
    requires o in Apply(s, t, a).freed && o !in s.freed && Crit(s, u)
    ensures o in s.unlinked && s.unlinked[o].time < s.threads[u].pinTime
  {
    FreedByStep(s, t, a, o);
    var k, at := s.threads[t].tcb, s.threads[t].pc.at;
    assert Holds(s.tcbs[k].batches, k, s.tags, s.freed);
    assert s.tags[o] == Tag(s.tcbs[k].batches[at].epoch, k);
    assert PinnedBelow(s, s.unlinked[o].time, s.tags[o].epoch);
    assert Scanning(s, t) && Pinned(s, u);
  }

  lemma UnlinkedGrows(s: State, t: nat, a: Act, o: Obj)
    requires Enabled(s, t, a) && o in s.unlinked
    ensures o in Apply(s, t, a).unlinked && Apply(s, t, a).unlinked[o] == s.unlinked[o]
  {
  }

  lemma GraceFor(s: State, t: nat, a: Act, o: Obj, u: nat)
    requires Shape(s) && Pins(s) && Tags(s) && Batched(s) && Sweeps(s) && Grace(s) && Enabled(s, t, a) && ScanOk(s, t)
    requires o in Apply(s, t, a).freed && Crit(Apply(s, t, a), u)
    ensures o in s.unlinked && s.unlinked[o].time < Apply(s, t, a).threads[u].pinTime
  {
    var s' := Apply(s, t, a);
    if o in s.freed { assert o in s.tags; } else { FreedByStep(s, t, a, o); }
    if IsPin(s, t, a) {
      assert s'.threads[u].pinTime == if u == t then s.now else s.threads[u].pinTime;
    } else {
      StepNoNewPin(s, t, a);
      CritIsKept(s, t, StepOf(s, t, a));
      if o !in s.freed { FreedIsQuiet(s, t, a, o, u); }
    }
  }

  lemma GraceKept(s: State, t: nat, a: Act)
    requires Shape(s) && Pins(s) && Tags(s) && Batched(s) && Sweeps(s) && Grace(s) && Enabled(s, t, a) && ScanOk(s, t)
    ensures Grace(Apply(s, t, a))
  {
    var s' := Apply(s, t, a);
    forall o, u | o in s'.freed && o in s'.unlinked && Crit(s', u) ensures s'.unlinked[o].time < s'.threads[u].pinTime {
      GraceFor(s, t, a, o, u);
      UnlinkedGrows(s, t, a, o);
    }
  }

  // ---------------------------------------------------------------- every run

  lemma InitInv(n: nat)
    ensures Inv(Init(n))
  {
  }

  lemma StepInv(s: State, t: nat, a: Act)
    requires Inv(s) && Enabled(s, t, a)
    ensures Inv(Apply(s, t, a))
  {
    assert PendingOk(s, t) && ScanOk(s, t);
    ShapeKept(s, t, a);
    PinsKept(s, t, a);
    SpareKept(s, t, a);
    DatedKept(s, t, a);
    if IsPin(s, t, a) { TagsAfterPin(s, t); } else { TagsKept(s, t, a); }
    PendingKept(s, t, a);
    BatchedKept(s, t, a);
    ScansKept(s, t, a);
    SweepsKept(s, t, a);
    BoundKept(s, t, a);
    GraceKept(s, t, a);
  }

  // ---------------------------------------------------------------- UnregisterThread inside a critical section

  /** The state after both stores of UnregisterThread, whatever the thread's critical_depth. */
  function Unregistered(s: State, t: nat): State
    requires t < |s.threads| && 0 <= s.threads[t].tcb < |s.tcbs|
  {
    var s1 := Commit(s, t, Goto(s, t, Deactivated).(own := Own(s, t).(active := false)));
    Commit(s1, t, Same(s1, t).(th := s1.threads[t].(tcb := -1, pc := Idle), own := Own(s1, t).(local := 0)))
  }

  /** At depth 0 this is what the machine's two steps do. */
  lemma UnregisteredIsTwoSteps(s: State, t: nat)
    requires Inv(s) && Enabled(s, t, Unregister) && s.threads[t].tcb >= 0
    ensures Enabled(Apply(s, t, Unregister), t, Continue)
    ensures Unregistered(s, t) == Apply(Apply(s, t, Unregister), t, Continue)
  {
  }

  /**
   UnregisterThread does not check critical_depth.  Called by a thread whose depth is 0 it keeps every pin;
   called inside a critical section it leaves that section without one, and the next EnterCritical, finding
   the depth not 0, publishes none either.
   */
  lemma UnregisterKeepsPinsIff(s: State, t: nat)
    requires Inv(s) && t < |s.threads| && s.threads[t].pc == Idle && 0 <= s.threads[t].tcb < |s.tcbs|
    ensures Pins(Unregistered(s, t)) <==> s.threads[t].depth == 0
  {
    var s' := Unregistered(s, t);
    forall u | 0 <= u < |s.threads| ensures Pinned(s, u) && ThreadShape(s, u) {}
    if s.threads[t].depth == 0 {
      forall u | 0 <= u < |s'.threads| ensures Pinned(s', u) {
        assert Pinned(s, u) && ThreadShape(s, u);
        if u != t { assert s'.threads[u] == s.threads[u] && s.threads[u].tcb != s.threads[t].tcb; }
      }
    } else {
      assert !Pinned(s', t);
    }
  }

  // Thread 0 after its first EnterCritical.
  const ENTERED := State(1, [Tcb(1, true, [])], [Thread(0, 1, Idle, None, 3, 1)], {}, 4, map[], map[])

  /** The failing case is reached by one thread: it enters, and unregisters before it leaves. */
  lemma UnregisterLosesPin()
    ensures Enabled(Init(1), 0, Enter)
    ensures Enabled(Apply(Init(1), 0, Enter), 0, Continue)
    ensures
      var s := Apply(Apply(Init(1), 0, Enter), 0, Continue);
      Enabled(s, 0, Continue) && Apply(s, 0, Continue) == ENTERED
    ensures InCritical(ENTERED.threads[0]) && !Pins(Unregistered(ENTERED, 0))
  {
    var s1 := Apply(Init(1), 0, Enter);
    assert s1 == State(1, [NEW_TCB], [Thread(0, 0, Entering, None, 0, 0)], {}, 2, map[], map[]);
    var s2 := Apply(s1, 0, Continue);
    assert s2 == State(1, [NEW_TCB], [Thread(0, 1, Pinning(1), None, 0, 0)], {}, 3, map[], map[]);
    assert !Pinned(Unregistered(ENTERED, 0), 0);
  }
}
