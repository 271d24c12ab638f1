/**
 Retire and Gc of common/concurrency/ebr.cc as the loops they are, run by one thread without interference, and the
 proof that the step machine of EpochReclamation does the same when only that thread moves.
 */
module EpochCollector {
  import opened Prelude
  import opened EpochReclamation

  // ---------------------------------------------------------------- what the loops compute

  /** The minimum after visiting the first `n` blocks of the list order, newest block first. */
  function ScanMin(tcbs: seq<Tcb>, n: nat, min: nat): nat
    requires n <= |tcbs|
  {
    if n == 0 then min
    else
      var tcb := tcbs[n - 1];
      ScanMin(tcbs, n - 1, if tcb.active && tcb.local != 0 && tcb.local < min then tcb.local else min)
  }

  /** The batches a sweep leaves, and the objects it deletes, in order. */
  function Kept(bs: seq<Batch>, min: nat): seq<Batch> {
    if bs == [] then [] else (if bs[0].epoch < min then [] else [bs[0]]) + Kept(bs[1..], min)
  }

  function Dropped(bs: seq<Batch>, min: nat): seq<Obj> {
    if bs == [] then [] else (if bs[0].epoch < min then bs[0].nodes else []) + Dropped(bs[1..], min)
  }

  function Nodes(bs: seq<Batch>): seq<Obj> {
    if bs == [] then [] else bs[0].nodes + Nodes(bs[1..])
  }

  function NextEpoch(epoch: nat, min: nat): nat { if min == epoch then epoch + 1 else epoch }

  /** The scan finds the least pin of the active blocks, or the epoch if no pin is lower. */
  lemma {:induction false} ScanIsMin(tcbs: seq<Tcb>, n: nat, min: nat)
    requires n <= |tcbs|
    ensures ScanMin(tcbs, n, min) <= min
    ensures forall j :: 0 <= j < n && tcbs[j].active && tcbs[j].local != 0 ==> ScanMin(tcbs, n, min) <= tcbs[j].local
    ensures ScanMin(tcbs, n, min) == min
            || exists j :: 0 <= j < n && tcbs[j].active && tcbs[j].local == ScanMin(tcbs, n, min)
  {
    if n > 0 {
      var tcb := tcbs[n - 1];
      ScanIsMin(tcbs, n - 1, if tcb.active && tcb.local != 0 && tcb.local < min then tcb.local else min);
    }
  }

  /** A sweep deletes some of the retired objects and keeps the others; none is lost and none is deleted twice. */
  lemma {:induction false} SweepConserves(bs: seq<Batch>, min: nat)
    ensures multiset(Nodes(bs)) == multiset(Nodes(Kept(bs, min))) + multiset(Dropped(bs, min))
  {
    if bs != [] {
      SweepConserves(bs[1..], min);
      if bs[0].epoch >= min {
        var kept := Kept(bs, min);
        assert kept[0] == bs[0] && kept[1..] == Kept(bs[1..], min);
        assert Nodes(kept) == bs[0].nodes + Nodes(kept[1..]);
        assert Dropped(bs, min) == Dropped(bs[1..], min);
      } else {
        assert Kept(bs, min) == Kept(bs[1..], min);
      }
    }
  }

  /** What stays are the batches whose epoch is not below the least pin. */
  lemma {:induction false} SweepKeeps(bs: seq<Batch>, min: nat)
    ensures forall b :: b in Kept(bs, min) <==> b in bs && b.epoch >= min
  {
    if bs != [] {
      SweepKeeps(bs[1..], min);
      assert bs == [bs[0]] + bs[1..];
    }
  }

  lemma {:induction false} KeptAppend(a: seq<Batch>, b: seq<Batch>, min: nat)
    ensures Kept(a + b, min) == Kept(a, min) + Kept(b, min)
  {
    if a == [] {
      assert a + b == b;
    } else {
      assert (a + b)[1..] == a[1..] + b;
      KeptAppend(a[1..], b, min);
    }
  }

  lemma {:induction false} DroppedAppend(a: seq<Batch>, b: seq<Batch>, min: nat)
    ensures Dropped(a + b, min) == Dropped(a, min) + Dropped(b, min)
  {
    if a == [] {
      assert a + b == b;
    } else {
      assert (a + b)[1..] == a[1..] + b;
      DroppedAppend(a[1..], b, min);
    }
  }

  lemma SweepOne(done: seq<Batch>, batch: Batch, min: nat)
    ensures Kept(done + [batch], min) == Kept(done, min) + if batch.epoch < min then [] else [batch]
    ensures Dropped(done + [batch], min) == Dropped(done, min) + if batch.epoch < min then batch.nodes else []
  {
    KeptAppend(done, [batch], min);
    DroppedAppend(done, [batch], min);
    assert [batch][1..] == [];
  }

  lemma PushIs(bs: seq<Batch>, e: nat, o: Obj)
    ensures var open := if bs == [] || bs[|bs| - 1].epoch != e then bs + [Batch(e, [])] else bs;
            Push(bs, e, o) == open[|open| - 1 := Batch(e, open[|open| - 1].nodes + [o])]
  {
    assert [] + [o] == [o];
  }

  // ---------------------------------------------------------------- the loops

  class Collector {
    var epoch: nat
    var tcbs: seq<Tcb>
    var own: int                      // the caller's block, -1 if it is not registered
    var deleted: seq<Obj>             // the delete calls so far

    ghost predicate Valid()
      reads this
    {
      -1 <= own < |tcbs|
    }

    constructor ()
      ensures Valid() && epoch == 1 && tcbs == [] && own == -1 && deleted == []
    {
      epoch, tcbs, own, deleted := 1, [], -1, [];
    }

    method RegisterThread()
      requires Valid()
      modifies this`tcbs, this`own
      ensures Valid() && own >= 0
      ensures old(own) >= 0 ==> own == old(own) && tcbs == old(tcbs)
      ensures old(own) < 0 ==> own == |old(tcbs)| && tcbs == old(tcbs) + [NEW_TCB]
    {
      if own >= 0 { return; }
      own, tcbs := |tcbs|, tcbs + [NEW_TCB];
    }

    /** Joins the newest batch if that is of the current epoch, and collects when the batch is full. */
    method Retire(o: Obj)
      requires Valid()
      modifies this
      ensures Valid() && own >= 0 && |tcbs| == (if old(own) < 0 then |old(tcbs)| + 1 else |old(tcbs)|)
      ensures var was := if old(own) < 0 then old(tcbs) + [NEW_TCB] else old(tcbs);
              var bs := Push(was[own].batches, old(epoch), o);
              var min := ScanMin(was, |was|, old(epoch));
              if |bs[|bs| - 1].nodes| < BATCH_THRESHOLD then
                epoch == old(epoch) && deleted == old(deleted) && tcbs == was[own := was[own].(batches := bs)]
              else
                && epoch == NextEpoch(old(epoch), min) && deleted == old(deleted) + Dropped(bs, min)
                && tcbs == was[own := was[own].(batches := Kept(bs, min))]
    {
      RegisterThread();
      ghost var was := tcbs;
      var current := epoch;
      var bs := tcbs[own].batches;
      if bs == [] || bs[|bs| - 1].epoch != current { bs := bs + [Batch(current, [])]; }
      bs := bs[|bs| - 1 := Batch(current, bs[|bs| - 1].nodes + [o])];
      PushIs(was[own].batches, current, o);
      tcbs := tcbs[own := tcbs[own].(batches := bs)];
      if |bs[|bs| - 1].nodes| >= BATCH_THRESHOLD {
        SameScan(was, tcbs, |was|, current);
        Gc();
      }
    }

    method Gc()
      requires Valid()
      modifies this`epoch, this`tcbs, this`deleted
      ensures Valid()
      ensures var min := ScanMin(old(tcbs), |old(tcbs)|, old(epoch));
              && epoch == NextEpoch(old(epoch), min)
              && (own < 0 ==> tcbs == old(tcbs) && deleted == old(deleted))
              && (own >= 0 ==>
                    && deleted == old(deleted) + Dropped(old(tcbs)[own].batches, min)
                    && tcbs == old(tcbs)[own := old(tcbs)[own].(batches := Kept(old(tcbs)[own].batches, min))])
    {
      var min := epoch;
      var curr := |tcbs|;
      while curr > 0
        invariant 0 <= curr <= |tcbs|
        invariant ScanMin(tcbs, curr, min) == ScanMin(tcbs, |tcbs|, epoch)
      {
        var tcb := tcbs[curr - 1];
        if tcb.active && tcb.local != 0 && tcb.local < min { min := tcb.local; }
        curr := curr - 1;
      }
      if min == epoch { epoch := epoch + 1; }
      if own >= 0 { Sweep(min); }
    }

    /** The erase loop. */
    method Sweep(min: nat)
      requires Valid() && own >= 0
      modifies this`tcbs, this`deleted
      ensures Valid() && deleted == old(deleted) + Dropped(old(tcbs)[own].batches, min)
      ensures tcbs == old(tcbs)[own := old(tcbs)[own].(batches := Kept(old(tcbs)[own].batches, min))]
    {
      var batches := tcbs[own].batches;
      ghost var all, done := batches, [];
      var it := 0;
      while it < |batches|
        invariant tcbs == old(tcbs) && it <= |batches| && Swept(all, done, batches, it, min)
        invariant deleted == old(deleted) + Dropped(done, min)
        decreases |batches| - it
      {
        var batch := batches[it];
        SweptStep(all, done, batches, it, min);
        SweepOne(done, batch, min);
        done := done + [batch];
        if batch.epoch < min {
          DeleteAll(batch.nodes);
          batches := batches[..it] + batches[it + 1..];
        } else {
          it := it + 1;
        }
      }
      SweptAll(all, done, batches, it, min);
      tcbs := tcbs[own := tcbs[own].(batches := batches)];
    }

    method DeleteAll(nodes: seq<Obj>)
      modifies this`deleted
      ensures deleted == old(deleted) + nodes
    {
      for i := 0 to |nodes|
        invariant deleted == old(deleted) + nodes[..i]
      {
        deleted := deleted + [nodes[i]];
      }
      assert nodes[..|nodes|] == nodes;
    }
  }

  /** The batches of `done` have been swept down to the first `it` of `batches`; the rest is as it was. */
  ghost predicate Swept(all: seq<Batch>, done: seq<Batch>, batches: seq<Batch>, it: nat, min: nat) {
    it <= |batches| && all == done + batches[it..] && batches[..it] == Kept(done, min)
  }

  lemma SweptStep(all: seq<Batch>, done: seq<Batch>, batches: seq<Batch>, it: nat, min: nat)
    requires Swept(all, done, batches, it, min) && it < |batches|
    ensures if batches[it].epoch < min then Swept(all, done + [batches[it]], batches[..it] + batches[it + 1..], it, min)
            else Swept(all, done + [batches[it]], batches, it + 1, min)
  {
    var batch := batches[it];
    SweepOne(done, batch, min);
    assert all == (done + [batch]) + batches[it + 1..];
    if batch.epoch < min {
      var rest := batches[..it] + batches[it + 1..];
      assert rest[it..] == batches[it + 1..] && rest[..it] == batches[..it];
    } else {
      assert batches[..it + 1] == batches[..it] + [batch];
    }
  }

  lemma SweptAll(all: seq<Batch>, done: seq<Batch>, batches: seq<Batch>, it: nat, min: nat)
    requires Swept(all, done, batches, it, min) && it == |batches|
    ensures done == all && batches == Kept(all, min)
  {
    assert batches[..it] == batches;
  }

  /** The scan does not look at batches. */
  lemma {:induction false} SameScan(was: seq<Tcb>, now: seq<Tcb>, n: nat, min: nat)
    requires |now| == |was| && n <= |was|
    requires forall j :: 0 <= j < |was| ==> now[j].active == was[j].active && now[j].local == was[j].local
    ensures ScanMin(now, n, min) == ScanMin(was, n, min)
  {
    if n > 0 {
      var tcb := was[n - 1];
      SameScan(was, now, n - 1, if tcb.active && tcb.local != 0 && tcb.local < min then tcb.local else min);
    }
  }

  // ---------------------------------------------------------------- the step machine, when only one thread moves

  /** Steps of thread `t` and nobody else lead from `s` to `s'`. */
  ghost predicate Alone(run: seq<State>, t: nat, s: State, s': State) {
    && run != [] && run[0] == s && run[|run| - 1] == s'
    && forall i :: 0 <= i < |run| - 1 ==> StepsAlone(run, t, i)
  }

  ghost predicate StepsAlone(run: seq<State>, t: nat, i: nat)
    requires i + 1 < |run|
  {
    Enabled(run[i], t, Continue) && run[i + 1] == Apply(run[i], t, Continue)
  }

  lemma AloneFrom(s: State, t: nat, more: seq<State>, s': State)
    requires Enabled(s, t, Continue) && Alone(more, t, Apply(s, t, Continue), s')
    ensures Alone([s] + more, t, s, s')
  {
    var run := [s] + more;
    forall i | 0 <= i < |run| - 1 ensures StepsAlone(run, t, i) {
      if i > 0 { assert StepsAlone(more, t, i - 1); }
    }
  }

  lemma AloneThen(run: seq<State>, more: seq<State>, t: nat, s: State, s1: State, s': State)
    requires Alone(run, t, s, s1) && Alone(more, t, s1, s')
    ensures Alone(run + more[1..], t, s, s')
  {
    var all := run + more[1..];
    forall i | 0 <= i < |all| - 1 ensures StepsAlone(all, t, i) {
      if i < |run| - 1 { assert StepsAlone(run, t, i); } else { assert StepsAlone(more, t, i + 1 - |run|); }
    }
  }

  /** Everything but the thread's program counter and the clock is as before. */
  ghost predicate OnlyMoved(s: State, t: nat, s': State, pc: Pc) {
    && t < |s.threads| && s'.threads == s.threads[t := s.threads[t].(pc := pc)]
    && s'.tcbs == s.tcbs && s'.epoch == s.epoch && s'.freed == s.freed
  }

  ghost predicate InScan(s: State, t: nat) {
    t < |s.threads| && -1 <= s.threads[t].tcb < |s.tcbs| && s.threads[t].pc.GcScan? && s.threads[t].pc.left <= |s.tcbs|
  }

  lemma {:induction false} ScanAlone(s: State, t: nat) returns (run: seq<State>, s': State)
    requires InScan(s, t)
    ensures var pc := s.threads[t].pc;
            Alone(run, t, s, s') && OnlyMoved(s, t, s', GcScan(ScanMin(s.tcbs, pc.left, pc.min), pc.start, 0))
    decreases s.threads[t].pc.left
  {
    if s.threads[t].pc.left == 0 {
      run, s' := [s], s;
    } else {
      var first, s1 := ScanBlock(s, t);
      var more;
      more, s' := ScanAlone(s1, t);
      AloneThen(first, more, t, s, s1, s');
      run := first + more[1..];
    }
  }

  /** The one or two steps at one block. */
  lemma ScanBlock(s: State, t: nat) returns (run: seq<State>, s1: State)
    requires InScan(s, t) && s.threads[t].pc.left > 0
    ensures Alone(run, t, s, s1)
    ensures var GcScan(min, start, left) := s.threads[t].pc;
            var tcb := s.tcbs[left - 1];
            var low := if tcb.active && tcb.local != 0 && tcb.local < min then tcb.local else min;
            OnlyMoved(s, t, s1, GcScan(low, start, left - 1))
  {
    var pc := s.threads[t].pc;
    s1 := Apply(s, t, Continue);
    assert s1.tcbs == s.tcbs;
    AloneFrom(s, t, [s1], s1);
    run := [s] + [s1];
    if s.tcbs[pc.left - 1].active {
      assert s1.threads[t].pc == GcLocal(pc.min, pc.start, pc.left);
      var s2 := Apply(s1, t, Continue);
      assert s2.tcbs == s.tcbs;
      AloneFrom(s1, t, [s2], s2);
      AloneThen(run, [s1] + [s2], t, s, s1, s2);
      run, s1 := run + ([s1] + [s2])[1..], s2;
    }
  }

  /** Where a sweep that has reached batch `at` ends. */
  ghost predicate SweptAlone(s: State, t: nat, s': State, min: nat, at: nat)
    requires t < |s.threads| && -1 <= s.threads[t].tcb < |s.tcbs|
    requires s.threads[t].tcb >= 0 ==> at <= |Own(s, t).batches|
  {
    var j, bs := s.threads[t].tcb, Own(s, t).batches;
    && s'.threads == s.threads[t := s.threads[t].(pc := Idle)] && s'.epoch == s.epoch
    && (if j < 0 then s'.tcbs == s.tcbs && s'.freed == s.freed
        else
          && s'.tcbs == s.tcbs[j := s.tcbs[j].(batches := bs[..at] + Kept(bs[at..], min))]
          && s'.freed == s.freed + set o | o in Dropped(bs[at..], min))
  }

  ghost predicate InSweep(s: State, t: nat) {
    && t < |s.threads| && -1 <= s.threads[t].tcb < |s.tcbs| && s.threads[t].pc.GcSweep?
    && (s.threads[t].tcb >= 0 ==> s.threads[t].pc.at <= |Own(s, t).batches|)
  }

  /** The batches that a sweep has still to look at, and the nodes of the first of them. */
  ghost function BatchesLeft(s: State, t: nat): nat
    requires InSweep(s, t)
  {
    if s.threads[t].tcb < 0 then 0 else |Own(s, t).batches| - s.threads[t].pc.at
  }

  ghost function NodesLeft(s: State, t: nat): nat
    requires InSweep(s, t)
  {
    if BatchesLeft(s, t) > 0 then |Own(s, t).batches[s.threads[t].pc.at].nodes| else 0
  }

  lemma SweepShrinks(s: State, t: nat)
    requires InSweep(s, t) && BatchesLeft(s, t) > 0
    ensures Enabled(s, t, Continue)
    ensures var s1 := Apply(s, t, Continue);
            && InSweep(s1, t)
            && (BatchesLeft(s1, t) < BatchesLeft(s, t)
                || (BatchesLeft(s1, t) == BatchesLeft(s, t) && NodesLeft(s1, t) < NodesLeft(s, t)))
  {
    SweepMoves(s, t);
  }

  lemma {:induction false} SweepAlone(s: State, t: nat) returns (run: seq<State>, s': State)
    requires InSweep(s, t)
    ensures Alone(run, t, s, s') && SweptAlone(s, t, s', s.threads[t].pc.min, s.threads[t].pc.at)
    decreases BatchesLeft(s, t), NodesLeft(s, t)
  {
    if BatchesLeft(s, t) == 0 {
      run, s' := SweepEnds(s, t);
    } else {
      SweepShrinks(s, t);
      var s1 := Apply(s, t, Continue);
      run, s' := SweepAlone(s1, t);
      SweptBack(s, t, s1, s');
      AloneFrom(s, t, run, s');
      run := [s] + run;
    }
  }

  lemma SweepEnds(s: State, t: nat) returns (run: seq<State>, s': State)
    requires InSweep(s, t) && BatchesLeft(s, t) == 0
    ensures Alone(run, t, s, s') && SweptAlone(s, t, s', s.threads[t].pc.min, s.threads[t].pc.at)
  {
    s' := Apply(s, t, Continue);
    AloneFrom(s, t, [s'], s');
    run := [s] + [s'];
    var at, bs := s.threads[t].pc.at, Own(s, t).batches;
    if s.threads[t].tcb >= 0 { assert bs[..at] + Kept(bs[at..], s.threads[t].pc.min) == bs; }
  }

  /** One step of the sweep inside the batches. */
  lemma SweepMoves(s: State, t: nat)
    requires t < |s.threads| && 0 <= s.threads[t].tcb < |s.tcbs| && s.threads[t].pc.GcSweep?
    requires s.threads[t].pc.at < |Own(s, t).batches|
    ensures var GcSweep(min, start, at), bs, j := s.threads[t].pc, Own(s, t).batches, s.threads[t].tcb;
            var s1 := Apply(s, t, Continue);
            && s1.epoch == s.epoch
            && s1.threads == s.threads[t := s.threads[t].(pc := GcSweep(min, start, NextAt(bs, at, min)))]
            && s1.tcbs == s.tcbs[j := s.tcbs[j].(batches := OneSwept(bs, at, min))]
            && s1.freed == s.freed + if bs[at].epoch >= min || bs[at].nodes == [] then {} else {bs[at].nodes[0]}
  {
  }

  lemma SweptBack(s: State, t: nat, s1: State, s': State)
    requires InSweep(s, t) && BatchesLeft(s, t) > 0 && Enabled(s, t, Continue) && s1 == Apply(s, t, Continue)
    requires InSweep(s1, t) && SweptAlone(s1, t, s', s1.threads[t].pc.min, s1.threads[t].pc.at)
    ensures SweptAlone(s, t, s', s.threads[t].pc.min, s.threads[t].pc.at)
  {
    SweepMoves(s, t);
    SweptOver(s, t, s1, s');
  }

  lemma SweptOver(s: State, t: nat, s1: State, s': State)
    requires InSweep(s, t) && BatchesLeft(s, t) > 0 && InSweep(s1, t)
    requires SweptAlone(s1, t, s', s1.threads[t].pc.min, s1.threads[t].pc.at)
    requires var GcSweep(min, start, at), bs, j := s.threads[t].pc, Own(s, t).batches, s.threads[t].tcb;
             && s1.epoch == s.epoch
             && s1.threads == s.threads[t := s.threads[t].(pc := GcSweep(min, start, NextAt(bs, at, min)))]
             && s1.tcbs == s.tcbs[j := s.tcbs[j].(batches := OneSwept(bs, at, min))]
             && s1.freed == s.freed + if bs[at].epoch >= min || bs[at].nodes == [] then {} else {bs[at].nodes[0]}
    ensures SweptAlone(s, t, s', s.threads[t].pc.min, s.threads[t].pc.at)
  {
    SweepFirst(Own(s, t).batches, s.threads[t].pc.at, s.threads[t].pc.min);
  }

  /** Where a sweep that has looked at batch `at` looks next. */
  function NextAt(bs: seq<Batch>, at: nat, min: nat): nat
    requires at < |bs|
  {
    if bs[at].epoch >= min then at + 1 else at
  }

  /** The batches after one step of a sweep that looks at batch `at`. */
  function OneSwept(bs: seq<Batch>, at: nat, min: nat): seq<Batch>
    requires at < |bs|
  {
    if bs[at].epoch >= min then bs
    else if bs[at].nodes == [] then bs[..at] + bs[at + 1..]
    else bs[at := Batch(bs[at].epoch, bs[at].nodes[1..])]
  }

  /** What one step of the sweep does to the result still to come. */
  lemma SweepFirst(bs: seq<Batch>, at: nat, min: nat)
    requires at < |bs|
    ensures bs[at].epoch >= min ==>
              && bs[..at] + Kept(bs[at..], min) == bs[..at + 1] + Kept(bs[at + 1..], min)
              && Dropped(bs[at..], min) == Dropped(bs[at + 1..], min)
    ensures bs[at].epoch < min && bs[at].nodes == [] ==>
              var rest := bs[..at] + bs[at + 1..];
              && bs[..at] + Kept(bs[at..], min) == rest[..at] + Kept(rest[at..], min)
              && Dropped(bs[at..], min) == Dropped(rest[at..], min)
    ensures bs[at].epoch < min && bs[at].nodes != [] ==>
              var rest := bs[at := Batch(bs[at].epoch, bs[at].nodes[1..])];
              && bs[..at] + Kept(bs[at..], min) == rest[..at] + Kept(rest[at..], min)
              && Dropped(bs[at..], min) == [bs[at].nodes[0]] + Dropped(rest[at..], min)
  {
    assert bs[at..][1..] == bs[at + 1..];
    if bs[at].epoch >= min {
      assert bs[..at + 1] == bs[..at] + [bs[at]];
    } else if bs[at].nodes == [] {
      var rest := bs[..at] + bs[at + 1..];
      assert rest[..at] == bs[..at] && rest[at..] == bs[at + 1..];
    } else {
      var rest := bs[at := Batch(bs[at].epoch, bs[at].nodes[1..])];
      assert rest[..at] == bs[..at] && rest[at..][1..] == bs[at + 1..];
      assert bs[at].nodes == [bs[at].nodes[0]] + bs[at].nodes[1..];
    }
  }

  /** What Collector.Gc promises, for thread `t` of the machine. */
  ghost predicate Collected(s: State, t: nat, s': State, min: nat)
    requires t < |s.threads| && -1 <= s.threads[t].tcb < |s.tcbs|
  {
    var j := s.threads[t].tcb;
    && s'.epoch == NextEpoch(s.epoch, min) && s'.threads == s.threads
    && (j < 0 ==> s'.tcbs == s.tcbs && s'.freed == s.freed)
    && (j >= 0 ==>
          && s'.tcbs == s.tcbs[j := s.tcbs[j].(batches := Kept(s.tcbs[j].batches, min))]
          && s'.freed == s.freed + set o | o in Dropped(s.tcbs[j].batches, min))
  }

  lemma SweptFromStart(s: State, t: nat, s4: State, s5: State, min: nat, start: nat)
    requires t < |s.threads| && -1 <= s.threads[t].tcb < |s.tcbs| && s.threads[t].pc == Idle
    requires s4.threads == s.threads[t := s.threads[t].(pc := GcSweep(min, start, 0))]
    requires s4.tcbs == s.tcbs && s4.freed == s.freed && s4.epoch == NextEpoch(s.epoch, min)
    requires SweptAlone(s4, t, s5, min, 0)
    ensures Collected(s, t, s5, min)
  {
    assert s5.threads == s.threads;
    if s.threads[t].tcb >= 0 {
      var bs := s.tcbs[s.threads[t].tcb].batches;
      assert Own(s4, t).batches == bs && bs[0..] == bs;
      assert bs[..0] + Kept(bs[0..], min) == Kept(bs, min);
    }
  }

  /** A collection that nobody disturbs does in steps what the loops of Collector.Gc do. */
  lemma GcAlone(s: State, t: nat) returns (run: seq<State>, s': State)
    requires Enabled(s, t, Gc) && -1 <= s.threads[t].tcb
    ensures Alone(run, t, Apply(s, t, Gc), s')
    ensures Collected(s, t, s', ScanMin(s.tcbs, |s.tcbs|, s.epoch))
  {
    var s1 := Apply(s, t, Gc);
    assert s1.threads == s.threads[t := s.threads[t].(pc := GcHead(s.epoch, s.now))] && s1.tcbs == s.tcbs;
    var s4;
    run, s4 := UpToSweep(s1, t);
    assert s4.threads == s.threads[t := s.threads[t].(pc := GcSweep(ScanMin(s.tcbs, |s.tcbs|, s.epoch), s.now, 0))];
    var sweep;
    sweep, s' := SweepAlone(s4, t);
    AloneThen(run, sweep, t, s1, s4, s');
    run := run + sweep[1..];
    SweptFromStart(s, t, s4, s', ScanMin(s.tcbs, |s.tcbs|, s.epoch), s.now);
  }

  lemma UpToSweep(s: State, t: nat) returns (run: seq<State>, s': State)
    requires t < |s.threads| && -1 <= s.threads[t].tcb < |s.tcbs| && s.threads[t].pc.GcHead?
    requires s.threads[t].pc.min == s.epoch
    ensures var min := ScanMin(s.tcbs, |s.tcbs|, s.epoch);
            && Alone(run, t, s, s') && s'.tcbs == s.tcbs && s'.freed == s.freed && s'.epoch == NextEpoch(s.epoch, min)
            && s'.threads == s.threads[t := s.threads[t].(pc := GcSweep(min, s.threads[t].pc.start, 0))]
  {
    var s2 := Apply(s, t, Continue);
    assert s2.tcbs == s.tcbs;
    var scan, s3 := ScanAlone(s2, t);
    var rest;
    rest, s' := AfterScan(s3, t);
    AloneThen(scan, rest, t, s2, s3, s');
    AloneFrom(s, t, scan + rest[1..], s');
    run := [s] + (scan + rest[1..]);
  }

  /** The epoch test and the compare-exchange. */
  lemma AfterScan(s: State, t: nat) returns (run: seq<State>, s': State)
    requires InScan(s, t) && s.threads[t].pc.left == 0
    ensures var pc := s.threads[t].pc;
            && Alone(run, t, s, s') && s'.tcbs == s.tcbs && s'.freed == s.freed
            && s'.threads == s.threads[t := s.threads[t].(pc := GcSweep(pc.min, pc.start, 0))]
            && s'.epoch == NextEpoch(s.epoch, pc.min)
  {
    s' := Apply(s, t, Continue);
    assert s'.tcbs == s.tcbs;
    AloneFrom(s, t, [s'], s');
    run := [s] + [s'];
    if s.threads[t].pc.min == s.epoch {
      var s2 := Apply(s', t, Continue);
      assert s2.tcbs == s.tcbs;
      AloneFrom(s', t, [s2], s2);
      AloneThen(run, [s'] + [s2], t, s, s', s2);
      run, s' := run + ([s'] + [s2])[1..], s2;
    }
  }

  // ---------------------------------------------------------------- Retire in the machine

  /** What Collector.Retire promises, for thread `t` of the machine and the object it has pending. */
  ghost predicate Retired(s: State, t: nat, s': State)
    requires t < |s.threads| && -1 <= s.threads[t].tcb < |s.tcbs| && s.threads[t].pending.Some?
  {
    var was := if s.threads[t].tcb < 0 then s.tcbs + [NEW_TCB] else s.tcbs;
    var j := if s.threads[t].tcb < 0 then |s.tcbs| else s.threads[t].tcb;
    var bs := Push(was[j].batches, s.epoch, s.threads[t].pending.value);
    var min := ScanMin(was, |was|, s.epoch);
    && s'.threads == s.threads[t := s.threads[t].(tcb := j, pc := Idle, pending := None)]
    && if |bs[|bs| - 1].nodes| < BATCH_THRESHOLD then
         s'.epoch == s.epoch && s'.freed == s.freed && s'.tcbs == was[j := was[j].(batches := bs)]
       else
         && s'.epoch == NextEpoch(s.epoch, min)
         && s'.freed == s.freed + (set o | o in Dropped(bs, min))
         && s'.tcbs == was[j := was[j].(batches := Kept(bs, min))]
  }

  /** The steps up to the epoch load, which register the thread if need be. */
  lemma UpToRetiring(s: State, t: nat) returns (run: seq<State>, s1: State)
    requires Enabled(s, t, Retire) && -1 <= s.threads[t].tcb
    ensures Alone(run, t, Apply(s, t, Retire), s1)
    ensures s1.epoch == s.epoch && s1.freed == s.freed
    ensures var j := if s.threads[t].tcb < 0 then |s.tcbs| else s.threads[t].tcb;
            && s1.tcbs == (if s.threads[t].tcb < 0 then s.tcbs + [NEW_TCB] else s.tcbs)
            && s1.threads == s.threads[t := s.threads[t].(tcb := j, pc := Retiring(s.epoch))]
  {
    s1 := Apply(s, t, Retire);
    run := [s1];
    if s.threads[t].tcb < 0 {
      var s2 := Apply(s1, t, Continue);
      AloneFrom(s1, t, [s2], s2);
      run, s1 := [s1] + [s2], s2;
    }
  }

  /** The push, and the first step of the collection if there is one. */
  lemma PushMoves(s: State, t: nat, e: nat, o: Obj)
    requires t < |s.threads| && 0 <= s.threads[t].tcb < |s.tcbs|
    requires s.threads[t].pc == Retiring(e) && s.threads[t].pending == Some(o)
    ensures Enabled(s, t, Continue)
    ensures var s1, j, bs := Apply(s, t, Continue), s.threads[t].tcb, Push(Own(s, t).batches, e, o);
            && s1.epoch == s.epoch && s1.freed == s.freed && s1.tcbs == s.tcbs[j := s.tcbs[j].(batches := bs)]
            && s1.threads == s.threads[t := s.threads[t].(pending := None,
                 pc := if |bs[|bs| - 1].nodes| >= BATCH_THRESHOLD then GcEnter else Idle)]
  {
  }

  /** From GcEnter a collection goes on as from a call. */
  lemma EnterAlone(s: State, t: nat) returns (run: seq<State>, s': State)
    requires t < |s.threads| && 0 <= s.threads[t].tcb < |s.tcbs| && s.threads[t].pc == GcEnter
    ensures Alone(run, t, s, s')
    ensures Collected(s.(threads := s.threads[t := s.threads[t].(pc := Idle)]), t, s',
            ScanMin(s.tcbs, |s.tcbs|, s.epoch))
  {
    var idle := s.(threads := s.threads[t := s.threads[t].(pc := Idle)]);
    run, s' := GcAlone(idle, t);
    assert Apply(idle, t, Gc) == Apply(s, t, Continue);
    AloneFrom(s, t, run, s');
    run := [s] + run;
  }

  /** A Retire that nobody disturbs does in steps what Collector.Retire does, collection included. */
  lemma RetireAlone(s: State, t: nat) returns (run: seq<State>, s': State)
    requires Enabled(s, t, Retire) && -1 <= s.threads[t].tcb
    ensures Alone(run, t, Apply(s, t, Retire), s') && Retired(s, t, s')
  {
    var s1;
    run, s1 := UpToRetiring(s, t);
    var more;
    more, s' := PushAlone(s1, t, s.epoch, s.threads[t].pending.value);
    AloneThen(run, more, t, Apply(s, t, Retire), s1, s');
    run := run + more[1..];
  }

  lemma PushAlone(s: State, t: nat, e: nat, o: Obj) returns (run: seq<State>, s': State)
    requires t < |s.threads| && 0 <= s.threads[t].tcb < |s.tcbs| && s.epoch == e
    requires s.threads[t].pc == Retiring(e) && s.threads[t].pending == Some(o)
    ensures Alone(run, t, s, s') && Retired(s, t, s')
  {
    PushMoves(s, t, e, o);
    s' := Apply(s, t, Continue);
    AloneFrom(s, t, [s'], s');
    run := [s] + [s'];
    if s'.threads[t].pc == GcEnter {
      var s1 := s';
      SameScan(s.tcbs, s1.tcbs, |s.tcbs|, e);
      var more;
      more, s' := EnterAlone(s1, t);
      AloneThen(run, more, t, s, s1, s');
      run := run + more[1..];
    }
  }
}
