/** What a collection frees, exactly, and that nothing is held back once the critical sections have ended. */
module EpochReclaims {
  import opened EpochReclamation
  import opened EpochTheorems
  import S = EpochSafety
  import C = EpochCollector

  // ---------------------------------------------------------------- the minimum is that of the pinned threads

  /** Every pin that a scan can find belongs to a thread in its critical section. */
  lemma PinIsCritical(s: State, j: nat)
    requires Pins(s) && Spare(s) && j < |s.tcbs| && s.tcbs[j].active && s.tcbs[j].local != 0
    ensures exists t :: Crit(s, t) && s.threads[t].tcb == j
  {
    assert !Unowned(s, j);
    var t :| 0 <= t < |s.threads| && s.threads[t].tcb == j;
    assert Pinned(s, t);
    assert Crit(s, t);
  }

  ghost predicate AllAbove(s: State, e: nat) {
    e < s.epoch && forall t :: Crit(s, t) ==> e < Local(s, t)
  }

  lemma MinAbove(s: State, e: nat)
    requires Shape(s) && Pins(s) && Spare(s)
    ensures e < C.ScanMin(s.tcbs, |s.tcbs|, s.epoch) <==> AllAbove(s, e)
  {
    var min := C.ScanMin(s.tcbs, |s.tcbs|, s.epoch);
    C.ScanIsMin(s.tcbs, |s.tcbs|, s.epoch);
    forall t | Crit(s, t) ensures min <= Local(s, t) { assert Pinned(s, t) && ThreadShape(s, t); }
    if min != s.epoch {
      var j :| 0 <= j < |s.tcbs| && s.tcbs[j].active && s.tcbs[j].local == min;
      if min == 0 {
        ScanPositive(s.tcbs, |s.tcbs|, s.epoch);
      } else {
        PinIsCritical(s, j);
        var t :| Crit(s, t) && s.threads[t].tcb == j;
        assert Local(s, t) == min;
      }
    }
  }

  lemma {:induction false} ScanPositive(tcbs: seq<Tcb>, n: nat, min: nat)
    requires n <= |tcbs| && min >= 1
    ensures C.ScanMin(tcbs, n, min) >= 1
  {
    if n > 0 {
      var tcb := tcbs[n - 1];
      ScanPositive(tcbs, n - 1, if tcb.active && tcb.local != 0 && tcb.local < min then tcb.local else min);
    }
  }

  // ---------------------------------------------------------------- one collection

  lemma {:induction false} DroppedAre(bs: seq<Batch>, min: nat, o: Obj)
    ensures o in C.Dropped(bs, min) <==> exists b, p :: At(bs, b, p, o) && bs[b].epoch < min
  {
    if bs != [] {
      DroppedAre(bs[1..], min, o);
      forall b, p | At(bs[1..], b, p, o) ensures At(bs, b + 1, p, o) {}
      forall b, p | At(bs, b, p, o) && b > 0 ensures At(bs[1..], b - 1, p, o) {}
      if o in bs[0].nodes {
        var p :| 0 <= p < |bs[0].nodes| && bs[0].nodes[p] == o;
        assert At(bs, 0, p, o);
      }
    }
  }

  /** Thread `t` has retired `o`, which is not freed yet. */
  ghost predicate Held(s: State, t: nat, o: Obj) {
    t < |s.threads| && o in s.tags && o !in s.freed && s.tags[o].tcb == s.threads[t].tcb
  }

  /**
   An undisturbed collection frees exactly those of the thread's retired objects whose epoch is below the global one
   and below every pin of a thread in its critical section.
   */
  lemma CollectsExactly(s: State, t: nat, s': State, o: Obj)
    requires Inv(s) && t < |s.threads| && Held(s, t, o) && s.threads[t].tcb < |s.tcbs|
    requires C.Collected(s, t, s', C.ScanMin(s.tcbs, |s.tcbs|, s.epoch))
    ensures o in s'.freed <==> AllAbove(s, s.tags[o].epoch)
  {
    var j := s.threads[t].tcb;
    var bs := s.tcbs[j].batches;
    assert Holds(bs, j, s.tags, s.freed);
    var b, p :| At(bs, b, p, o);
    assert s.tags[o] == Tag(bs[b].epoch, j);
    DroppedAre(bs, C.ScanMin(s.tcbs, |s.tcbs|, s.epoch), o);
    MinAbove(s, s.tags[o].epoch);
  }

  // ---------------------------------------------------------------- two collections

  lemma TagsStay(s: State, t: nat, a: Act, o: Obj)
    requires Enabled(s, t, a) && PendingOk(s, t) && o in s.tags
    ensures o in Apply(s, t, a).tags && Apply(s, t, a).tags[o] == s.tags[o]
  {
  }

  lemma {:induction false} AloneKeeps(run: seq<State>, t: nat, s: State, s': State, o: Obj)
    requires C.Alone(run, t, s, s') && Inv(s)
    ensures Inv(s') && (o in s.tags ==> o in s'.tags && s'.tags[o] == s.tags[o])
    decreases |run|
  {
    if |run| > 1 {
      assert C.StepsAlone(run, t, 0);
      S.StepInv(s, t, Continue);
      assert PendingOk(s, t);
      if o in s.tags { TagsStay(s, t, Continue, o); }
      assert C.Alone(run[1..], t, run[1], s') by {
        forall i | 0 <= i < |run[1..]| - 1 ensures C.StepsAlone(run[1..], t, i) {
          assert C.StepsAlone(run, t, i + 1);
        }
      }
      AloneKeeps(run[1..], t, run[1], s', o);
    }
  }

  lemma GcKeeps(run: seq<State>, t: nat, s: State, s': State, o: Obj)
    requires Inv(s) && Enabled(s, t, Gc) && C.Alone(run, t, Apply(s, t, Gc), s')
    ensures Inv(s') && (o in s.tags ==> o in s'.tags && s'.tags[o] == s.tags[o])
  {
    S.StepInv(s, t, Gc);
    AloneKeeps(run, t, Apply(s, t, Gc), s', o);
  }

  /** No thread is in a critical section. */
  ghost predicate Quiet(s: State) { forall t :: !Crit(s, t) }

  lemma QuietMin(s: State)
    requires Shape(s) && Pins(s) && Spare(s) && Quiet(s)
    ensures C.ScanMin(s.tcbs, |s.tcbs|, s.epoch) == s.epoch
  {
    MinAbove(s, s.epoch - 1);
    C.ScanIsMin(s.tcbs, |s.tcbs|, s.epoch);
  }

  lemma {:induction false} KeptDated(bs: seq<Batch>, min: nat, e: nat)
    requires DatedBy(bs, e)
    ensures DatedBy(C.Kept(bs, min), e) && (e < min ==> C.Kept(bs, min) == [])
  {
    if bs != [] {
      assert DatedBy(bs[1..], e);
      KeptDated(bs[1..], min, e);
    }
  }

  /** One collection of a registered thread, nobody being in a critical section. */
  lemma QuietCollection(s: State, t: nat) returns (run: seq<State>, s': State)
    requires Inv(s) && Quiet(s) && Enabled(s, t, Gc) && 0 <= s.threads[t].tcb
    ensures C.Alone(run, t, Apply(s, t, Gc), s') && C.Collected(s, t, s', s.epoch)
    ensures Inv(s') && Quiet(s') && Enabled(s', t, Gc) && s'.epoch == s.epoch + 1
    ensures forall o :: o in s.tags ==> o in s'.tags && s'.tags[o] == s.tags[o]
  {
    run, s' := C.GcAlone(s, t);
    QuietMin(s);
    forall o ensures Inv(s') && (o in s.tags ==> o in s'.tags && s'.tags[o] == s.tags[o]) {
      GcKeeps(run, t, s, s', o);
    }
    assert Inv(s') by { GcKeeps(run, t, s, s', 0); }
    forall u ensures !Crit(s', u) { assert !Crit(s, u); }
  }

  /** The thread has nothing left to free. */
  ghost predicate AllFreed(s: State, t: nat, s': State)
    requires t < |s.threads| && 0 <= s.threads[t].tcb < |s.tcbs|
  {
    var j := s.threads[t].tcb;
    && s'.threads == s.threads && s'.epoch == s.epoch + 2
    && s'.tcbs == s.tcbs[j := s.tcbs[j].(batches := [])]
    && forall o :: o in s.tags && s.tags[o].tcb == j ==> o in s'.freed
  }

  lemma BothCollected(s: State, t: nat, s1: State, s2: State)
    requires Inv(s2) && Dated(s) && t < |s.threads| && 0 <= s.threads[t].tcb < |s.tcbs| && |s1.threads| == |s.threads|
    requires C.Collected(s, t, s1, s.epoch) && C.Collected(s1, t, s2, s1.epoch)
    requires forall o :: o in s.tags ==> o in s2.tags && s2.tags[o] == s.tags[o]
    ensures AllFreed(s, t, s2)
  {
    var j := s.threads[t].tcb;
    KeptDated(s.tcbs[j].batches, s.epoch, s.epoch);
    KeptDated(s1.tcbs[j].batches, s1.epoch, s.epoch);
    forall o | o in s.tags && s.tags[o].tcb == j ensures o in s2.freed { Emptied(s2, j, o); }
  }

  /**
   Nothing is held back for good.  In every run, once no thread is in a critical section, a registered thread that
   collects twice without being disturbed has no batch left, and every object it ever retired is freed.
   */
  lemma TwoCollectionsFreeAll(r: Run, t: nat)
    returns (first: seq<State>, s1: State, second: seq<State>, s2: State)
    requires Runs(r) && var s := r.states[|r.events|]; Quiet(s) && Enabled(s, t, Gc) && 0 <= s.threads[t].tcb
    ensures var s := r.states[|r.events|];
            && C.Alone(first, t, Apply(s, t, Gc), s1)
            && Enabled(s1, t, Gc) && C.Alone(second, t, Apply(s1, t, Gc), s2)
            && AllFreed(s, t, s2)
  {
    RunInv(r, |r.events|);
    first, s1, second, s2 := CollectTwice(r.states[|r.events|], t);
  }

  lemma CollectTwice(s: State, t: nat) returns (first: seq<State>, s1: State, second: seq<State>, s2: State)
    requires Inv(s) && Quiet(s) && Enabled(s, t, Gc) && 0 <= s.threads[t].tcb
    ensures C.Alone(first, t, Apply(s, t, Gc), s1)
    ensures Enabled(s1, t, Gc) && C.Alone(second, t, Apply(s1, t, Gc), s2)
    ensures AllFreed(s, t, s2)
  {
    first, s1 := QuietCollection(s, t);
    second, s2 := QuietCollection(s1, t);
    BothCollected(s, t, s1, s2);
  }

  lemma Emptied(s: State, j: nat, o: Obj)
    requires Batched(s) && j < |s.tcbs| && s.tcbs[j].batches == [] && o in s.tags && s.tags[o].tcb == j
    ensures o in s.freed
  {
    assert Holds(s.tcbs[j].batches, j, s.tags, s.freed);
  }

  // ---------------------------------------------------------------- entering and registering alone

  /** The block that a call of thread `t` works on: its own, or the fresh one that it is given. */
  function BlockFor(s: State, t: nat): int
    requires t < |s.threads|
  {
    if s.threads[t].tcb < 0 then |s.tcbs| else s.threads[t].tcb
  }

  /** Registering gives a thread without a block a fresh one, and nothing else. */
  lemma RegisterGives(s: State, t: nat)
    requires Enabled(s, t, Register) && -1 <= s.threads[t].tcb
    ensures var s' := Apply(s, t, Register);
            && s'.threads == s.threads[t := s.threads[t].(tcb := BlockFor(s, t))]
            && s'.tcbs == (if s.threads[t].tcb < 0 then s.tcbs + [NEW_TCB] else s.tcbs)
  {
  }

  /** Entering from outside, undisturbed, registers the thread if need be and pins the current epoch. */
  lemma EnterAlone(s: State, t: nat) returns (run: seq<State>, s': State)
    requires Inv(s) && Enabled(s, t, Enter) && s.threads[t].depth == 0
    ensures C.Alone(run, t, Apply(s, t, Enter), s')
    ensures Crit(s', t) && s'.threads[t].depth == 1 && s'.threads[t].pc == Idle
    ensures s'.threads[t].tcb == BlockFor(s, t) && Local(s', t) == s.epoch == s'.epoch
  {
    assert ThreadShape(s, t);
    var s1 := Apply(s, t, Enter);
    var s2 := if s.threads[t].tcb < 0 then Apply(s1, t, Continue) else s1;
    s' := Apply(s2, t, Continue);
    C.AloneFrom(s2, t, [s'], s');
    run := [s2] + [s'];
    if s.threads[t].tcb < 0 {
      C.AloneFrom(s1, t, run, s');
      run := [s1] + run;
    }
  }

  /** Leaving the outermost section takes the pin back. */
  lemma ExitUnpins(s: State, t: nat)
    requires Inv(s) && Enabled(s, t, Exit) && s.threads[t].depth == 1
    ensures var s' := Apply(s, t, Exit);
            && !Crit(s', t) && t < |s'.threads| && s'.threads[t].depth == 0 && Local(s', t) == 0
            && s'.epoch == s.epoch && s'.freed == s.freed
  {
    assert ThreadShape(s, t);
  }
}
