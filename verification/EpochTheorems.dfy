/** What every run of epoch-based reclamation guarantees to any clients: a grace period, one delete per object, and
    an epoch that a published pin holds back. */
module EpochTheorems {
  import opened Prelude
  import opened EpochReclamation
  import opened EpochSafety

  datatype Event = Event(t: nat, a: Act)

  // `states[i]` is the state before event `i`.
  datatype Run = Run(states: seq<State>, events: seq<Event>)

  /** Any interleaving of any number of threads that enter, leave, unlink, retire, collect and come and go. */
  ghost predicate Runs(r: Run) {
    && |r.states| == |r.events| + 1
    && (exists n: nat :: r.states[0] == Init(n))
    && forall i :: 0 <= i < |r.events| ==> Steps(r, i)
  }

  ghost predicate Steps(r: Run, i: nat)
    requires i < |r.events| && |r.states| == |r.events| + 1
  {
    && Enabled(r.states[i], r.events[i].t, r.events[i].a)
    && r.states[i + 1] == Apply(r.states[i], r.events[i].t, r.events[i].a)
  }

  lemma {:induction false} RunInv(r: Run, i: nat)
    requires Runs(r) && i < |r.states|
    ensures Inv(r.states[i])
  {
    if i == 0 {
      var n: nat :| r.states[0] == Init(n);
      InitInv(n);
    } else {
      RunInv(r, i - 1);
      assert Steps(r, i - 1);
      StepInv(r.states[i - 1], r.events[i - 1].t, r.events[i - 1].a);
    }
  }

  // ---------------------------------------------------------------- one critical section

  /** In event `i` thread `t` publishes its local epoch, and from then to state `j` it stays in its critical section. */
  ghost predicate PinnedSince(r: Run, i: nat, j: nat, t: nat) {
    && Runs(r) && i < j < |r.states| && r.events[i] == Event(t, Continue)
    && t < |r.states[i].threads| && r.states[i].threads[t].pc.Pinning?
    && forall m :: i < m <= j && m < |r.states| ==> Crit(r.states[m], t)
  }

  lemma PinStays(s: State, u: nat, a: Act, t: nat)
    requires Shape(s) && Enabled(s, u, a) && Crit(s, t) && Crit(Apply(s, u, a), t)
    ensures var th, th' := s.threads[t], Apply(s, u, a).threads[t];
            th'.pinEpoch == th.pinEpoch && th'.pinTime == th.pinTime
  {
  }

  lemma {:induction false} PinSince(r: Run, i: nat, j: nat, t: nat)
    requires PinnedSince(r, i, j, t)
    ensures Crit(r.states[j], t)
    ensures r.states[j].threads[t].pinEpoch == r.states[i].epoch && r.states[j].threads[t].pinTime == r.states[i].now
  {
    assert Steps(r, i) && Steps(r, j - 1);
    if j > i + 1 {
      PinSince(r, i, j - 1, t);
      RunInv(r, j - 1);
      PinStays(r.states[j - 1], r.events[j - 1].t, r.events[j - 1].a, t);
    }
  }

  /** Whatever is unlinked between two states is stamped with a time between them. */
  lemma {:induction false} UnlinkedSince(r: Run, i: nat, j: nat, o: Obj)
    requires Runs(r) && i <= j < |r.states| && o !in r.states[i].unlinked
    ensures r.states[i].now <= r.states[j].now
    ensures o in r.states[j].unlinked ==> r.states[i].now <= r.states[j].unlinked[o].time
  {
    if i < j {
      UnlinkedSince(r, i, j - 1, o);
      assert Steps(r, j - 1);
      var s, t, a := r.states[j - 1], r.events[j - 1].t, r.events[j - 1].a;
      if o in s.unlinked { UnlinkedGrows(s, t, a, o); }
    }
  }

  /**
   The grace period: whatever was still linked when a thread published its local epoch is not freed before that
   thread leaves its critical section, whoever unlinks it, retires it and collects meanwhile.
   */
  lemma GracePeriod(r: Run, i: nat, j: nat, t: nat, o: Obj)
    requires PinnedSince(r, i, j, t) && o !in r.states[i].unlinked
    ensures o !in r.states[j].freed
  {
    PinSince(r, i, j, t);
    UnlinkedSince(r, i, j, o);
    RunInv(r, j);
    assert r.states[j].freed <= r.states[j].tags.Keys;
  }

  /**
   From the step in which a thread publishes its local epoch until it leaves its critical section, the global
   epoch rises by at most one, however many collections are already part way through their scans.
   */
  lemma EpochMovesOnce(r: Run, i: nat, j: nat, t: nat)
    requires PinnedSince(r, i, j, t)
    ensures r.states[i].epoch <= r.states[j].epoch <= r.states[i].epoch + 1
  {
    PinSince(r, i, j, t);
    RunInv(r, j);
    assert Pinned(r.states[j], t);
  }

  /** In event `i` thread `t`, entering, loads the global epoch, and up to state `j` it has not left again. */
  ghost predicate EnteredSince(r: Run, i: nat, j: nat, t: nat) {
    && Runs(r) && i < j < |r.states| && r.events[i].t == t && t < |r.states[i].threads|
    && !r.states[i].threads[t].pc.Pinning? && PinningAt(r.states[i + 1], t)
    && forall m :: i < m <= j && m < |r.states| ==> PinningAt(r.states[m], t) || Crit(r.states[m], t)
  }

  predicate PinningAt(s: State, t: nat) { t < |s.threads| && s.threads[t].pc.Pinning? }

  lemma PinHolds(s: State, u: nat, a: Act, t: nat)
    requires Shape(s) && Enabled(s, u, a) && (PinningAt(s, t) || Crit(s, t))
    requires PinningAt(Apply(s, u, a), t) || Crit(Apply(s, u, a), t)
    ensures var s' := Apply(s, u, a);
            if PinningAt(s, t) then
              if PinningAt(s', t) then s'.threads[t].pc.e == s.threads[t].pc.e else Local(s', t) == s.threads[t].pc.e
            else Crit(s', t) && !PinningAt(s', t) && Local(s', t) == Local(s, t)
  {
    assert ThreadShape(s, t) && ThreadShape(s, u);
    if u != t { OthersPin(s, u, StepOf(s, u, a), t); }
    else if !IsPin(s, t, a) { StepNoNewPin(s, t, a); }
  }

  /** The pin that a critical section publishes, and shows until it ends, is the global epoch that its thread loaded
      on entering: objects retired in earlier epochs are not held back by it. */
  lemma {:induction false} PinIsLoadedEpoch(r: Run, i: nat, j: nat, t: nat)
    requires EnteredSince(r, i, j, t)
    ensures if PinningAt(r.states[j], t) then r.states[j].threads[t].pc.e == r.states[i].epoch
            else Local(r.states[j], t) == r.states[i].epoch
  {
    assert Steps(r, j - 1);
    if j > i + 1 {
      PinIsLoadedEpoch(r, i, j - 1, t);
      RunInv(r, j - 1);
      PinHolds(r.states[j - 1], r.events[j - 1].t, r.events[j - 1].a, t);
    }
  }

  // ---------------------------------------------------------------- nesting

  /** How often thread `t` has made call `a` in the first `n` events. */
  function Calls(r: Run, n: nat, t: nat, a: Act): nat
    requires n <= |r.events|
  {
    if n == 0 then 0 else Calls(r, n - 1, t, a) + if r.events[n - 1] == Event(t, a) then 1 else 0
  }

  lemma {:induction false} DepthCounts(r: Run, n: nat, t: nat)
    requires Runs(r) && n <= |r.events| && t < |r.states[n].threads|
    ensures r.states[n].threads[t].depth + (if r.states[n].threads[t].pc.Entering? then 1 else 0)
            == Calls(r, n, t, Enter) - Calls(r, n, t, Exit)
  {
    if n > 0 {
      assert Steps(r, n - 1);
      DepthCounts(r, n - 1, t);
      RunInv(r, n - 1);
      assert ThreadShape(r.states[n - 1], t);
      if r.events[n - 1].t == t { DepthStep(r.states[n - 1], t, r.events[n - 1].a); }
    }
  }

  lemma DepthStep(s: State, t: nat, a: Act)
    requires Enabled(s, t, a) && ThreadShape(s, t)
    ensures
      var th, th' := s.threads[t], Apply(s, t, a).threads[t];
      th'.depth + (if th'.pc.Entering? then 1 else 0) ==
      th.depth + (if th.pc.Entering? then 1 else 0) + (if a == Enter then 1 else if a == Exit then -1 else 0)
  {
  }

  /**
   Sections nest: a thread is in its critical section exactly while it has entered more often than it has left and
   its pin is stored, so leaving an inner section never ends the outer one.
   */
  lemma InsideIff(r: Run, n: nat, t: nat)
    requires Runs(r) && n <= |r.events| && t < |r.states[n].threads|
    ensures Crit(r.states[n], t) <==>
            && Calls(r, n, t, Enter) > Calls(r, n, t, Exit)
            && !r.states[n].threads[t].pc.Entering? && !r.states[n].threads[t].pc.Pinning?
  {
    DepthCounts(r, n, t);
    RunInv(r, n);
    assert ThreadShape(r.states[n], t);
  }

  // ---------------------------------------------------------------- each object is deleted once

  /** The object a step passes to `delete`, if any. */
  function Deleted(s: State, t: nat, a: Act): Option<Obj> {
    if WellPlaced(s, t) && a == Continue && s.threads[t].pc.GcSweep? && s.threads[t].tcb >= 0 then
      var pc, bs := s.threads[t].pc, Own(s, t).batches;
      if pc.at < |bs| && bs[pc.at].epoch < pc.min && bs[pc.at].nodes != [] then Some(bs[pc.at].nodes[0]) else None
    else None
  }

  lemma FreedByDelete(s: State, t: nat, a: Act)
    requires Enabled(s, t, a)
    ensures Apply(s, t, a).freed == s.freed + (if Deleted(s, t, a) == None then {} else {Deleted(s, t, a).value})
  {
    FreedGrows(s, t, a);
  }

  /** What is deleted has been retired and not been deleted. */
  lemma DeletedIsHeld(s: State, t: nat, a: Act, o: Obj)
    requires Tags(s) && Batched(s) && Deleted(s, t, a) == Some(o)
    ensures o in s.tags && o in s.unlinked && o !in s.freed
  {
    var k, at := s.threads[t].tcb, s.threads[t].pc.at;
    assert Holds(s.tcbs[k].batches, k, s.tags, s.freed);
    assert At(s.tcbs[k].batches, at, 0, o);
  }

  lemma {:induction false} FreedForEver(r: Run, i: nat, j: nat)
    requires Runs(r) && i <= j < |r.states|
    ensures r.states[i].freed <= r.states[j].freed
    decreases j - i
  {
    if i < j {
      FreedForEver(r, i, j - 1);
      assert Steps(r, j - 1);
      FreedGrows(r.states[j - 1], r.events[j - 1].t, r.events[j - 1].a);
    }
  }

  ghost predicate DeletesAt(r: Run, i: nat, o: Obj)
    requires i < |r.events| && |r.states| == |r.events| + 1
  {
    Deleted(r.states[i], r.events[i].t, r.events[i].a) == Some(o)
  }

  /** No object is deleted twice, also when several threads collect at once and blocks outlive their threads. */
  lemma DeletedOnce(r: Run, i: nat, j: nat, o: Obj)
    requires Runs(r) && i < j < |r.events| && DeletesAt(r, i, o)
    ensures !DeletesAt(r, j, o)
  {
    assert Steps(r, i);
    FreedByDelete(r.states[i], r.events[i].t, r.events[i].a);
    FreedForEver(r, i + 1, j);
    RunInv(r, j);
    if DeletesAt(r, j, o) { DeletedIsHeld(r.states[j], r.events[j].t, r.events[j].a, o); }
  }
}
