/** What an UnregisterThread inside a critical section costs: a run in which a reader that is still in its critical
    section loses an object that was linked when it published its pin. */
module EpochWitness {
  import opened Prelude
  import opened EpochReclamation
  import opened EpochTheorems
  import S = EpochSafety
  import C = EpochCollector

  /** The run leads from `s` to `s'`. */
  ghost predicate Leads(r: Run, s: State, s': State) {
    && |r.states| == |r.events| + 1 && r.states[0] == s && r.states[|r.events|] == s'
    && forall i :: 0 <= i < |r.events| ==> Steps(r, i)
  }

  /** Only thread `t` moves. */
  ghost predicate Only(r: Run, t: nat) { forall i :: 0 <= i < |r.events| ==> r.events[i].t == t }

  lemma Start(s: State) returns (r: Run)
    ensures Leads(r, s, s) && r.events == []
  {
    r := Run.Run([s], []);
  }

  lemma More(r: Run, s: State, s1: State, t: nat, a: Act) returns (q: Run)
    requires Leads(r, s, s1) && Enabled(s1, t, a)
    ensures Leads(q, s, Apply(s1, t, a)) && q.events == r.events + [Event(t, a)]
    ensures Only(r, t) ==> Only(q, t)
  {
    q := Run.Run(r.states + [Apply(s1, t, a)], r.events + [Event(t, a)]);
    forall i | 0 <= i < |q.events| ensures Steps(q, i) {
      if i < |r.events| { assert Steps(r, i); }
    }
  }

  lemma MoreAlone(r: Run, s: State, s1: State, t: nat, run: seq<State>, s': State) returns (q: Run)
    requires Leads(r, s, s1) && C.Alone(run, t, s1, s')
    ensures Leads(q, s, s') && (Only(r, t) ==> Only(q, t))
  {
    q := Run.Run(r.states + run[1..], r.events + seq(|run| - 1, _ => Event(t, Continue)));
    forall i | 0 <= i < |q.events| ensures Steps(q, i) {
      if i < |r.events| { assert Steps(r, i); } else { assert C.StepsAlone(run, t, i - |r.events|); }
    }
  }

  /** A thread that does not move keeps its record. */
  lemma {:induction false} Untouched(r: Run, s: State, s': State, t: nat, u: nat, m: nat)
    requires Leads(r, s, s') && Only(r, t) && u != t && u < |s.threads| && m < |r.states|
    ensures u < |r.states[m].threads| && r.states[m].threads[u] == s.threads[u]
  {
    if m > 0 {
      Untouched(r, s, s', t, u, m - 1);
      assert Steps(r, m - 1);
    }
  }

  /** A whole collection by a registered thread. */
  lemma MoreGc(r: Run, s: State, s1: State, t: nat) returns (q: Run, s': State)
    requires Leads(r, s, s1) && Enabled(s1, t, Gc) && 0 <= s1.threads[t].tcb
    ensures Leads(q, s, s') && (Only(r, t) ==> Only(q, t))
    ensures C.Collected(s1, t, s', C.ScanMin(s1.tcbs, |s1.tcbs|, s1.epoch))
  {
    var run;
    run, s' := C.GcAlone(s1, t);
    q := More(r, s, s1, t, Gc);
    q := MoreAlone(q, s, Apply(s1, t, Gc), t, run, s');
  }

  const IDLE: Thread := Thread(-1, 0, Idle, None, 0, 0)
  const READER: Thread := Thread(0, 1, Idle, None, 3, 1)

  // Thread 0 is in its critical section.
  const INSIDE: State := State(1, [Tcb(1, true, [])], [READER, IDLE], {}, 4, map[], map[])

  lemma Enters() returns (r: Run)
    ensures Leads(r, Init(2), INSIDE)
  {
    var s := Init(2);
    assert s.threads == [IDLE, IDLE];
    r := Start(s);
    r := More(r, s, s, 0, Enter);
    var s1 := Apply(s, 0, Enter);
    assert s1 == State(1, [NEW_TCB], [Thread(0, 0, Entering, None, 0, 0), IDLE], {}, 2, map[], map[]);
    r := More(r, s, s1, 0, Continue);
    var s2 := Apply(s1, 0, Continue);
    assert s2 == State(1, [NEW_TCB], [Thread(0, 1, Pinning(1), None, 0, 0), IDLE], {}, 3, map[], map[]);
    r := More(r, s, s2, 0, Continue);
    assert Apply(s2, 0, Continue) == INSIDE;
  }

  const GONE: Tcb := Tcb(0, false, [])

  /** Thread 1 unlinks object 7 and, having registered, loads the epoch to retire it in. */
  lemma Unlinks(s: State) returns (r: Run, s': State)
    requires s.epoch == 1 && s.tcbs == [GONE] && s.threads == [READER.(tcb := -1), IDLE] && s.unlinked == map[]
    ensures Leads(r, s, s') && Only(r, 1) && s'.epoch == 1 && |s'.threads| == 2 && s'.tcbs == [GONE, NEW_TCB]
    ensures s'.threads[1] == Thread(1, 0, Retiring(1), Some(7), 0, 0)
  {
    r := Start(s);
    r := More(r, s, s, 1, Unlink(7));
    var s1 := Apply(s, 1, Unlink(7));
    assert s1.threads[1] == Thread(-1, 0, Idle, Some(7), 0, 0) && s1.tcbs == [GONE];
    r := More(r, s, s1, 1, Retire);
    var s2 := Apply(s1, 1, Retire);
    assert s2.tcbs == [GONE, NEW_TCB] && s2.threads[1] == Thread(1, 0, RetireStart, Some(7), 0, 0);
    r := More(r, s, s2, 1, Continue);
    s' := Apply(s2, 1, Continue);
  }

  lemma Retires(s: State) returns (r: Run, s': State)
    requires s.epoch == 1 && s.tcbs == [GONE] && s.threads == [READER.(tcb := -1), IDLE] && s.unlinked == map[]
    ensures Leads(r, s, s') && Only(r, 1) && s'.epoch == 1 && |s'.threads| == 2
    ensures s'.tcbs == [GONE, Tcb(0, true, [Batch(1, [7])])]
    ensures s'.threads[1].tcb == 1 && s'.threads[1].pc == Idle
  {
    var s1;
    r, s1 := Unlinks(s);
    r := More(r, s, s1, 1, Continue);
    s' := Apply(s1, 1, Continue);
    Batches(s1);
  }

  lemma Batches(s: State)
    requires |s.threads| == 2 && s.tcbs == [GONE, NEW_TCB] && s.threads[1] == Thread(1, 0, Retiring(1), Some(7), 0, 0)
    ensures Enabled(s, 1, Continue)
    ensures var s' := Apply(s, 1, Continue);
            && s'.tcbs == [GONE, Tcb(0, true, [Batch(1, [7])])] && s'.epoch == s.epoch && |s'.threads| == 2
            && s'.threads[1].tcb == 1 && s'.threads[1].pc == Idle
  {
    assert Push([], 1, 7) == [Batch(1, [7])];
  }

  /** Two collections free it: the first moves the epoch on, the second finds nothing that holds it back. */
  lemma Collects(r: Run, s: State, s1: State) returns (q: Run, s': State)
    requires Leads(r, s, s1) && Only(r, 1) && s1.epoch == 1 && |s1.threads| == 2
    requires s1.tcbs == [GONE, Tcb(0, true, [Batch(1, [7])])]
    requires s1.threads[1].tcb == 1 && s1.threads[1].pc == Idle
    ensures Leads(q, s, s') && Only(q, 1) && 7 in s'.freed
  {
    var s2;
    q, s2 := MoreGc(r, s, s1, 1);
    assert C.ScanMin(s1.tcbs, 2, 1) == C.ScanMin(s1.tcbs, 1, 1) == 1;
    assert C.Kept([Batch(1, [7])], 1) == [Batch(1, [7])];
    assert s2.tcbs == s1.tcbs;
    q, s' := MoreGc(q, s, s2, 1);
    assert C.ScanMin(s2.tcbs, 2, 2) == C.ScanMin(s2.tcbs, 1, 2) == 2;
    assert C.Dropped([Batch(1, [7])], 2) == [7];
  }

  /**
   A reader enters and publishes its pin; object `o` is linked.  The reader unregisters, without leaving.  Another
   thread unlinks `o`, retires it and collects twice, and `o` is freed.  All the while the reader is in its critical
   section, so `GracePeriod` does not survive an UnregisterThread that does not look at critical_depth.
   */
  lemma UnregisteredReaderExposed() returns (r: Run, q: Run, s: State, s': State, o: Obj)
    ensures Leads(r, Init(2), s) && Crit(s, 0) && o !in s.unlinked
    ensures s.threads[0].pc == Idle && 0 <= s.threads[0].tcb < |s.tcbs|
    ensures Leads(q, S.Unregistered(s, 0), s') && Only(q, 1) && o in s'.freed
    ensures forall m :: 0 <= m < |q.states| ==>
            Crit(q.states[m], 0) && q.states[m].threads[0].pinTime == s.threads[0].pinTime
  {
    r := Enters();
    s, o := INSIDE, 7;
    var s1 := S.Unregistered(s, 0);
    assert s1.tcbs == [GONE] && s1.threads == [READER.(tcb := -1), IDLE];
    var s2;
    q, s2 := Retires(s1);
    q, s' := Collects(q, s1, s2);
    forall m | 0 <= m < |q.states|
      ensures Crit(q.states[m], 0) && q.states[m].threads[0].pinTime == s.threads[0].pinTime
    {
      Untouched(q, s1, s', 1, 0, m);
    }
  }
}
