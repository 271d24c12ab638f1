/** A Get gives back the pin that it takes: whoever calls it from outside a critical section holds back no memory once
    it has its result. */
module RcuPins {
  import opened RcuMemory
  import opened RcuMachine
  import opened RcuTheorems
  import E = EpochReclamation
  import ET = EpochTheorems

  /** The critical sections thread `t` is in, counting one it is about to enter. */
  function Depth(e: E.State, t: nat): nat
    requires t < |e.threads|
  {
    e.threads[t].depth + if e.threads[t].pc.Entering? then 1 else 0
  }

  lemma OthersDepth(e: E.State, u: nat, a: E.Act, t: nat)
    requires E.Enabled(e, u, a) && t < |e.threads| && u != t
    ensures |E.Apply(e, u, a).threads| == |e.threads| && E.Apply(e, u, a).threads[t] == e.threads[t]
  {
  }

  /** Steps of the other threads. */
  lemma OthersStep(s: State, u: nat, a: Act, t: nat)
    requires Enabled(s, u, a) && t < |s.ebr.threads| && u != t
    ensures |Apply(s, u, a).ebr.threads| == |s.ebr.threads|
    ensures Apply(s, u, a).ebr.threads[t] == s.ebr.threads[t]
  {
    match a
    case Ebr(e) => OthersDepth(s.ebr, u, e, t);
    case CallGet(_) => OthersDepth(s.ebr, u, E.Enter, t);
    case Go =>
      if s.ops[u].GetLeave? { OthersDepth(s.ebr, u, E.Exit, t); }
      else if s.ops[u].Locked() && Victim(s, u) != 0 { OthersDepth(s.ebr, u, E.Unlink(Victim(s, u)), t); }
    case _ =>
  }

  /** A reader's own steps: the last one of the walk leaves the section, the others change no depth. */
  lemma OwnStep(s: State, t: nat, a: Act, k: Key, start: nat)
    requires Enabled(s, t, a) && t < |s.ebr.threads| && E.ThreadShape(s.ebr, t) && InGet(s.ops[t], k, start)
    ensures t < |Apply(s, t, a).ebr.threads|
    ensures Depth(Apply(s, t, a).ebr, t) == Depth(s.ebr, t) - if a == Go && s.ops[t].GetLeave? then 1 else 0
  {
    match a
    case Ebr(e) => ET.DepthStep(s.ebr, t, e);
    case Go => if s.ops[t].GetLeave? { ET.DepthStep(s.ebr, t, E.Exit); }
    case _ =>
  }

  /** What the call still owes. */
  function Owed(op: Op): nat { if op.GetDone? then 0 else 1 }

  lemma DepthAt(r: Run, i: nat, j: nat, t: nat, k: Key, start: nat)
    requires Runs(r) && i < j < |r.events| && t < |r.states[j].ops| && InGet(r.states[j].ops[t], k, start)
    requires t < |r.states[j].ebr.threads| && NoReturn(r, i, j + 1, t)
    ensures t < |r.states[j + 1].ops| && t < |r.states[j + 1].ebr.threads|
    ensures Depth(r.states[j + 1].ebr, t) - Owed(r.states[j + 1].ops[t])
            == Depth(r.states[j].ebr, t) - Owed(r.states[j].ops[t])
  {
    var s, u, a := r.states[j], r.events[j].t, r.events[j].a;
    assert Steps(r, j);
    if u != t {
      OthersOps(s, u, a, t);
      OthersStep(s, u, a, t);
    } else {
      RunShape(r, j, t);
      OwnStep(s, t, a, k, start);
    }
  }

  lemma RunShape(r: Run, j: nat, t: nat)
    requires Runs(r) && j < |r.states| && t < |r.states[j].ebr.threads|
    ensures E.ThreadShape(r.states[j].ebr, t) && E.Pinned(r.states[j].ebr, t)
  {
    RunInv(r, j);
  }

  lemma CallDepth(r: Run, i: nat, t: nat, k: Key)
    requires Runs(r) && i < |r.events| && r.events[i] == Event(t, CallGet(k))
    ensures t < |r.states[i].ebr.threads| && t < |r.states[i + 1].ebr.threads| && t < |r.states[i + 1].ops|
    ensures r.states[i + 1].ops[t].GetEntered?
    ensures Depth(r.states[i + 1].ebr, t) == Depth(r.states[i].ebr, t) + 1
  {
    assert Steps(r, i);
    RunShape(r, i, t);
    ET.DepthStep(r.states[i].ebr, t, E.Enter);
  }

  lemma {:induction false} DepthDuring(r: Run, i: nat, j: nat, t: nat, k: Key)
    requires Runs(r) && i < j < |r.states| && r.events[i] == Event(t, CallGet(k)) && NoReturn(r, i, j, t)
    ensures t < |r.states[i].ebr.threads| && t < |r.states[j].ebr.threads| && t < |r.states[j].ops|
    ensures Depth(r.states[j].ebr, t) == Depth(r.states[i].ebr, t) + Owed(r.states[j].ops[t])
  {
    if j == i + 1 {
      CallDepth(r, i, t, k);
    } else {
      DepthDuring(r, i, j - 1, t, k);
      GetContinues(r, i, j - 1, t, k);
      DepthAt(r, i, j - 1, t, k, |r.states[i].log| - 1);
    }
  }

  /** In every run a Get that has its result has left the section it entered, and no other.  Called from outside any,
      it leaves its thread with no pin published. */
  lemma GetGivesBack(r: Run, i: nat, j: nat, t: nat, k: Key)
    requires Runs(r) && i < j < |r.states| && r.events[i] == Event(t, CallGet(k)) && NoReturn(r, i, j, t)
    requires t < |r.states[j].ops| && r.states[j].ops[t].GetDone?
    ensures t < |r.states[i].ebr.threads| && t < |r.states[j].ebr.threads|
    ensures r.states[j].ebr.threads[t].depth == r.states[i].ebr.threads[t].depth
    ensures r.states[i].ebr.threads[t].depth == 0 ==>
              !E.Crit(r.states[j].ebr, t) && E.Local(r.states[j].ebr, t) == 0
  {
    assert Steps(r, i);
    DepthDuring(r, i, j, t, k);
    NotEntering(r, i, j, t, k);
    RunShape(r, j, t);
  }

  lemma IdleStep(s: State, u: nat, a: Act, t: nat, k: Key, start: nat)
    requires Enabled(s, u, a) && t < |s.ops| && t < |s.ebr.threads| && InGet(s.ops[t], k, start)
    requires s.ops[t].GetEntered? || s.ebr.threads[t].pc == E.Idle
    ensures t < |Apply(s, u, a).ops| && t < |Apply(s, u, a).ebr.threads|
    ensures Apply(s, u, a).ops[t].GetEntered? || Apply(s, u, a).ebr.threads[t].pc == E.Idle
  {
    if u != t {
      OthersOps(s, u, a, t);
      OthersStep(s, u, a, t);
    }
  }

  /** After the entry the thread is in its section or has left it. */
  lemma {:induction false} NotEntering(r: Run, i: nat, j: nat, t: nat, k: Key)
    requires Runs(r) && i < j < |r.states| && r.events[i] == Event(t, CallGet(k)) && NoReturn(r, i, j, t)
    ensures t < |r.states[j].ops| && t < |r.states[j].ebr.threads|
    ensures r.states[j].ops[t].GetEntered? || r.states[j].ebr.threads[t].pc == E.Idle
  {
    if j == i + 1 {
      CallDepth(r, i, t, k);
    } else {
      NotEntering(r, i, j - 1, t, k);
      GetContinues(r, i, j - 1, t, k);
      IdleAt(r, j - 1, t, k, |r.states[i].log| - 1);
    }
  }

  lemma IdleAt(r: Run, j: nat, t: nat, k: Key, start: nat)
    requires Runs(r) && j < |r.events| && t < |r.states[j].ops| && t < |r.states[j].ebr.threads|
    requires InGet(r.states[j].ops[t], k, start)
    requires r.states[j].ops[t].GetEntered? || r.states[j].ebr.threads[t].pc == E.Idle
    ensures t < |r.states[j + 1].ops| && t < |r.states[j + 1].ebr.threads|
    ensures r.states[j + 1].ops[t].GetEntered? || r.states[j + 1].ebr.threads[t].pc == E.Idle
  {
    assert Steps(r, j);
    IdleStep(r.states[j], r.events[j].t, r.events[j].a, t, k, start);
  }
}
