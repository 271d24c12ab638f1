/** Who holds a reader slot of the broadcast ring, over whole runs: a slot counts its registrations, and only a reader
    that registered and has not let go of its slot can make the producer wait. */
module BroadcastSlots {
  import opened Prelude
  import opened BroadcastFrame
  import opened BroadcastRing
  import opened BroadcastTheorems

  predicate Takes(s: State, a: Act, k: nat) {
    a.Register? && Enabled(s, a) && k < SLOTS && FreeSlot(s.slots, 0) == k
  }

  /** How often the first `n` steps have registered a reader in slot `k`. */
  function Taken(r: Run, n: nat, k: nat): nat
    requires n <= |r.acts| && |r.states| == |r.acts| + 1
  {
    if n == 0 then 0 else Taken(r, n - 1, k) + if Takes(r.states[n - 1], r.acts[n - 1], k) then 1 else 0
  }

  lemma StepGen(s: State, a: Act, k: nat)
    requires Enabled(s, a) && k < SLOTS
    ensures WellSized(Apply(s, a))
    ensures Apply(s, a).slots[k].gen == (if Takes(s, a, k) then (s.slots[k].gen + 1) % U32 else s.slots[k].gen)
  {
  }

  /** The generation of a slot is the number of its registrations, modulo 2^32. */
  lemma {:induction false} GenCounts(r: Run, n: nat, k: nat)
    requires Runs(r) && n <= |r.acts| && k < SLOTS
    ensures k < |r.states[n].slots| && r.states[n].slots[k].gen == Taken(r, n, k) % U32
  {
    if n == 0 {
      var ring: Ring, m: nat :| ring != [] && r.states[0] == Init(ring, m);
    } else {
      GenCounts(r, n - 1, k);
      assert Steps(r, n - 1);
      StepGen(r.states[n - 1], r.acts[n - 1], k);
    }
  }

  /** Since step `i` reader `t` has not registered. */
  ghost predicate NotAgain(r: Run, i: nat, j: nat, t: nat) {
    forall m :: i <= m < j && m < |r.acts| && r.acts[m].Register? ==> r.acts[m].t != t
  }

  lemma {:induction false} GenHeld(r: Run, i: nat, j: nat, t: nat)
    requires Runs(r) && i <= j <= |r.acts| && t < |r.states[i].readers| && NotAgain(r, i, j, t)
    ensures t < |r.states[j].readers| && r.states[j].readers[t].gen == r.states[i].readers[t].gen
    ensures r.states[j].readers[t].slot in {None, r.states[i].readers[t].slot}
    decreases j - i
  {
    if i < j {
      GenHeld(r, i, j - 1, t);
      assert Steps(r, j - 1);
      assert r.acts[j - 1].Register? ==> r.acts[j - 1].t != t;
      StepHolds(r.states[j - 1], r.acts[j - 1], t);
    }
  }

  lemma StepHolds(s: State, a: Act, t: nat)
    requires Enabled(s, a) && t < |s.readers| && (a.Register? ==> a.t != t)
    ensures t < |Apply(s, a).readers| && Apply(s, a).readers[t].gen == s.readers[t].gen
    ensures Apply(s, a).readers[t].slot in {None, s.readers[t].slot}
  {
    if a.Read? { ReadHolds(s, a.t, t); }
  }

  lemma ReadHolds(s: State, u: nat, t: nat)
    requires Enabled(s, Read(u)) && t < |s.readers|
    ensures t < |Apply(s, Read(u)).readers| && Apply(s, Read(u)).readers[t].gen == s.readers[t].gen
    ensures Apply(s, Read(u)).readers[t].slot in {None, s.readers[t].slot}
  {
    if u != t { assert Apply(s, Read(u)).readers[t] == s.readers[t]; }
  }

  lemma SameResidueIff(a: int, b: int)
    ensures (a - b) % U32 == 0 <==> a % U32 == b % U32
  {
  }

  /** Step `i` registers reader `t` in slot `k`. */
  ghost predicate RegistersIn(r: Run, i: nat, t: nat, k: nat) {
    && i < |r.acts| && |r.states| == |r.acts| + 1 && Takes(r.states[i], r.acts[i], k) && r.acts[i].t == t
  }

  /** In step `j` reader `t` makes the generation test of an Advance. */
  ghost predicate ChecksAt(r: Run, j: nat, t: nat) {
    && j < |r.acts| && |r.states| == |r.acts| + 1 && r.acts[j] == Read(t)
    && t < |r.states[j].readers| && r.states[j].readers[t].pc == RCheck
  }

  lemma RegisterShows(s: State, a: Act, k: nat)
    requires Takes(s, a, k)
    ensures WellSized(Apply(s, a)) && a.t < |Apply(s, a).readers|
    ensures var s' := Apply(s, a);
            s'.readers[a.t].slot == Some(k) && s'.readers[a.t].gen == s'.slots[k].gen
  {
  }

  lemma CheckShows(s: State, t: nat, k: nat)
    requires Enabled(s, Read(t)) && s.readers[t].pc == RCheck && s.readers[t].slot in {None, Some(k)}
    ensures k < |s.slots| && Apply(s, Read(t)).slots == s.slots && t < |Apply(s, Read(t)).readers|
    ensures var rd := Apply(s, Read(t)).readers[t];
            if s.slots[k].gen == s.readers[t].gen then rd.pc == RStore && rd.slot == Some(k)
            else rd.pc == RIdle && rd.slot == None
  {
  }

  /**
   A reader registers in slot `k` in step `i` and makes the generation test of an Advance in step `j`.  It passes iff
   the number of readers registered in that slot since is a multiple of 2^32; otherwise the reader lets go of the slot.
   No slot changes.
   */
  lemma TurnedAwayIff(r: Run, i: nat, j: nat, t: nat, k: nat)
    requires Runs(r) && RegistersIn(r, i, t, k) && i < j && ChecksAt(r, j, t) && NotAgain(r, i + 1, j, t)
    ensures r.states[j + 1].slots == r.states[j].slots && t < |r.states[j + 1].readers|
    ensures var rd := r.states[j + 1].readers[t];
            if (Taken(r, j, k) - Taken(r, i + 1, k)) % U32 == 0 then rd.pc == RStore && rd.slot == Some(k)
            else rd.pc == RIdle && rd.slot == None
  {
    assert Steps(r, i) && Steps(r, j);
    RegisterShows(r.states[i], r.acts[i], k);
    GenCounts(r, i + 1, k);
    GenCounts(r, j, k);
    GenHeld(r, i + 1, j, t);
    CheckShows(r.states[j], t, k);
    SameResidueIff(Taken(r, j, k), Taken(r, i + 1, k));
  }

  // ---------------------------------------------------------------- active slots

  /** An active slot is that of the reader that registered in it last, which has not let go of it. */
  ghost predicate Held(s: State, k: nat)
    requires k < |s.slots|
  {
    s.slots[k].active ==>
      && s.slots[k].owner.Some? && s.slots[k].owner.value < |s.readers|
      && var rd := s.readers[s.slots[k].owner.value];
         rd.slot == Some(k) && rd.gen == s.slots[k].gen
  }

  lemma HeldKept(s: State, a: Act, k: nat)
    requires Enabled(s, a) && k < SLOTS && Held(s, k)
    ensures WellSized(Apply(s, a)) && Held(Apply(s, a), k)
  {
    if a.Read? { HeldByReads(s, a.t, k); }
    else if a.Register? || a.Unregister? { HeldByTakes(s, a, k); }
  }

  lemma HeldByReads(s: State, t: nat, k: nat)
    requires Enabled(s, Read(t)) && k < SLOTS && Held(s, k)
    ensures WellSized(Apply(s, Read(t))) && Held(Apply(s, Read(t)), k)
  {
    var s' := Apply(s, Read(t));
    assert forall u :: 0 <= u < |s.readers| && u != t ==> s'.readers[u] == s.readers[u];
  }

  lemma HeldByTakes(s: State, a: Act, k: nat)
    requires Enabled(s, a) && (a.Register? || a.Unregister?) && k < SLOTS && Held(s, k)
    ensures WellSized(Apply(s, a)) && Held(Apply(s, a), k)
  {
  }

  /**
   In every run an active slot, which the producer waits for, belongs to a reader that registered in it, has
   neither unregistered nor been turned away since, and has the slot's generation.
   */
  lemma {:induction false} ActiveIsHeld(r: Run, n: nat, k: nat)
    requires Runs(r) && n <= |r.acts| && k < SLOTS
    ensures k < |r.states[n].slots| && Held(r.states[n], k)
  {
    if n == 0 {
      var ring: Ring, m: nat :| ring != [] && r.states[0] == Init(ring, m);
    } else {
      ActiveIsHeld(r, n - 1, k);
      assert Steps(r, n - 1);
      HeldKept(r.states[n - 1], r.acts[n - 1], k);
    }
  }
}
