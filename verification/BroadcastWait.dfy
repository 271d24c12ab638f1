/** The wait loop of Reserve (common/shared_memory/broadcast_ring_buffer.cc): one pass over the reader slots as a
    loop, when it lets the producer go on, and what the readers have to do until it does. */
module BroadcastWait {
  import opened BroadcastFrame
  import opened BroadcastRing
  import opened BroadcastSafety

  predicate Stale(heartbeat: int, now: int, timeout: int) { now - heartbeat > timeout }

  /** The slots after a pass: stale readers are evicted. */
  function Swept(slots: seq<Slot>, heartbeats: seq<int>, now: int, timeout: int): (r: seq<Slot>)
    requires |slots| == |heartbeats|
    ensures |r| == |slots|
    ensures forall i :: 0 <= i < |slots| ==>
      r[i] == if Stale(heartbeats[i], now, timeout) then slots[i].(active := false) else slots[i]
  {
    seq(|slots|, i requires 0 <= i < |slots| =>
      if Stale(heartbeats[i], now, timeout) then slots[i].(active := false) else slots[i])
  }

  /** The smallest cursor of the active readers among the slots, or `target` if none is smaller. */
  function Lowest(slots: seq<Slot>, target: nat): (low: nat)
    ensures low <= target
    ensures forall i :: 0 <= i < |slots| && slots[i].active ==> low <= slots[i].cursor
    ensures low == target || exists i :: 0 <= i < |slots| && slots[i].active && slots[i].cursor == low
  {
    if slots == [] then target
    else
      var last := slots[|slots| - 1];
      var low := Lowest(slots[..|slots| - 1], target);
      if last.active && last.cursor < low then last.cursor else low
  }

  method ScanReaders(slots: array<Slot>, heartbeats: array<int>, now: int, timeout: int, target: nat) returns (low: nat)
    requires slots.Length == heartbeats.Length
    modifies slots
    ensures slots[..] == Swept(old(slots[..]), heartbeats[..], now, timeout)
    ensures low == Lowest(slots[..], target)
  {
    low := target;
    ghost var swept := Swept(slots[..], heartbeats[..], now, timeout);
    var i := 0;
    while i < slots.Length
      invariant i <= slots.Length
      invariant forall j :: 0 <= j < i ==> slots[j] == swept[j]
      invariant forall j :: i <= j < slots.Length ==> slots[j] == old(slots[j])
      invariant low == Lowest(slots[..i], target)
    {
      if slots[i].active {
        if now - heartbeats[i] > timeout {
          slots[i] := slots[i].(active := false);
        } else {
          var rc := slots[i].cursor;
          if rc < low { low := rc; }
        }
      }
      assert slots[i] == swept[i];
      assert slots[..i + 1][..i] == slots[..i];
      i := i + 1;
    }
    assert slots[..i] == slots[..];
  }

  /** The producer may go on exactly when no active reader is more than one capacity behind its target. */
  lemma ExitsIff(slots: seq<Slot>, target: nat, cap: nat)
    ensures target - Lowest(slots, target) <= cap
            <==> forall i :: 0 <= i < |slots| && slots[i].active ==> target - slots[i].cursor <= cap
  {
    var low := Lowest(slots, target);
    if low != target {
      var i :| 0 <= i < |slots| && slots[i].active && slots[i].cursor == low;
    }
  }

  /** How far the active readers are behind the target, together. */
  function Lag(slots: seq<Slot>, target: nat): nat {
    if slots == [] then 0
    else Lag(slots[..|slots| - 1], target) + Behind(slots[|slots| - 1], target)
  }

  function Behind(slot: Slot, target: nat): nat {
    if slot.active && slot.cursor < target then target - slot.cursor else 0
  }

  lemma {:induction false} LagUpdate(slots: seq<Slot>, target: nat, i: nat, slot: Slot)
    requires i < |slots|
    ensures Lag(slots[i := slot], target) == Lag(slots, target) - Behind(slots[i], target) + Behind(slot, target)
    ensures Behind(slots[i], target) <= Lag(slots, target)
  {
    var n := |slots| - 1;
    if i < n {
      LagUpdate(slots[..n], target, i, slot);
      assert slots[i := slot][..n] == slots[..n][i := slot];
    } else {
      assert slots[i := slot][..n] == slots[..n];
    }
  }

  /** An Advance by `bytes` of a reader that stays at or below the target takes exactly that much off the lag. */
  lemma AdvanceDropsLag(slots: seq<Slot>, target: nat, i: nat, bytes: nat)
    requires i < |slots| && slots[i].active && slots[i].cursor + bytes <= target
    ensures Lag(slots[i := slots[i].(cursor := slots[i].cursor + bytes)], target) == Lag(slots, target) - bytes
  {
    LagUpdate(slots, target, i, slots[i].(cursor := slots[i].cursor + bytes));
  }

  /** An eviction takes off all of the evicted reader's lag. */
  lemma EvictionDropsLag(slots: seq<Slot>, target: nat, i: nat)
    requires i < |slots| && slots[i].active
    ensures Lag(slots[i := slots[i].(active := false)], target) == Lag(slots, target) - Behind(slots[i], target)
  {
    LagUpdate(slots, target, i, slots[i].(active := false));
  }

  /** Readers together at most one capacity behind let the producer go on. */
  lemma SmallLagExits(slots: seq<Slot>, target: nat, cap: nat)
    requires Lag(slots, target) <= cap
    ensures target - Lowest(slots, target) <= cap
  {
    forall i | 0 <= i < |slots| && slots[i].active ensures target - slots[i].cursor <= cap {
      LagUpdate(slots, target, i, slots[i]);
    }
    ExitsIff(slots, target, cap);
  }

  // What readers still behind do while the producer waits.
  datatype Move = Gains(i: nat, bytes: nat) | Evicted(i: nat)

  predicate CanMove(slots: seq<Slot>, target: nat, m: Move) {
    && m.i < |slots| && slots[m.i].active && slots[m.i].cursor < target
    && (m.Gains? ==> 0 < m.bytes && slots[m.i].cursor + m.bytes <= target)
  }

  function Moved(slots: seq<Slot>, m: Move): seq<Slot>
    requires m.i < |slots|
  {
    match m
    case Gains(i, bytes) => slots[i := slots[i].(cursor := slots[i].cursor + bytes)]
    case Evicted(i) => slots[i := slots[i].(active := false)]
  }

  /** Some moves, one after the other, lead from one roster to another. */
  ghost predicate Waits(was: seq<Slot>, target: nat, moves: seq<Move>, now: seq<Slot>)
    decreases |moves|
  {
    if moves == [] then now == was
    else CanMove(was, target, moves[0]) && Waits(Moved(was, moves[0]), target, moves[1..], now)
  }

  lemma MoveDrops(slots: seq<Slot>, target: nat, m: Move)
    requires CanMove(slots, target, m)
    ensures Lag(Moved(slots, m), target) < Lag(slots, target)
  {
    match m
    case Gains(i, bytes) => AdvanceDropsLag(slots, target, i, bytes);
    case Evicted(i) => EvictionDropsLag(slots, target, i);
  }

  /** The wait cannot outlast the readers: every move takes something off the lag, so after at most lag - cap of
      them the next pass lets the producer go on. */
  lemma {:induction false} WaitBounded(was: seq<Slot>, target: nat, moves: seq<Move>, now: seq<Slot>, cap: nat)
    requires Waits(was, target, moves, now)
    ensures Lag(now, target) + |moves| <= Lag(was, target)
    ensures |moves| >= Lag(was, target) - cap ==> target - Lowest(now, target) <= cap
    decreases |moves|
  {
    if moves != [] {
      MoveDrops(was, target, moves[0]);
      WaitBounded(Moved(was, moves[0]), target, moves[1..], now, cap);
    }
    if Lag(now, target) <= cap { SmallLagExits(now, target, cap); }
  }

  // ---------------------------------------------------------------- the waiting producer of the concurrent ring

  predicate StoresCursor(s: State, a: Act) {
    a.Read? && SlotOk(s, a.t) && s.readers[a.t].pc.RStore? && s.readers[a.t].slot.Some?
  }

  predicate TakesSlot(s: State, a: Act) {
    a.Register? && a.t < |s.readers| && FreeSlot(s.slots, 0) < SLOTS
  }

  /** Exactly two kinds of step add to the lag while the producer waits: a reader that registers below the target, and
      a cursor store that sets the cursor of an active slot back, to below the target.  Every other cursor store and
      every eviction takes off it what the slot gains. */
  lemma WaitMeasure(s: State, a: Act)
    requires Enabled(s, a) && s.producer.PScan?
    ensures var s', target := Apply(s, a), Target(s);
            && !s'.producer.PIdle? && Target(s') == target
            && (Lag(s'.slots, target) > Lag(s.slots, target)
                <==> || (TakesSlot(s, a) && s.readers[a.t].cursor < target)
                     || (&& StoresCursor(s, a)
                         && var slot, c := s.slots[s.readers[a.t].slot.value], s.readers[a.t].cursor;
                            slot.active && c < slot.cursor && c < target))
            && (StoresCursor(s, a) ==>
                  var slot := s.slots[s.readers[a.t].slot.value];
                  Lag(s'.slots, target)
                  == Lag(s.slots, target) - Behind(slot, target)
                    + Behind(slot.(cursor := s.readers[a.t].cursor), target))
            && (a.Produce? && a.stale && s.producer.look == Heartbeat && s.producer.i < SLOTS ==>
                  Lag(s'.slots, target) == Lag(s.slots, target) - Behind(s.slots[s.producer.i], target))
  {
    if StoresCursor(s, a) { StoreMeasure(s, a); }
    else if a.Produce? { ScanMeasure(s, a); }
    else if a.Read? { SameSlots(s, a); }
    else { RosterMeasure(s, a); }
  }

  lemma StoreMeasure(s: State, a: Act)
    requires Enabled(s, a) && s.producer.PScan? && StoresCursor(s, a)
    ensures var s', target := Apply(s, a), Target(s);
            var slot, c := s.slots[s.readers[a.t].slot.value], s.readers[a.t].cursor;
            && s'.producer == s.producer
            && Lag(s'.slots, target) == Lag(s.slots, target) - Behind(slot, target) + Behind(slot.(cursor := c), target)
            && (Lag(s'.slots, target) > Lag(s.slots, target) <==> slot.active && c < slot.cursor && c < target)
  {
    var i := s.readers[a.t].slot.value;
    LagUpdate(s.slots, Target(s), i, Apply(s, a).slots[i]);
  }

  lemma ScanMeasure(s: State, a: Act)
    requires Enabled(s, a) && s.producer.PScan? && a.Produce?
    ensures var s', target := Apply(s, a), Target(s);
            && !s'.producer.PIdle? && Target(s') == target && Lag(s'.slots, target) <= Lag(s.slots, target)
            && (a.stale && s.producer.look == Heartbeat && s.producer.i < SLOTS ==>
                  Lag(s'.slots, target) == Lag(s.slots, target) - Behind(s.slots[s.producer.i], target))
  {
    if s.producer.i < SLOTS { LagUpdate(s.slots, Target(s), s.producer.i, Apply(s, a).slots[s.producer.i]); }
  }

  lemma SameSlots(s: State, a: Act)
    requires Enabled(s, a) && a.Read? && !StoresCursor(s, a)
    ensures Apply(s, a).slots == s.slots && Apply(s, a).producer == s.producer
  {
  }

  /** Readers come, go, or do something that the slots do not show. */
  lemma RosterMeasure(s: State, a: Act)
    requires Enabled(s, a) && s.producer.PScan? && !a.Produce? && !a.Read?
    ensures var s', target := Apply(s, a), Target(s);
            && s'.producer == s.producer
            && (Lag(s'.slots, target) > Lag(s.slots, target) <==> TakesSlot(s, a) && s.readers[a.t].cursor < target)
  {
    if a.Unregister? {
      LagUpdate(s.slots, Target(s), s.readers[a.t].slot.value, Apply(s, a).slots[s.readers[a.t].slot.value]);
    } else if TakesSlot(s, a) {
      LagUpdate(s.slots, Target(s), FreeSlot(s.slots, 0), Apply(s, a).slots[FreeSlot(s.slots, 0)]);
    }
  }

  /** A protected reader never sets its cursor back, so with only such readers storing the lag cannot rise but by a
      registration. */
  lemma ProtectedLag(s: State, a: Act)
    requires Inv(s) && Enabled(s, a) && s.producer.PScan? && !a.Register?
    requires StoresCursor(s, a) ==> Protected(s, a.t)
    ensures Lag(Apply(s, a).slots, Target(s)) <= Lag(s.slots, Target(s))
  {
    WaitMeasure(s, a);
    if StoresCursor(s, a) { assert ReaderOk(s, a.t); }
  }

  /** Steps of the scanning producer and nobody else; the heartbeats say whom it finds stale. */
  ghost predicate ScansAlone(run: seq<State>, heartbeats: seq<int>, now: int, timeout: int) {
    run != [] && forall j :: 0 <= j < |run| - 1 ==> ScansAt(run, j, heartbeats, now, timeout)
  }

  ghost predicate ScansAt(run: seq<State>, j: nat, heartbeats: seq<int>, now: int, timeout: int)
    requires j + 1 < |run|
  {
    && WellSized(run[j]) && run[j].producer.PScan?
    && var i := run[j].producer.i;
       run[j + 1] == Scan(run[j], i < |heartbeats| && Stale(heartbeats[i], now, timeout))
  }

  ghost predicate Joins(run: seq<State>, s: State, s': State) { run != [] && run[0] == s && run[|run| - 1] == s' }

  lemma ScansThen(run: seq<State>, more: seq<State>, heartbeats: seq<int>, now: int, timeout: int, s: State, s1: State,
                  s': State)
    requires ScansAlone(run, heartbeats, now, timeout) && ScansAlone(more, heartbeats, now, timeout)
    requires Joins(run, s, s1) && Joins(more, s1, s')
    ensures ScansAlone(run + more[1..], heartbeats, now, timeout) && Joins(run + more[1..], s, s')
  {
    var all := run + more[1..];
    forall j | 0 <= j < |all| - 1 ensures ScansAt(all, j, heartbeats, now, timeout) {
      if j < |run| - 1 { assert ScansAt(run, j, heartbeats, now, timeout); }
      else { assert ScansAt(more, j + 1 - |run|, heartbeats, now, timeout); }
    }
  }

  function SweptSlot(slot: Slot, heartbeat: int, now: int, timeout: int): Slot {
    if slot.active && Stale(heartbeat, now, timeout) then slot.(active := false) else slot
  }

  /** The slots below `i` have been passed. */
  ghost predicate Passed(was: seq<Slot>, slots: seq<Slot>, heartbeats: seq<int>, now: int, timeout: int, i: nat) {
    && |slots| == |was| == |heartbeats| && i <= |slots|
    && slots == Swept(was, heartbeats, now, timeout)[..i] + was[i..]
  }

  /** A pass that nobody disturbs does in steps what the loop of ScanReaders does, and lets the producer go on exactly
      when no reader that is active and not stale is more than one capacity behind the target. */
  lemma PassAlone(s: State, heartbeats: seq<int>, now: int, timeout: int) returns (run: seq<State>, s': State)
    requires WellSized(s) && |heartbeats| == SLOTS && s.producer.PScan?
    requires s.producer == PScan(s.producer.req, 0, Target(s), Active)
    ensures ScansAlone(run, heartbeats, now, timeout) && Joins(run, s, s')
    ensures s' == AfterPass(s, Swept(s.slots, heartbeats, now, timeout))
    ensures var target := Target(s);
            s'.producer.PVersion?
            <==> forall i :: 0 <= i < SLOTS && s.slots[i].active && !Stale(heartbeats[i], now, timeout) ==>
                   target - s.slots[i].cursor <= s.cap
  {
    var swept := Swept(s.slots, heartbeats, now, timeout);
    assert s.slots == swept[..0] + s.slots[0..];
    run, s' := PassFrom(s, s.slots, heartbeats, now, timeout);
    ExitsIff(swept, Target(s), s.cap);
  }

  /** A pass that finds every active reader stale or caught up with what is committed lets the producer go on: a
      frame is never larger than the ring. */
  lemma CaughtUpExits(s: State, heartbeats: seq<int>, now: int, timeout: int) returns (run: seq<State>, s': State)
    requires Inv(s) && |heartbeats| == SLOTS && s.producer.PScan?
    requires s.producer == PScan(s.producer.req, 0, Target(s), Active)
    requires forall i :: 0 <= i < SLOTS && s.slots[i].active && !Stale(heartbeats[i], now, timeout) ==>
             s.slots[i].cursor >= s.commit
    ensures ScansAlone(run, heartbeats, now, timeout) && Joins(run, s, s') && s'.producer.PVersion?
  {
    run, s' := PassAlone(s, heartbeats, now, timeout);
  }

  /** The scan stands at slot `i`, with the minimum of the slots it has passed. */
  ghost predicate PassedTo(s: State, was: seq<Slot>, heartbeats: seq<int>, now: int, timeout: int) {
    && WellSized(s) && |was| == |heartbeats| == SLOTS && s.producer.PScan? && s.producer.look == Active
    && s.producer.i <= SLOTS && Passed(was, s.slots, heartbeats, now, timeout, s.producer.i)
    && s.producer.low == Lowest(s.slots[..s.producer.i], Target(s))
  }

  /** Where the scan leaves the producer. */
  function AfterPass(s: State, swept: seq<Slot>): State
    requires s.producer.PScan?
  {
    var target, req := Target(s), s.producer.req;
    var low := Lowest(swept, target);
    s.(slots := swept, cached := low,
       producer := if target - low <= s.cap then PVersion(req) else PScan(req, 0, target, Active))
  }

  lemma {:induction false} PassFrom(s: State, was: seq<Slot>, heartbeats: seq<int>, now: int, timeout: int)
    returns (run: seq<State>, s': State)
    requires PassedTo(s, was, heartbeats, now, timeout)
    ensures ScansAlone(run, heartbeats, now, timeout) && Joins(run, s, s')
            && s' == AfterPass(s, Swept(was, heartbeats, now, timeout))
    decreases SLOTS - s.producer.i
  {
    if s.producer.i == SLOTS {
      run, s' := PassEnds(s, was, heartbeats, now, timeout);
    } else {
      var first, s1 := PassOn(s, was, heartbeats, now, timeout);
      var more;
      more, s' := PassFrom(s1, was, heartbeats, now, timeout);
      ScansThen(first, more, heartbeats, now, timeout, s, s1, s');
      run := first + more[1..];
    }
  }

  lemma PassOn(s: State, was: seq<Slot>, heartbeats: seq<int>, now: int, timeout: int)
    returns (run: seq<State>, s1: State)
    requires PassedTo(s, was, heartbeats, now, timeout) && s.producer.i < SLOTS
    ensures ScansAlone(run, heartbeats, now, timeout) && Joins(run, s, s1)
            && PassedTo(s1, was, heartbeats, now, timeout)
    ensures s1.producer.i == s.producer.i + 1
    ensures AfterPass(s1, Swept(was, heartbeats, now, timeout)) == AfterPass(s, Swept(was, heartbeats, now, timeout))
  {
    run, s1 := PassSlot(s, heartbeats, now, timeout);
    SlotPassed(s, s1, was, heartbeats, now, timeout);
  }

  lemma PassEnds(s: State, was: seq<Slot>, heartbeats: seq<int>, now: int, timeout: int)
    returns (run: seq<State>, s': State)
    requires PassedTo(s, was, heartbeats, now, timeout) && s.producer.i == SLOTS
    ensures ScansAlone(run, heartbeats, now, timeout) && Joins(run, s, s')
            && s' == AfterPass(s, Swept(was, heartbeats, now, timeout))
  {
    assert s.slots[..SLOTS] == s.slots == Swept(was, heartbeats, now, timeout);
    s' := Scan(s, false);
    run := [s, s'];
  }

  /** `s1` is `s` one slot further. */
  ghost predicate OneSlotOn(s: State, s1: State, heartbeats: seq<int>, now: int, timeout: int)
    requires s.producer.PScan? && s.producer.i < |s.slots| && s.producer.i < |heartbeats|
  {
    var PScan(req, i, low, _) := s.producer;
    var slot := SweptSlot(s.slots[i], heartbeats[i], now, timeout);
    s1 == s.(slots := s.slots[i := slot],
             producer := PScan(req, i + 1, if slot.active && slot.cursor < low then slot.cursor else low, Active))
  }

  lemma SlotPassed(s: State, s1: State, was: seq<Slot>, heartbeats: seq<int>, now: int, timeout: int)
    requires PassedTo(s, was, heartbeats, now, timeout) && s.producer.i < SLOTS
    requires OneSlotOn(s, s1, heartbeats, now, timeout)
    ensures PassedTo(s1, was, heartbeats, now, timeout)
  {
    var i := s.producer.i;
    assert Target(s1) == Target(s) && s1.producer.i == i + 1;
    assert s1.slots == s.slots[i := SweptSlot(s.slots[i], heartbeats[i], now, timeout)];
  }

  /** The one to three steps at one slot. */
  lemma PassSlot(s: State, heartbeats: seq<int>, now: int, timeout: int) returns (run: seq<State>, s1: State)
    requires WellSized(s) && |heartbeats| == SLOTS && s.producer.PScan? && s.producer.look == Active
             && s.producer.i < SLOTS
    ensures ScansAlone(run, heartbeats, now, timeout) && Joins(run, s, s1)
    ensures OneSlotOn(s, s1, heartbeats, now, timeout)
  {
    var i := s.producer.i;
    var stale := Stale(heartbeats[i], now, timeout);
    assert s.slots[i := s.slots[i]] == s.slots;
    s1 := Scan(s, stale);
    run := [s, s1];
    if s.slots[i].active {
      var s2 := Scan(s1, stale);
      if stale {
        run, s1 := [s, s1, s2], s2;
      } else {
        var s3 := Scan(s2, stale);
        run, s1 := [s, s1, s2, s3], s3;
      }
    }
  }

  // ---------------------------------------------------------------- the rest of Reserve, and Commit, alone

  /** Each state follows from the one before by that act. */
  ghost predicate Leads(run: seq<State>, acts: seq<Act>) {
    |run| == |acts| + 1 && forall m :: 0 <= m < |acts| ==> LeadsAt(run, acts, m)
  }

  ghost predicate LeadsAt(run: seq<State>, acts: seq<Act>, m: nat)
    requires m < |acts| && |run| == |acts| + 1
  {
    Enabled(run[m], acts[m]) && run[m + 1] == Apply(run[m], acts[m])
  }

  lemma LeadsOn(run: seq<State>, acts: seq<Act>, a: Act)
    requires Leads(run, acts) && Enabled(run[|acts|], a)
    ensures Leads(run + [Apply(run[|acts|], a)], acts + [a])
  {
    var all, more := run + [Apply(run[|acts|], a)], acts + [a];
    forall m | 0 <= m < |more| ensures LeadsAt(all, more, m) {
      if m < |acts| { assert LeadsAt(run, acts, m); }
    }
  }

  /** A Reserve that need not wait any longer returns after the five stores of the header and the claim. */
  lemma ClaimAlone(s: State, clock: nat) returns (run: seq<State>)
    requires WellSized(s) && s.producer.PVersion? && clock < U32 * U32
    ensures Leads(run, seq(5, _ => Produce(false, clock))) && run[0] == s
    ensures var s', req := run[5], s.producer.req;
            && s'.producer.PFill? && s'.producer.req == req.(time := clock)
            && s'.prod == req.at + Required(req.size) && s'.commit == s.commit && s'.frames == s.frames
            && s'.slots == s.slots && s'.readers == s.readers
  {
    run := [s];
    var acts: seq<Act>, act := [], Produce(false, clock);
    assert Leads(run, acts);
    var m := 0;
    while m < 5
      invariant m <= 5 && |acts| == m && (forall i :: 0 <= i < m ==> acts[i] == act)
      invariant Leads(run, acts) && run[0] == s && WellSized(run[m])
      invariant var s', req := run[m], s.producer.req;
                && s'.commit == s.commit && s'.frames == s.frames && s'.slots == s.slots && s'.readers == s.readers
                && match m
                   case 0 => s'.producer == PVersion(req)
                   case 1 => s'.producer == PLength(req)
                   case 2 => s'.producer == PKind(req)
                   case 3 => s'.producer == PTime(req)
                   case 4 => s'.producer == PClaim(req.(time := clock))
                   case _ =>
                     && s'.producer.PFill? && s'.producer.req == req.(time := clock)
                     && s'.prod == req.at + Required(req.size)
    {
      LeadsOn(run, acts, act);
      run := run + [Apply(run[m], act)];
      acts := acts + [act];
      m := m + 1;
    }
    assert acts == seq(5, _ => act);
  }

  /** A Commit ends after its two stores, and the frame is published with what was filled in. */
  lemma CommitAlone(s: State) returns (run: seq<State>)
    requires WellSized(s) && s.producer.PFill?
    ensures Leads(run, [Act.Commit, Produce(false, 0), Produce(false, 0)]) && run[0] == s
    ensures var s', PFill(req, draft) := run[3], s.producer;
            && s'.producer == PIdle && s'.commit == req.at + Required(req.size) && s'.prod == s.prod
            && s'.frames == s.frames + [Frame(req.at, Message(req.kind, req.time, draft))]
            && s'.slots == s.slots && s'.readers == s.readers
  {
    var s1 := Apply(s, Act.Commit);
    var s2 := Apply(s1, Produce(false, 0));
    assert Leads([s], []);
    LeadsOn([s], [], Act.Commit);
    LeadsOn([s] + [s1], [] + [Act.Commit], Produce(false, 0));
    LeadsOn([s] + [s1] + [s2], [] + [Act.Commit] + [Produce(false, 0)], Produce(false, 0));
    run := [s] + [s1] + [s2] + [Apply(s2, Produce(false, 0))];
    assert [] + [Act.Commit] + [Produce(false, 0)] + [Produce(false, 0)]
           == [Act.Commit, Produce(false, 0), Produce(false, 0)];
  }
}
