/**
 Which registrations can be lapped: a reader that stays active where it is loses its data in some continuation exactly
 if the producer can get beyond one capacity ahead of it before it has to look at the readers again.
 */
module BroadcastOvertaken {
  import opened BroadcastFrame
  import opened BroadcastRing
  import opened BroadcastSafety
  import opened BroadcastTheorems
  import opened BroadcastWitness

  /** In every state of the run slot `k` is active and shows cursor `c`: nobody evicts it, and it does not advance. */
  ghost predicate Stays(r: Run, k: nat, c: nat) {
    forall i :: 0 <= i < |r.states| ==> StaysAt(r.states[i], k, c)
  }

  predicate StaysAt(s: State, k: nat, c: nat) { k < |s.slots| && s.slots[k].active && s.slots[k].cursor == c }

  /** Frames of 24 bytes and more, in steps of 8, add up to `bytes`. */
  predicate Frames(bytes: int) { bytes == 0 || (bytes >= 24 && bytes % 8 == 0) }

  /** What is claimed is out of the reader's reach, or further frames that fit below the cached minimum get there. */
  ghost predicate CanOvertake(s: State, c: nat) {
    exists bytes: nat :: Frames(bytes) && Overtakes(s, c, bytes)
  }

  predicate Overtakes(s: State, c: nat, bytes: nat) {
    Claim(s) + bytes > c + s.cap && (bytes == 0 || Claim(s) + bytes <= s.cached + s.cap)
  }

  /** The test in closed form: the room below the cached minimum, in whole steps of 8, is at least one header and
      reaches beyond one capacity. */
  lemma CanOvertakeIs(s: State, c: nat)
    requires Layout(s) && !s.producer.PScan?
    ensures var room := (s.cached + s.cap - Claim(s)) / 8 * 8;
            CanOvertake(s, c) <==> Claim(s) > c + s.cap || (room >= 24 && Claim(s) + room > c + s.cap)
  {
    var room: nat := (s.cached + s.cap - Claim(s)) / 8 * 8;
    if Claim(s) > c + s.cap { assert Overtakes(s, c, 0); }
    if room >= 24 && Claim(s) + room > c + s.cap { assert Overtakes(s, c, room); }
  }

  // ---------------------------------------------------------------- if it can, some run does

  ghost predicate SlotsStay(r: Run, slots: seq<Slot>) {
    forall i :: 0 <= i < |r.states| ==> r.states[i].slots == slots
  }

  lemma SlotsThen(r: Run, q: Run, slots: seq<Slot>)
    requires SlotsStay(r, slots) && SlotsStay(q, slots) && |q.states| > 0
    ensures SlotsStay(Joined(r, q), slots)
  {
  }

  /** How many steps the producer is from the end of its Commit. */
  function Stage(p: Producer): nat {
    match p
    case PIdle => 0
    case PPublish(_, _) => 1
    case PSeal(_, _) => 2
    case PFill(_, _) => 3
    case PClaim(_) => 4
    case PTime(_) => 5
    case PKind(_) => 6
    case PLength(_) => 7
    case PVersion(_) => 8
    case PScan(_, _, _, _) => 9
  }

  /** The producer's next step on its own. */
  function Onward(s: State): Act { if s.producer.PFill? then Commit else Produce(false, 0) }

  lemma OnwardStep(s: State)
    requires Layout(s) && !s.producer.PScan? && !s.producer.PIdle?
    ensures Enabled(s, Onward(s))
    ensures var s' := Apply(s, Onward(s));
            && Stage(s'.producer) < Stage(s.producer) && !s'.producer.PScan?
            && Claim(s') == Claim(s) && s'.cached == s.cached && s'.cap == s.cap && s'.slots == s.slots
  {
  }

  /** The producer finishes its frame. */
  lemma {:induction false} Finishes(s: State) returns (r: Run, s': State)
    requires Layout(s) && !s.producer.PScan?
    ensures Leads(r, s, s') && SlotsStay(r, s.slots) && Layout(s') && s'.producer == PIdle
    ensures s'.prod == Claim(s) && s'.cached == s.cached && s'.cap == s.cap && s'.slots == s.slots
    decreases Stage(s.producer)
  {
    if s.producer == PIdle {
      r, s' := Run.Run([s], []), s;
    } else {
      var a := Onward(s);
      OnwardStep(s);
      LayoutKept(s, a);
      var first := One(s, a);
      var rest;
      rest, s' := Finishes(Apply(s, a));
      Then(first, rest, s, Apply(s, a), s');
      SlotsThen(first, rest, s.slots);
      r := Joined(first, rest);
    }
  }

  lemma SmallFrame(size: nat)
    requires size < 24 && size % 8 == 0
    ensures Required(size) == 24 + size
  {
  }

  /** One small frame that fits below the cached minimum. */
  lemma OneFrame(s: State, bytes: nat) returns (r: Run, s': State)
    requires Layout(s) && s.producer == PIdle
    requires 24 <= bytes < 48 && bytes % 8 == 0 && s.prod + bytes <= s.cached + s.cap
    ensures Leads(r, s, s') && SlotsStay(r, s.slots) && Layout(s') && s'.producer == PIdle
    ensures s'.prod == s.prod + bytes && s'.cached == s.cached && s'.cap == s.cap && s'.slots == s.slots
  {
    SmallFrame(bytes - 24);
    var a := Reserve(bytes - 24, 0);
    LayoutKept(s, a);
    var first := One(s, a);
    var rest;
    rest, s' := Finishes(Apply(s, a));
    Then(first, rest, s, Apply(s, a), s');
    SlotsThen(first, rest, s.slots);
    r := Joined(first, rest);
  }

  /** Frames below the cached minimum need no look at the readers. */
  lemma {:induction false} Claims(s: State, bytes: nat) returns (r: Run, s': State)
    requires Layout(s) && s.producer == PIdle && Frames(bytes) && (bytes > 0 ==> s.prod + bytes <= s.cached + s.cap)
    ensures Leads(r, s, s') && SlotsStay(r, s.slots) && Layout(s')
    ensures s'.prod == s.prod + bytes && s'.cap == s.cap
    decreases bytes
  {
    if bytes == 0 {
      r, s' := Run.Run([s], []), s;
    } else if bytes < 48 {
      r, s' := OneFrame(s, bytes);
    } else {
      var s1, rest;
      r, s1 := OneFrame(s, 24);
      rest, s' := Claims(s1, bytes - 24);
      Then(r, rest, s, s1, s');
      SlotsThen(r, rest, s.slots);
      r := Joined(r, rest);
    }
  }

  lemma SlotsMeanStays(r: Run, s: State, k: nat, c: nat)
    requires SlotsStay(r, s.slots) && StaysAt(s, k, c)
    ensures Stays(r, k, c)
  {
  }

  /** If the producer can get out of reach, it does in some run, while the slot stays as it is. */
  lemma Overtaking(s: State, k: nat, c: nat) returns (r: Run, s': State)
    requires Layout(s) && !s.producer.PScan? && StaysAt(s, k, c) && CanOvertake(s, c)
    ensures Leads(r, s, s') && Stays(r, k, c) && s'.prod - c > s'.cap
  {
    var bytes: nat :| Frames(bytes) && Overtakes(s, c, bytes);
    var s1, rest;
    r, s1 := Finishes(s);
    rest, s' := Claims(s1, bytes);
    Then(r, rest, s, s1, s');
    SlotsThen(r, rest, s.slots);
    r := Joined(r, rest);
    SlotsMeanStays(r, s, k, c);
  }

  // ---------------------------------------------------------------- if it cannot, none does

  /** The reader of slot `k` is in reach, and the minimum in use is the one from before or one that respects it. */
  ghost predicate InReach(s0: State, s: State, k: nat, c: nat) {
    && Layout(s) && s.cap == s0.cap && Claim(s) <= c + s.cap
    && Frames(Claim(s) - Claim(s0))
    && (s.cached <= c || s.cached == s0.cached)
    && (s.producer.PScan? && k < s.producer.i ==> s.producer.low <= c)
  }

  lemma FrameBytes(size: nat)
    requires size <= LONGEST
    ensures Required(size) >= 24 && Required(size) % 8 == 0
  {
    AlignedHolds(size);
  }

  lemma FramesAdd(bytes: int, more: nat)
    requires Frames(bytes) && more >= 24 && more % 8 == 0
    ensures Frames(bytes + more)
  {
  }

  /** A further frame below the minimum in use leaves the reader in reach. */
  lemma FrameInReach(s0: State, s: State, c: nat, size: nat, low: nat)
    requires Layout(s) && s.cap == s0.cap && !CanOvertake(s0, c) && Frames(Claim(s) - Claim(s0)) && size <= LONGEST
    requires (low <= c || low == s0.cached) && Claim(s) + Required(size) <= low + s.cap
    ensures Claim(s) + Required(size) <= c + s.cap && Frames(Claim(s) + Required(size) - Claim(s0))
  {
    FrameBytes(size);
    FramesAdd(Claim(s) - Claim(s0), Required(size));
    if low > c { assert !Overtakes(s0, c, Claim(s) + Required(size) - Claim(s0)); }
  }

  lemma ReserveInReach(s0: State, s: State, k: nat, c: nat, a: Act)
    requires InReach(s0, s, k, c) && !CanOvertake(s0, c) && Enabled(s, a) && a.Reserve?
    ensures InReach(s0, Apply(s, a), k, c)
  {
    LayoutKept(s, a);
    if Apply(s, a).producer.PVersion? { FrameInReach(s0, s, c, a.size, s.cached); }
  }

  lemma ScanInReach(s0: State, s: State, k: nat, c: nat, a: Act)
    requires InReach(s0, s, k, c) && !CanOvertake(s0, c) && Enabled(s, a) && a.Produce? && s.producer.PScan?
    requires StaysAt(s, k, c) && StaysAt(Apply(s, a), k, c)
    ensures InReach(s0, Apply(s, a), k, c)
  {
    LayoutKept(s, a);
    if Apply(s, a).producer.PVersion? { FrameInReach(s0, s, c, s.producer.req.size, s.producer.low); }
  }

  lemma OtherInReach(s0: State, s: State, k: nat, c: nat, a: Act)
    requires InReach(s0, s, k, c) && Enabled(s, a) && !a.Reserve? && !(a.Produce? && s.producer.PScan?)
    ensures InReach(s0, Apply(s, a), k, c)
  {
    LayoutKept(s, a);
    if !ProducerAct(a) { ReadersLeave(s, a); }
  }

  lemma StepInReach(s0: State, s: State, k: nat, c: nat, a: Act)
    requires InReach(s0, s, k, c) && !CanOvertake(s0, c) && Enabled(s, a)
    requires StaysAt(s, k, c) && StaysAt(Apply(s, a), k, c)
    ensures InReach(s0, Apply(s, a), k, c)
  {
    if a.Reserve? { ReserveInReach(s0, s, k, c, a); }
    else if a.Produce? && s.producer.PScan? { ScanInReach(s0, s, k, c, a); }
    else { OtherInReach(s0, s, k, c, a); }
  }

  lemma {:induction false} StaysInReach(r: Run, s: State, s': State, k: nat, c: nat, i: nat)
    requires Leads(r, s, s') && Stays(r, k, c) && Layout(s) && !s.producer.PScan? && !CanOvertake(s, c)
    requires i < |r.states|
    ensures InReach(s, r.states[i], k, c)
  {
    if i == 0 {
      assert !Overtakes(s, c, 0);
    } else {
      StaysInReach(r, s, s', k, c, i - 1);
      assert Steps(r, i - 1) && StaysAt(r.states[i - 1], k, c) && StaysAt(r.states[i], k, c);
      StepInReach(s, r.states[i - 1], k, c, r.acts[i - 1]);
    }
  }

  /**
   A reader that stays in its slot, active and at cursor `c`, is more than one capacity behind the producer after some
   continuation if and only if the producer can claim that much below the minimum it has cached, without another scan.
   No continuation in which it is not evicted laps it otherwise, whatever the other readers do.
   */
  lemma LappedIff(s: State, k: nat, c: nat)
    requires Layout(s) && !s.producer.PScan? && StaysAt(s, k, c)
    ensures (exists r, s' :: Leads(r, s, s') && Stays(r, k, c) && s'.prod - c > s'.cap) <==> CanOvertake(s, c)
  {
    if CanOvertake(s, c) {
      var r, s' := Overtaking(s, k, c);
    } else {
      forall r, s' | Leads(r, s, s') && Stays(r, k, c) ensures s'.prod - c <= s'.cap {
        StaysInReach(r, s, s', k, c, |r.acts|);
      }
    }
  }
}
