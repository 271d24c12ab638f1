/**
 The three-state futex locks of common/locks_under_the_hood/locks_under_the_hood.h, each guarding one
 ProtectedState: any number of threads, one atomic access, system call or plain field access per step.

 The lock word is 0 (free), 1 (held) or 2 (held, somebody may be asleep).  FUTEX_WAIT compares and sleeps in one
 step; a sleeper may wake for no reason.  `owner` and `log` are history variables.
 */
module FutexLock {
  import opened Prelude
  import opened ProtectedState

  const SPINS: nat := 40

  datatype Kind = RawFutex | AdaptiveFutex | Cpp20Wait

  datatype Pc =
    | Out
    | Fast                          // about to try 0 -> 1
    | Spinning(n: nat, c: nat)      // about to load the word, with c as the last CAS left it
    | SpinCas(n: nat)               // saw 0, about to try 0 -> 1, which may fail for no reason
    | Swapping                      // about to exchange in 2
    | Parking                       // about to sleep if the word is 2
    | Asleep
    | Loading(i: nat)               // in the critical section, about to load field i
    | Storing(i: nat, reg: nat)     // about to store field i, computed from the loaded reg
    | Unlocking                     // about to exchange in 0
    | Waking                        // about to wake one sleeper

  // `sequence` is the local copy that ApplyTransfer keeps of the incremented counter.
  datatype Thread = Thread(pc: Pc, amount: nat, sequence: nat)

  datatype State = State(kind: Kind, word: nat, threads: seq<Thread>, data: Data, owner: Option<nat>, log: seq<nat>)

  // Lock(amount) calls lock(), ApplyTransfer(amount), unlock().  `lucky` is false where a weak CAS fails
  // spuriously; `target` is the sleeper the kernel wakes.
  datatype Act = Lock(amount: nat) | Go(lucky: bool, target: nat) | Spurious

  function Init(kind: Kind, n: nat): State {
    State(kind, 0, seq(n, _ => Thread(Out, 0, 0)), FRESH, None, [])
  }

  ghost predicate Enabled(s: State, t: nat, a: Act) {
    && t < |s.threads|
    && var pc := s.threads[t].pc;
       match a
       case Lock(_) => pc == Out
       case Spurious => pc == Asleep
       case Go(_, target) =>
         && pc != Out && pc != Asleep
         && (pc.Loading? || pc.Storing? ==> pc.i < 8)
         && (pc == Waking && (exists u: nat :: Sleeps(s, u)) ==>
               target < |s.threads| && s.threads[target].pc == Asleep)
  }

  function Goes(s: State, t: nat, pc: Pc): State
    requires t < |s.threads|
  {
    s.(threads := s.threads[t := s.threads[t].(pc := pc)])
  }

  /** The lock is acquired: the critical section begins. */
  function Acquires(s: State, t: nat, word: nat): State
    requires t < |s.threads|
  {
    Goes(s, t, Loading(0)).(word := word, owner := Some(t))
  }

  /** Where a thread goes when it stops spinning with `c` in hand. */
  function AfterSpin(c: nat): Pc { if c != 2 then Swapping else Parking }

  /** The next spin, or the slow path after the fortieth. */
  function NextSpin(n: nat, c: nat): Pc { if n + 1 < SPINS then Spinning(n + 1, c) else AfterSpin(c) }

  /** A woken RawFutexMutex or AdaptiveFutexMutex returns from the system call; atomic::wait looks again. */
  function Woken(k: Kind): Pc { if k == Cpp20Wait then Parking else Swapping }

  function Apply(s: State, t: nat, a: Act): State
    requires Enabled(s, t, a)
  {
    match a
    case Lock(amount) => s.(threads := s.threads[t := Thread(Fast, amount, 0)])
    case Spurious => Goes(s, t, Woken(s.kind))
    case Go(lucky, target) => Step(s, t, lucky, target)
  }

  function Step(s: State, t: nat, lucky: bool, target: nat): State
    requires Enabled(s, t, Go(lucky, target))
  {
    var th := s.threads[t];
    match th.pc
    case Fast =>
      if s.word == 0 then Acquires(s, t, 1)
      else Goes(s, t, if s.kind == RawFutex then AfterSpin(s.word) else Spinning(0, s.word))
    case Spinning(n, c) => Goes(s, t, if s.word == 0 then SpinCas(n) else NextSpin(n, c))
    case SpinCas(n) =>
      if s.word == 0 && lucky then Acquires(s, t, 1) else Goes(s, t, NextSpin(n, s.word))
    case Swapping => if s.word == 0 then Acquires(s, t, 2) else Goes(s, t, Parking).(word := 2)
    case Parking => Goes(s, t, if s.word == 2 then Asleep else Swapping)
    case Loading(i) => Goes(s, t, Storing(i, s.data[i]))
    case Storing(i, reg) =>
      var sequence := if i == 0 then (reg + 1) % WORD else th.sequence;
      var stored := s.(data := s.data[i := Updated(i, reg, sequence, th.amount)],
                       threads := s.threads[t := th.(sequence := sequence,
                                                                pc := if i < 7 then Loading(i + 1) else Unlocking)]);
      if i < 7 then stored else stored.(log := s.log + [th.amount])
    case Unlocking => Goes(s, t, if s.word == 2 then Waking else Out).(word := 0, owner := None)
    case Waking =>
      var woke := Goes(s, t, Out);
      if target < |s.threads| && s.threads[target].pc == Asleep then Goes(woke, target, Woken(s.kind)) else woke
    case _ => s
  }

  // ---------------------------------------------------------------- invariant

  predicate Critical(pc: Pc) { pc.Loading? || pc.Storing? || pc == Unlocking }

  /** On the way to exchanging in 2, or to seeing that it is there. */
  predicate Slow(pc: Pc) { pc == Swapping || pc == Parking }

  ghost predicate OwnerIs(s: State, t: nat)
    requires t < |s.threads|
  {
    Critical(s.threads[t].pc) <==> s.owner == Some(t)
  }

  ghost predicate Exclusive(s: State) {
    && s.word <= 2 && (s.word == 0 <==> s.owner == None)
    && (s.owner.Some? ==> s.owner.value < |s.threads|)
    && forall t :: 0 <= t < |s.threads| ==> OwnerIs(s, t)
  }

  predicate Sleeps(s: State, u: nat) { u < |s.threads| && s.threads[u].pc == Asleep }

  predicate Wakes(s: State, u: nat) { u < |s.threads| && s.threads[u].pc == Waking }

  predicate IsSlow(s: State, u: nat) { u < |s.threads| && Slow(s.threads[u].pc) }

  /** A sleeper is never forgotten. */
  ghost predicate Remembered(s: State) {
    (exists t: nat :: Sleeps(s, t)) ==>
      || s.word == 2
      || (exists u: nat :: Wakes(s, u))
      || (exists u: nat :: IsSlow(s, u))
  }

  /** How much of the current transfer the data shows. */
  ghost predicate Consistent(s: State) {
    var base := Replay(FRESH, s.log);
    match s.owner
    case None => s.data == base
    case Some(t) =>
      && t < |s.threads|
      && var th := s.threads[t];
         match th.pc
         case Loading(i) => i < 8 && s.data == Part(base, th.amount, i) && SequenceOk(base, th, i)
         case Storing(i, reg) =>
           i < 8 && s.data == Part(base, th.amount, i) && SequenceOk(base, th, i) && reg == s.data[i]
         case _ => s.data == base
  }

  ghost predicate SequenceOk(base: Data, th: Thread, i: nat) { i > 0 ==> th.sequence == (base[0] + 1) % WORD }

  ghost predicate Inv(s: State) { Exclusive(s) && Remembered(s) && Consistent(s) }

  lemma InitInv(kind: Kind, n: nat)
    ensures Inv(Init(kind, n))
  {
  }

  lemma ExclusiveKept(s: State, t: nat, a: Act)
    requires Exclusive(s) && Enabled(s, t, a)
    ensures Exclusive(Apply(s, t, a))
  {
    var s' := Apply(s, t, a);
    assert OwnerIs(s, t);
    forall u | 0 <= u < |s'.threads| ensures OwnerIs(s', u) { assert OwnerIs(s, u); }
  }

  /** Threads other than `t` move only when `t` wakes them. */
  lemma OthersStay(s: State, t: nat, a: Act, u: nat)
    requires Enabled(s, t, a) && u < |s.threads| && u != t
    ensures |Apply(s, t, a).threads| == |s.threads|
    ensures Apply(s, t, a).threads[u] == s.threads[u]
            || (s.threads[t].pc == Waking && s.threads[u].pc == Asleep && Apply(s, t, a).threads[u].pc == Woken(s.kind))
  {
  }

  lemma RememberedKept(s: State, t: nat, a: Act)
    requires Exclusive(s) && Remembered(s) && Enabled(s, t, a)
    ensures Remembered(Apply(s, t, a))
  {
    var s' := Apply(s, t, a);
    assert OwnerIs(s, t);
    if z: nat :| Sleeps(s', z) {
      if s'.word != 2 {
        if s.threads[t].pc == Waking && a.Go? {
          OthersStay(s, t, a, z);
          assert Sleeps(s, z);
          assert IsSlow(s', a.target);
        } else if s.word == 2 {
          assert Wakes(s', t);
        } else {
          OthersStay(s, t, a, z);
          assert Sleeps(s, z);
          StillThere(s, t, a);
        }
      }
    }
  }

  /** While the word is not 2, a waker or a slow-path thread stays one until it wakes somebody or exchanges. */
  lemma StillThere(s: State, t: nat, a: Act)
    requires Exclusive(s) && Enabled(s, t, a) && s.word != 2 && Apply(s, t, a).word != 2
    requires s.threads[t].pc != Waking
    requires (exists u: nat :: Wakes(s, u)) || (exists u: nat :: IsSlow(s, u))
    ensures (exists u: nat :: Wakes(Apply(s, t, a), u)) || (exists u: nat :: IsSlow(Apply(s, t, a), u))
  {
    var s' := Apply(s, t, a);
    if u: nat :| Wakes(s, u) {
      OthersStay(s, t, a, u);
      assert Wakes(s', u);
    } else {
      var u: nat :| IsSlow(s, u);
      assert OwnerIs(s, u);
      if u != t { OthersStay(s, t, a, u); }
      assert u != t ==> s'.threads[u] == s.threads[u];
      assert IsSlow(s', u);
    }
  }

  lemma PartNext(d: Data, amount: nat, i: nat)
    requires i < 8
    ensures Part(d, amount, i)[i] == d[i] && Part(d, amount, 0) == d
    ensures Part(d, amount, i + 1) == Part(d, amount, i)[i := Updated(i, d[i], (d[0] + 1) % WORD, amount)]
  {
  }

  lemma ConsistentKept(s: State, t: nat, a: Act)
    requires Exclusive(s) && Consistent(s) && Enabled(s, t, a)
    ensures Consistent(Apply(s, t, a))
  {
    var s' := Apply(s, t, a);
    assert OwnerIs(s, t);
    if s.owner.Some? && s.owner.value != t {
      OthersStay(s, t, a, s.owner.value);
      assert OwnerIs(s, s.owner.value);
      assert s'.data == s.data && s'.log == s.log;
    } else if s.threads[t].pc.Storing? {
      StoreConsistent(s, t, a);
    } else {
      PartNext(Replay(FRESH, s.log), s.threads[t].amount, 0);
    }
  }

  lemma StoreConsistent(s: State, t: nat, a: Act)
    requires Consistent(s) && Enabled(s, t, a) && s.owner == Some(t) && s.threads[t].pc.Storing?
    ensures Consistent(Apply(s, t, a))
  {
    var s' := Apply(s, t, a);
    var base := Replay(FRESH, s.log);
    var th := s.threads[t];
    var i := th.pc.i;
    PartNext(base, th.amount, i);
    assert s'.data == Part(base, th.amount, i + 1);
    if i == 7 { assert s'.log[..|s'.log| - 1] == s.log; }
  }

  lemma StepInv(s: State, t: nat, a: Act)
    requires Inv(s) && Enabled(s, t, a)
    ensures Inv(Apply(s, t, a))
  {
    ExclusiveKept(s, t, a);
    RememberedKept(s, t, a);
    ConsistentKept(s, t, a);
  }

  // ---------------------------------------------------------------- runs

  datatype Event = Event(t: nat, a: Act)

  // `states[i]` is the state before event `i`.
  datatype Run = Run(states: seq<State>, events: seq<Event>)

  ghost predicate Runs(r: Run) {
    && |r.states| == |r.events| + 1
    && (exists kind: Kind, n: nat :: r.states[0] == Init(kind, n))
    && forall i :: 0 <= i < |r.events| ==> Steps(r, i)
  }

  ghost predicate Steps(r: Run, i: nat)
    requires i < |r.events| && |r.states| == |r.events| + 1
  {
    && Enabled(r.states[i], r.events[i].t, r.events[i].a)
    && r.states[i + 1] == Apply(r.states[i], r.events[i].t, r.events[i].a)
  }

  lemma {:induction false} RunInv(r: Run, i: nat)
    requires Runs(r) && i < |r.states|
    ensures Inv(r.states[i])
  {
    if i == 0 {
      var kind: Kind, n: nat :| r.states[0] == Init(kind, n);
      InitInv(kind, n);
    } else {
      RunInv(r, i - 1);
      assert Steps(r, i - 1);
      StepInv(r.states[i - 1], r.events[i - 1].t, r.events[i - 1].a);
    }
  }

  /** At most one thread is in the critical section, and the word is 0 exactly when none is. */
  lemma MutualExclusion(r: Run, i: nat, t: nat, u: nat)
    requires Runs(r) && i < |r.states| && t < |r.states[i].threads| && u < |r.states[i].threads|
    ensures Critical(r.states[i].threads[t].pc) && Critical(r.states[i].threads[u].pc) ==> t == u
    ensures r.states[i].word == 0
            <==> forall v :: 0 <= v < |r.states[i].threads| ==> !Critical(r.states[i].threads[v].pc)
  {
    RunInv(r, i);
    var s := r.states[i];
    assert OwnerIs(s, t) && OwnerIs(s, u);
    if s.owner.Some? { assert OwnerIs(s, s.owner.value); }
    if s.owner == None {
      forall v | 0 <= v < |s.threads| ensures !Critical(s.threads[v].pc) { assert OwnerIs(s, v); }
    }
  }

  predicate LastStore(s: State, e: Event) {
    e.t < |s.threads| && e.a.Go? && s.threads[e.t].pc.Storing? && s.threads[e.t].pc.i == 7
  }

  /** The amount of the last Lock(amount) that thread `t` called in the first `i` events. */
  function Asked(r: Run, i: nat, t: nat): nat
    requires i <= |r.events|
  {
    if i == 0 then 0
    else match r.events[i - 1]
      case Event(u, Lock(amount)) => if u == t then amount else Asked(r, i - 1, t)
      case _ => Asked(r, i - 1, t)
  }

  lemma {:induction false} AmountIsAsked(r: Run, i: nat, t: nat)
    requires Runs(r) && i < |r.states| && t < |r.states[i].threads|
    ensures r.states[i].threads[t].amount == Asked(r, i, t)
  {
    if i > 0 {
      assert Steps(r, i - 1);
      if r.events[i - 1].t != t { OthersStay(r.states[i - 1], r.events[i - 1].t, r.events[i - 1].a, t); }
      AmountStays(r.states[i - 1], r.events[i - 1].t, r.events[i - 1].a, t);
      AmountIsAsked(r, i - 1, t);
    }
  }

  lemma AmountStays(s: State, u: nat, a: Act, t: nat)
    requires Enabled(s, u, a) && t < |Apply(s, u, a).threads|
    ensures t < |s.threads|
    ensures Apply(s, u, a).threads[t].amount == if u == t && a.Lock? then a.amount else s.threads[t].amount
  {
  }

  /** The amounts that were asked for in the calls whose last field was stored in the first `i` events, oldest first. */
  function Completed(r: Run, i: nat): seq<nat>
    requires i <= |r.events| && |r.states| == |r.events| + 1
  {
    if i == 0 then []
    else
      Completed(r, i - 1) +
      if LastStore(r.states[i - 1], r.events[i - 1]) then [Asked(r, i - 1, r.events[i - 1].t)] else []
  }

  lemma {:induction false} LogIs(r: Run, i: nat)
    requires Runs(r) && i < |r.states|
    ensures r.states[i].log == Completed(r, i)
  {
    if i > 0 {
      LogIs(r, i - 1);
      assert Steps(r, i - 1);
      if LastStore(r.states[i - 1], r.events[i - 1]) { AmountIsAsked(r, i - 1, r.events[i - 1].t); }
    }
  }

  /** How often thread `t` has called Lock, and has stored the last field of a transfer, in the first `i` events. */
  function Calls(r: Run, i: nat, t: nat): nat
    requires i <= |r.events|
  {
    if i == 0 then 0 else Calls(r, i - 1, t) + if r.events[i - 1].t == t && r.events[i - 1].a.Lock? then 1 else 0
  }

  function Transfers(r: Run, i: nat, t: nat): nat
    requires i <= |r.events| && |r.states| == |r.events| + 1
  {
    if i == 0 then 0
    else Transfers(r, i - 1, t)
         + if r.events[i - 1].t == t && LastStore(r.states[i - 1], r.events[i - 1]) then 1 else 0
  }

  /** The thread has called, and its transfer is not complete. */
  predicate Owes(pc: Pc) { pc != Out && pc != Unlocking && pc != Waking }

  /** Every call makes exactly one transfer, and it is complete before the lock is given up. */
  lemma {:induction false} OneTransferPerCall(r: Run, i: nat, t: nat)
    requires Runs(r) && i < |r.states| && t < |r.states[i].threads|
    ensures Calls(r, i, t) == Transfers(r, i, t) + if Owes(r.states[i].threads[t].pc) then 1 else 0
  {
    if i > 0 {
      assert Steps(r, i - 1);
      OwesStep(r.states[i - 1], r.events[i - 1], t);
      OneTransferPerCall(r, i - 1, t);
    }
  }

  lemma OwesStep(s: State, e: Event, t: nat)
    requires Enabled(s, e.t, e.a) && t < |Apply(s, e.t, e.a).threads|
    ensures t < |s.threads|
    ensures var owes, owes' := Owes(s.threads[t].pc), Owes(Apply(s, e.t, e.a).threads[t].pc);
            if e.t == t && e.a.Lock? then !owes && owes'
            else if e.t == t && LastStore(s, e) then owes && !owes'
            else owes' == owes
  {
    if e.t != t { OthersStay(s, e.t, e.a, t); }
  }

  /** The fresh state after the transfers of a log: the sequence number counts them, and they have moved the sum of
      their amounts from the second balance to the first. */
  ghost predicate Moved(d: Data, log: seq<nat>) {
    && d == Replay(FRESH, log) && d[0] == |log| % WORD
    && d[1] == (1000000 + Sum(log)) % WORD && d[2] == (1000000 - Sum(log)) % WORD
  }

  /** The lock makes transfers atomic: whenever it is free, the data is what the transfers that have stored their last
      field, run one after the other, make of the fresh state.  So none is lost or half done. */
  lemma TransfersSerialise(r: Run, i: nat)
    requires Runs(r) && i < |r.states| && r.states[i].word == 0
    ensures Moved(r.states[i].data, Completed(r, i))
  {
    SettledAt(r, i);
    LogIs(r, i);
  }

  lemma SettledAt(r: Run, i: nat)
    requires Runs(r) && i < |r.states| && r.states[i].word == 0
    ensures Moved(r.states[i].data, r.states[i].log)
  {
    RunInv(r, i);
    Settled(r.states[i]);
  }

  lemma Settled(s: State)
    requires Exclusive(s) && Consistent(s) && s.word == 0
    ensures Moved(s.data, s.log)
  {
    ReplayMoves(FRESH, s.log);
    ReplayWords(FRESH, s.log);
  }

  /** No wakeup is lost: while somebody sleeps, the holder will find 2 and wake, or a wake is under way, or an
      awake thread is about to put the 2 back. */
  lemma SleeperRemembered(r: Run, i: nat, t: nat)
    requires Runs(r) && i < |r.states| && Sleeps(r.states[i], t)
    ensures || (&& r.states[i].word == 2
                && exists u :: 0 <= u < |r.states[i].threads| && Critical(r.states[i].threads[u].pc))
            || (exists u: nat :: Wakes(r.states[i], u))
            || (exists u: nat :: IsSlow(r.states[i], u))
  {
    RunInv(r, i);
    var s := r.states[i];
    if s.word == 2 { assert OwnerIs(s, s.owner.value); }
  }

  /** A holder that unlocks makes the wake call exactly if the word was 2.  If somebody sleeps it does, or the wake is
      already being seen to. */
  lemma UnlockWakes(r: Run, i: nat, t: nat)
    requires Runs(r) && i < |r.events| && r.events[i].t < |r.states[i].threads|
    requires r.events[i].a.Go? && r.states[i].threads[r.events[i].t].pc == Unlocking
    ensures r.states[i + 1].word == 0 && (Wakes(r.states[i + 1], r.events[i].t) <==> r.states[i].word == 2)
    ensures Sleeps(r.states[i], t) ==>
            || Wakes(r.states[i + 1], r.events[i].t)
            || (exists u: nat :: Wakes(r.states[i], u))
            || (exists u: nat :: IsSlow(r.states[i], u))
  {
    RunInv(r, i);
    assert Steps(r, i);
  }

  /** No reachable state has all unfinished threads asleep: somebody awake can always take a step. */
  lemma NeverAllAsleep(r: Run, i: nat, t: nat) returns (u: nat, a: Act)
    requires Runs(r) && i < |r.states| && Sleeps(r.states[i], t)
    ensures u < |r.states[i].threads| && r.states[i].threads[u].pc != Asleep && r.states[i].threads[u].pc != Out
    ensures a.Go? && Enabled(r.states[i], u, a)
  {
    RunInv(r, i);
    var s := r.states[i];
    if s.word == 2 {
      u := s.owner.value;
      assert OwnerIs(s, u);
    } else if w: nat :| Wakes(s, w) {
      u := w;
    } else {
      u :| IsSlow(s, u);
    }
    a := Go(true, t);
  }

  // ---------------------------------------------------------------- spinning ends

  predicate Spins(s: State, t: nat) { t < |s.threads| && (s.threads[t].pc.Spinning? || s.threads[t].pc.SpinCas?) }

  /** The steps that a thread can still spin. */
  function SpinsLeft(pc: Pc): int {
    match pc
    case Spinning(n, _) => 2 * (SPINS - n)
    case SpinCas(n) => 2 * (SPINS - n) - 1
    case _ => 0
  }

  ghost predicate SpinOk(s: State, t: nat)
    requires t < |s.threads|
  {
    Spins(s, t) ==> s.kind != RawFutex && 0 < SpinsLeft(s.threads[t].pc) <= 2 * SPINS
  }

  lemma SpinStep(s: State, u: nat, a: Act, t: nat)
    requires Enabled(s, u, a) && t < |s.threads| && SpinOk(s, t)
    ensures var s' := Apply(s, u, a);
            && |s'.threads| == |s.threads| && SpinOk(s', t)
            && (Spins(s, t) && Spins(s', t) ==>
                  SpinsLeft(s'.threads[t].pc) + (if u == t then 1 else 0) <= SpinsLeft(s.threads[t].pc))
  {
    if u != t { OthersStay(s, u, a, t); }
  }

  lemma {:induction false} RunSpins(r: Run, i: nat, t: nat)
    requires Runs(r) && i < |r.states| && t < |r.states[i].threads|
    ensures SpinOk(r.states[i], t)
  {
    if i > 0 {
      assert Steps(r, i - 1);
      SameThreads(r.states[i - 1], r.events[i - 1].t, r.events[i - 1].a);
      RunSpins(r, i - 1, t);
      SpinStep(r.states[i - 1], r.events[i - 1].t, r.events[i - 1].a, t);
    }
  }

  lemma SameThreads(s: State, t: nat, a: Act)
    requires Enabled(s, t, a)
    ensures |Apply(s, t, a).threads| == |s.threads|
  {
  }

  /** The steps that thread `t` itself takes from state `i` to state `j`. */
  function OwnSteps(r: Run, i: nat, j: nat, t: nat): nat
    requires i <= j <= |r.events|
  {
    if i == j then 0 else OwnSteps(r, i, j - 1, t) + if r.events[j - 1].t == t then 1 else 0
  }

  lemma {:induction false} SpinsCount(r: Run, i: nat, j: nat, t: nat)
    requires Runs(r) && i <= j < |r.states| && Spins(r.states[i], t) && Spins(r.states[j], t)
    requires forall m :: i <= m <= j ==> Spins(r.states[m], t)
    ensures OwnSteps(r, i, j, t) + SpinsLeft(r.states[j].threads[t].pc) <= SpinsLeft(r.states[i].threads[t].pc)
    decreases j - i
  {
    if i < j {
      SpinsCount(r, i, j - 1, t);
      assert Steps(r, j - 1);
      RunSpins(r, j - 1, t);
      SpinStep(r.states[j - 1], r.events[j - 1].t, r.events[j - 1].a, t);
    }
  }

  /** Spinning ends: a call looks at the word at most 40 times before it takes the lock or parks, in fewer than 80
      steps of its own.  RawFutexMutex does not spin at all. */
  lemma SpinningEnds(r: Run, i: nat, j: nat, t: nat)
    requires Runs(r) && i <= j < |r.states| && forall m :: i <= m <= j ==> Spins(r.states[m], t)
    ensures OwnSteps(r, i, j, t) < 2 * SPINS && r.states[i].kind != RawFutex
  {
    RunSpins(r, i, t);
    RunSpins(r, j, t);
    SpinsCount(r, i, j, t);
  }

  // ---------------------------------------------------------------- when the kernel is called

  /** Nobody is near the kernel. */
  ghost predicate Userspace(s: State) {
    s.word <= 1 && forall u :: 0 <= u < |s.threads| ==> !IsSlow(s, u) && !Sleeps(s, u) && !Wakes(s, u)
  }

  /** As long as nobody has had to give up spinning, nobody sleeps and no unlock makes a wake call. */
  lemma {:induction false} NoKernelCalls(r: Run, i: nat)
    requires Runs(r) && i < |r.states|
    requires forall m, u :: 0 <= m <= i && 0 <= u < |r.states[m].threads| ==> !IsSlow(r.states[m], u)
    ensures Userspace(r.states[i])
  {
    if i > 0 {
      NoKernelCalls(r, i - 1);
      assert Steps(r, i - 1);
      StaysInUserspace(r.states[i - 1], r.events[i - 1].t, r.events[i - 1].a);
    }
  }

  lemma StaysInUserspace(s: State, t: nat, a: Act)
    requires Userspace(s) && Enabled(s, t, a) && !IsSlow(Apply(s, t, a), t)
    ensures Userspace(Apply(s, t, a))
  {
    var s' := Apply(s, t, a);
    SameThreads(s, t, a);
    assert !IsSlow(s, t) && !Sleeps(s, t) && !Wakes(s, t);
    forall u | 0 <= u < |s'.threads| ensures !IsSlow(s', u) && !Sleeps(s', u) && !Wakes(s', u) {
      if u != t {
        OthersStay(s, t, a, u);
        assert !IsSlow(s, u) && !Sleeps(s, u) && !Wakes(s, u);
      }
    }
  }

  /** Steps of thread `t` and of nobody else. */
  ghost predicate Alone(run: seq<State>, t: nat, s: State, s': State) {
    && run != [] && run[0] == s && run[|run| - 1] == s'
    && forall m :: 0 <= m < |run| - 1 ==> StepsAlone(run, t, m)
  }

  ghost predicate StepsAlone(run: seq<State>, t: nat, m: nat)
    requires m + 1 < |run|
  {
    Enabled(run[m], t, Go(true, t)) && run[m + 1] == Apply(run[m], t, Go(true, t))
  }

  lemma First(s: State, t: nat, more: seq<State>, s': State) returns (run: seq<State>)
    requires Enabled(s, t, Go(true, t)) && Alone(more, t, Apply(s, t, Go(true, t)), s')
    ensures Alone(run, t, s, s') && |run| == |more| + 1
  {
    run := [s] + more;
    forall m | 0 <= m < |run| - 1 ensures StepsAlone(run, t, m) {
      if m > 0 { assert StepsAlone(more, t, m - 1); }
    }
  }

  function AsleepWith2(s: State, t: nat): State
    requires t < |s.threads|
  {
    Goes(s, t, Asleep).(word := 2)
  }

  lemma SlowAlone(s: State, t: nat) returns (run: seq<State>)
    requires t < |s.threads| && s.word in {1, 2} && s.threads[t].pc == AfterSpin(s.word)
    ensures Alone(run, t, s, AsleepWith2(s, t)) && |run| - 1 == if s.word == 2 then 1 else 2
  {
    var s' := AsleepWith2(s, t);
    if s.word == 2 {
      run := First(s, t, [s'], s');
    } else {
      var s1 := Apply(s, t, Go(true, t));
      run := First(s1, t, [s'], s');
      run := First(s, t, run, s');
    }
  }

  lemma {:induction false} SpinAlone(s: State, t: nat, n: nat) returns (run: seq<State>)
    requires t < |s.threads| && s.word in {1, 2} && n < SPINS && s.threads[t].pc == Spinning(n, s.word)
    ensures Alone(run, t, s, AsleepWith2(s, t)) && |run| - 1 == SPINS - n + if s.word == 2 then 1 else 2
    decreases SPINS - n
  {
    var s1 := Apply(s, t, Go(true, t));
    if n + 1 < SPINS { run := SpinAlone(s1, t, n + 1); } else { run := SlowAlone(s1, t); }
    run := First(s, t, run, AsleepWith2(s, t));
  }

  /** A thread that finds the lock held, and stays undisturbed, is asleep after exactly one look and 40 spins (none for
      RawFutexMutex), an exchange that puts in 2 unless it saw 2, and the wait call; it has changed nothing else. */
  lemma HeldMeansSleep(s: State, t: nat) returns (run: seq<State>)
    requires t < |s.threads| && s.threads[t].pc == Fast && s.word in {1, 2}
    ensures Alone(run, t, s, AsleepWith2(s, t))
    ensures |run| - 1 == 1 + (if s.kind == RawFutex then 0 else 40) + (if s.word == 2 then 0 else 1) + 1
  {
    var s1 := Apply(s, t, Go(true, t));
    if s.kind == RawFutex { run := SlowAlone(s1, t); } else { run := SpinAlone(s1, t, 0); }
    run := First(s, t, run, AsleepWith2(s, t));
  }

  /** A thread that calls, or spins, while the lock is free, and stays undisturbed, takes it with 1 in the word, so that
      its unlock makes no wake call: at once, or after the look that finds it free if the weak exchange succeeds. */
  lemma FreeTaken(s: State, t: nat) returns (run: seq<State>, s': State)
    requires t < |s.threads| && s.word == 0 && (s.threads[t].pc == Fast || s.threads[t].pc.Spinning?)
    ensures Alone(run, t, s, s') && |run| - 1 == if s.threads[t].pc == Fast then 1 else 2
    ensures s' == Goes(s, t, Loading(0)).(word := 1, owner := Some(t))
  {
    s' := Goes(s, t, Loading(0)).(word := 1, owner := Some(t));
    if s.threads[t].pc == Fast {
      run := First(s, t, [s'], s');
    } else {
      var s1 := Apply(s, t, Go(true, t));
      run := First(s1, t, [s'], s');
      run := First(s, t, run, s');
    }
  }

  /** A thread that is woken while the lock is free, and stays undisturbed, takes it with 2 in the word, so that its
      unlock wakes whoever else sleeps: at once, or after another look for Cpp20AtomicWaitLock. */
  lemma WokenTakes(s: State, t: nat) returns (run: seq<State>, s': State)
    requires Enabled(s, t, Spurious) && s.word == 0
    ensures Alone(run, t, Apply(s, t, Spurious), s') && |run| - 1 == if s.kind == Cpp20Wait then 2 else 1
    ensures s' == Goes(s, t, Loading(0)).(word := 2, owner := Some(t))
  {
    var s1 := Apply(s, t, Spurious);
    s' := Goes(s, t, Loading(0)).(word := 2, owner := Some(t));
    if s.kind == Cpp20Wait {
      var s2 := Apply(s1, t, Go(true, t));
      run := First(s2, t, [s'], s');
      run := First(s1, t, run, s');
    } else {
      run := First(s1, t, [s'], s');
    }
  }
}
