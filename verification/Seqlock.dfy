/**
 Sequence locks: SeqlockRouteCache<T> of episodes/high_performance/10_locks_under_the_hood/challenge.cc, SeqLock
 of common/concurrency/seqlock.h, and the do-while cache of common/locks_under_the_hood/locks_under_the_hood.h.

 Any number of readers; payload words are stored and loaded one per step, in any order.  The counter is 64-bit;
 `bumps` counts its increments without wrapping and `versions` lists the payloads written, newest last.
 */
module Seqlock {
  import opened Prelude
  import opened Modular

  const WRAP: nat := 0x1_0000_0000_0000_0000

  type Payload = seq<nat>

  // RouteCache: writers under a mutex, for(;;) readers.  SeqLock: one writer, fetch_add, ReadBegin/ReadRetry.
  // DoWhile: one writer, `continue` inside do ... while (s0 != s1).
  datatype Kind = RouteCache | SeqLock | DoWhile

  datatype Pc =
    | Idle
    | WaitMutex(next: Payload)
    | LoadSeq(next: Payload)
    | StoreOdd(next: Payload, s0: nat)
    | Copying(next: Payload, s0: nat, todo: set<nat>)
    | Release
    | Begin(s1: nat, copy: Payload)
    | Reading(s0: nat, copy: Payload, todo: set<nat>, from: nat, mark: nat)
    | Returned(copy: Payload)

  // `owner` is the writer inside its section: the mutex of a RouteCache, a history variable otherwise.  A reader's
  // `from` and `mark` record the unwrapped counter and the number of versions when it loaded s0.
  datatype State = State(
    kind: Kind, width: nat, counter: nat, data: Payload, owner: Option<nat>, pcs: seq<Pc>,
    bumps: nat, versions: seq<Payload>)

  // Update(next) and Read(garbage) begin a call; Go(k) takes the next step, on word k where it touches one.
  datatype Act = Update(next: Payload) | Read(garbage: Payload) | Go(k: nat)

  function Init(kind: Kind, first: nat, data: Payload, n: nat): State {
    State(kind, |data|, first, data, None, seq(n, _ => Idle), first, [data])
  }

  predicate Odd(x: nat) { x % 2 == 1 }

  function Words(width: nat): (all: set<nat>)
    ensures forall k: nat :: k in all <==> k < width
  {
    if width == 0 then {} else Words(width - 1) + {width - 1}
  }

  predicate Enabled(s: State, t: nat, a: Act) {
    && t < |s.pcs|
    && match a
       case Update(next) => s.pcs[t] == Idle && |next| == s.width && (s.kind != RouteCache ==> t == 0)
       case Read(garbage) => s.pcs[t] == Idle && |garbage| == s.width
       case Go(k) =>
         match s.pcs[t]
         case Idle => false
         case WaitMutex(_) => s.owner == None
         case Copying(next, _, todo) => todo != {} ==> k in todo && k < |s.data| && k < |next|
         case Reading(_, copy, todo, _, _) => todo != {} ==> k in todo && k < |s.data| && k < |copy|
         case _ => true
  }

  function Goes(s: State, t: nat, pc: Pc): State
    requires t < |s.pcs|
  {
    s.(pcs := s.pcs[t := pc])
  }

  function Apply(s: State, t: nat, a: Act): State
    requires Enabled(s, t, a)
  {
    match a
    case Update(next) =>
      if s.kind == RouteCache then Goes(s, t, WaitMutex(next)) else Goes(s, t, LoadSeq(next)).(owner := Some(t))
    case Read(garbage) => Goes(s, t, Begin(0, garbage))
    case Go(k) =>
      match s.pcs[t]
      case WaitMutex(next) => Goes(s, t, LoadSeq(next)).(owner := Some(t))
      case LoadSeq(next) =>
        if s.kind == SeqLock then
          Goes(s, t, Copying(next, s.counter, Words(s.width))).(counter := (s.counter + 1) % WRAP, bumps := s.bumps + 1)
        else Goes(s, t, StoreOdd(next, s.counter))
      case StoreOdd(next, s0) =>
        Goes(s, t, Copying(next, s0, Words(s.width))).(counter := (s0 + 1) % WRAP, bumps := s.bumps + 1)
      case Copying(next, s0, todo) =>
        if todo != {} then Goes(s, t, Copying(next, s0, todo - {k})).(data := s.data[k := next[k]])
        else
          var even := if s.kind == SeqLock then (s.counter + 1) % WRAP else (s0 + 2) % WRAP;
          var done := s.(counter := even, bumps := s.bumps + 1, versions := s.versions + [next]);
          if s.kind == RouteCache then Goes(done, t, Release) else Goes(done, t, Idle).(owner := None)
      case Release => Goes(s, t, Idle).(owner := None)
      case Begin(s1, copy) =>
        var s0 := s.counter;
        if Odd(s0) && s.kind == RouteCache then s
        else if Odd(s0) && s.kind == DoWhile then
          if s0 != s1 then s else Goes(s, t, Returned(copy))
        else Goes(s, t, Reading(s0, copy, Words(s.width), s.bumps, |s.versions|))
      case Reading(s0, copy, todo, from, mark) =>
        if todo != {} then Goes(s, t, Reading(s0, copy[k := s.data[k]], todo - {k}, from, mark))
        else if s0 != s.counter || (s.kind == SeqLock && Odd(s0)) then Goes(s, t, Begin(s.counter, copy))
        else Goes(s, t, Returned(copy))
      case Returned(_) => Goes(s, t, Idle)
      case Idle => s
  }

  // ---------------------------------------------------------------- invariant

  predicate Writing(pc: Pc) { pc.LoadSeq? || pc.StoreOdd? || pc.Copying? || pc.Release? }

  ghost predicate OwnerIs(s: State, t: nat)
    requires t < |s.pcs|
  {
    && (Writing(s.pcs[t]) <==> s.owner == Some(t))
    && (s.kind != RouteCache && t != 0 ==> !s.pcs[t].WaitMutex? && !Writing(s.pcs[t]))
  }

  /** What the writer has done so far shows in the counter and the data. */
  ghost predicate WriterOk(s: State, pc: Pc) {
    match pc
    case Copying(next, s0, todo) =>
      && Odd(s.bumps) && |s.data| == |next| == s.width && todo <= Words(s.width)
      && (s.kind != SeqLock ==> (s0 + 1) % WRAP == s.bumps % WRAP)
      && (forall k :: 0 <= k < s.width && k !in todo ==> s.data[k] == next[k])
    case StoreOdd(next, s0) => Quiet(s) && |next| == s.width && s0 % WRAP == s.bumps % WRAP
    case LoadSeq(next) => Quiet(s) && |next| == s.width
    case _ => Quiet(s)
  }

  ghost predicate Sized(s: State) { s.versions != [] && |s.data| == s.width && s.counter == s.bumps % WRAP }

  /** Between updates the data is the newest version. */
  ghost predicate Quiet(s: State) {
    s.versions != [] && !Odd(s.bumps) && s.data == s.versions[|s.versions| - 1]
  }

  /** As long as the counter has not moved since an even s0, the words copied are those of the newest version. */
  ghost predicate ReaderOk(s: State, pc: Pc) {
    match pc
    case WaitMutex(next) => |next| == s.width
    case Begin(_, copy) => |copy| == s.width
    case Reading(s0, copy, todo, from, mark) =>
      && |copy| == |s.data| == s.width && todo <= Words(s.width) && s0 == from % WRAP && from <= s.bumps
      && (from == s.bumps ==> mark == |s.versions|)
      && (from == s.bumps && !Odd(from) ==> forall k :: 0 <= k < s.width && k !in todo ==> copy[k] == s.data[k])
    case _ => true
  }

  ghost predicate Inv(s: State) {
    && Sized(s)
    && (forall t :: 0 <= t < |s.pcs| ==> OwnerIs(s, t))
    && (forall t :: 0 <= t < |s.pcs| ==> ReaderOk(s, s.pcs[t]))
    && (match s.owner case None => Quiet(s) case Some(t) => t < |s.pcs| && WriterOk(s, s.pcs[t]))
  }

  lemma InitInv(kind: Kind, first: nat, data: Payload, n: nat)
    requires !Odd(first) && first < WRAP
    ensures Inv(Init(kind, first, data, n))
  {
  }

  lemma OwnersKept(s: State, t: nat, a: Act)
    requires Enabled(s, t, a) && forall u :: 0 <= u < |s.pcs| ==> OwnerIs(s, u)
    ensures forall u :: 0 <= u < |s.pcs| ==> OwnerIs(Apply(s, t, a), u)
  {
    var s' := Apply(s, t, a);
    assert OwnerIs(s, t) && (s.kind != RouteCache && s.pcs != [] ==> OwnerIs(s, 0));
    forall u | 0 <= u < |s.pcs| ensures OwnerIs(s', u) { assert OwnerIs(s, u); }
  }

  /** Only the writer inside its section touches the counter, the data and the versions. */
  lemma OnlyOwnerWrites(s: State, t: nat, a: Act)
    requires Enabled(s, t, a) && OwnerIs(s, t) && !Writing(s.pcs[t])
    ensures var s' := Apply(s, t, a);
            && s'.counter == s.counter && s'.data == s.data && s'.bumps == s.bumps && s'.versions == s.versions
            && (s'.owner == s.owner || (s.owner == None && s'.owner == Some(t) && s'.pcs[t].LoadSeq?)
                || (s.kind != RouteCache && a.Update? && s'.owner == Some(t) && s'.pcs[t].LoadSeq?))
  {
  }

  lemma WriterKept(s: State, t: nat, a: Act)
    requires Sized(s) && Enabled(s, t, a) && Writing(s.pcs[t]) && WriterOk(s, s.pcs[t]) && s.owner == Some(t)
    ensures var s' := Apply(s, t, a);
            && Sized(s')
            && (if s'.owner == None then Quiet(s') else s'.owner == s.owner && WriterOk(s', s'.pcs[t]))
  {
    if s.pcs[t].Copying? && s.pcs[t].todo == {} { WriterEnds(s, t, a); } else { WriterGoesOn(s, t, a); }
  }

  lemma WriterGoesOn(s: State, t: nat, a: Act)
    requires Sized(s) && Enabled(s, t, a) && Writing(s.pcs[t]) && WriterOk(s, s.pcs[t]) && s.owner == Some(t)
    requires s.pcs[t].Copying? ==> s.pcs[t].todo != {}
    ensures var s' := Apply(s, t, a);
            && Sized(s')
            && (if s'.owner == None then Quiet(s') else s'.owner == s.owner && WriterOk(s', s'.pcs[t]))
  {
    if s.pcs[t].StoreOdd? { WriterLocks(s, t, a); }
    else if s.pcs[t].LoadSeq? { WriterLoads(s, t, a); }
  }

  lemma WriterLoads(s: State, t: nat, a: Act)
    requires Sized(s) && Enabled(s, t, a) && s.pcs[t].LoadSeq? && WriterOk(s, s.pcs[t]) && s.owner == Some(t)
    ensures var s' := Apply(s, t, a);
            Sized(s') && s'.owner == s.owner && WriterOk(s', s'.pcs[t])
  {
    CounterShows(s.bumps);
    if s.kind == SeqLock { OddNext(s.counter, s.bumps); }
  }

  lemma CounterShows(bumps: nat)
    ensures (bumps % WRAP) % WRAP == bumps % WRAP
  {
  }

  lemma WriterLocks(s: State, t: nat, a: Act)
    requires Sized(s) && Enabled(s, t, a) && s.pcs[t].StoreOdd? && WriterOk(s, s.pcs[t]) && s.owner == Some(t)
    ensures var s' := Apply(s, t, a);
            Sized(s') && s'.owner == s.owner && WriterOk(s', s'.pcs[t])
  {
    OddNext(s.pcs[t].s0, s.bumps);
  }

  lemma OddNext(s0: nat, bumps: nat)
    requires s0 % WRAP == bumps % WRAP && !Odd(bumps)
    ensures (s0 + 1) % WRAP == (bumps + 1) % WRAP && Odd(bumps + 1)
  {
    SameSuccessor(s0, bumps, WRAP);
    OddAfterEven(bumps);
  }

  lemma OddAfterEven(x: nat)
    ensures !Odd(x) ==> Odd(x + 1)
  {
  }

  /** The counter store that makes an update a version. */
  lemma WriterEnds(s: State, t: nat, a: Act)
    requires Sized(s) && Enabled(s, t, a) && s.owner == Some(t)
    requires s.pcs[t].Copying? && s.pcs[t].todo == {} && WriterOk(s, s.pcs[t])
    ensures var s' := Apply(s, t, a);
            && Sized(s') && Quiet(s')
            && (if s'.owner == None then true else s'.owner == s.owner && s'.pcs[t].Release?)
  {
    assert s.data == s.pcs[t].next;
    EvenAgain(s.kind, s.counter, s.pcs[t].s0, s.bumps);
  }

  /** Both ways of making the counter even again add 1 to what it shows. */
  lemma EvenAgain(kind: Kind, counter: nat, s0: nat, bumps: nat)
    requires counter == bumps % WRAP && (kind != SeqLock ==> (s0 + 1) % WRAP == bumps % WRAP)
    ensures (if kind == SeqLock then (counter + 1) % WRAP else (s0 + 2) % WRAP) == (bumps + 1) % WRAP
  {
    WrappedSuccessor(bumps, 1, WRAP);
    WrappedSuccessor(s0 + 1, 1, WRAP);
  }

  lemma ReadersKept(s: State, t: nat, a: Act, u: nat)
    requires Sized(s) && Enabled(s, t, a) && u < |s.pcs| && ReaderOk(s, s.pcs[u])
    requires Writing(s.pcs[t]) ==> WriterOk(s, s.pcs[t])
    ensures ReaderOk(Apply(s, t, a), Apply(s, t, a).pcs[u])
  {
  }

  lemma StepInv(s: State, t: nat, a: Act)
    requires Inv(s) && Enabled(s, t, a)
    ensures Inv(Apply(s, t, a))
  {
    var s' := Apply(s, t, a);
    OwnersKept(s, t, a);
    assert OwnerIs(s, t);
    forall u | 0 <= u < |s'.pcs| ensures ReaderOk(s', s'.pcs[u]) { ReadersKept(s, t, a, u); }
    if Writing(s.pcs[t]) {
      WriterKept(s, t, a);
    } else {
      OnlyOwnerWrites(s, t, a);
      if s.owner.Some? { assert OwnerIs(s, s.owner.value); }
    }
  }

  // ---------------------------------------------------------------- runs

  datatype Event = Event(t: nat, a: Act)

  // `states[i]` is the state before event `i`.
  datatype Run = Run(states: seq<State>, events: seq<Event>)

  /** Any number of threads; the counter starts at any even value. */
  ghost predicate Runs(r: Run) {
    && |r.states| == |r.events| + 1
    && (exists kind: Kind, first: nat, data: Payload, n: nat ::
          !Odd(first) && first < WRAP && r.states[0] == Init(kind, first, data, n))
    && forall i :: 0 <= i < |r.events| ==> Steps(r, i)
  }

  ghost predicate Steps(r: Run, i: nat)
    requires i < |r.events| && |r.states| == |r.events| + 1
  {
    && Enabled(r.states[i], r.events[i].t, r.events[i].a)
    && r.states[i + 1] == Apply(r.states[i], r.events[i].t, r.events[i].a)
  }

  lemma {:induction false} RunInv(r: Run, i: nat)
    requires Runs(r) && i < |r.states|
    ensures Inv(r.states[i])
  {
    if i == 0 {
      var kind: Kind, first: nat, data: Payload, n: nat :|
        !Odd(first) && first < WRAP && r.states[0] == Init(kind, first, data, n);
      InitInv(kind, first, data, n);
    } else {
      RunInv(r, i - 1);
      assert Steps(r, i - 1);
      StepInv(r.states[i - 1], r.events[i - 1].t, r.events[i - 1].a);
    }
  }

  predicate Starts(s: State, t: nat) { t < |s.pcs| && s.pcs[t].Begin? }

  predicate Returns(s: State, t: nat) { t < |s.pcs| && s.pcs[t].Returned? }

  /** Thread `t` ends its attempt in event `i` by finding the counter as it was. */
  ghost predicate Accepts(r: Run, i: nat, t: nat) {
    && Runs(r) && i < |r.events| && r.events[i] == Event(t, r.events[i].a) && t < |r.states[i].pcs|
    && r.states[i].pcs[t].Reading? && Returns(r.states[i + 1], t)
  }

  /** No torn reads: a payload accepted by the even and unchanged test is exactly the newest complete version, and
      it has been the newest since the attempt loaded the counter.  (The counter would have to wrap around during
      the attempt for the test to be fooled.) */
  lemma Snapshot(r: Run, i: nat, t: nat)
    requires Accepts(r, i, t)
    requires r.states[i].bumps < r.states[i].pcs[t].from + WRAP
    ensures var s := r.states[i];
            && s.versions != [] && r.states[i + 1].pcs[t].copy == s.versions[|s.versions| - 1] == s.data
            && |s.versions| == s.pcs[t].mark && s.bumps == s.pcs[t].from
  {
    RunInv(r, i);
    assert Steps(r, i);
    var s := r.states[i];
    assert ReaderOk(s, s.pcs[t]);
    SameResidue(s.pcs[t].from, s.bumps, WRAP);
    AcceptsEven(r, i, t);
    EvenIsQuiet(s);
  }

  /** Only an even counter is accepted, whatever the protocol. */
  lemma AcceptsEven(r: Run, i: nat, t: nat)
    requires Runs(r) && i < |r.events| && Steps(r, i) && r.events[i].t == t
    requires t < |r.states[i].pcs| && r.states[i].pcs[t].Reading? && Returns(r.states[i + 1], t)
    ensures !Odd(r.states[i].pcs[t].s0)
  {
    EvenStart(r, i, t);
  }

  /** The loops that test for an odd counter first never read behind one. */
  lemma {:induction false} EvenStart(r: Run, i: nat, t: nat)
    requires Runs(r) && i < |r.states| && t < |r.states[i].pcs| && r.states[i].pcs[t].Reading?
    ensures r.states[i].kind == SeqLock || !Odd(r.states[i].pcs[t].s0)
  {
    if i > 0 {
      assert Steps(r, i - 1);
      if r.states[i - 1].pcs[t].Reading? { EvenStart(r, i - 1, t); }
    }
  }

  /** An even counter means no update is half done. */
  lemma EvenIsQuiet(s: State)
    requires Inv(s) && !Odd(s.counter)
    ensures Quiet(s)
  {
    EvenCounter(s.bumps);
    if s.owner.Some? { assert WriterOk(s, s.pcs[s.owner.value]); }
  }

  /** Wrapping at an even modulus keeps the parity. */
  lemma EvenCounter(bumps: nat)
    ensures Odd(bumps % WRAP) <==> Odd(bumps)
  {
    ModOfMod(bumps, 2, WRAP / 2);
  }

  // ---------------------------------------------------------------- what an update writes

  predicate IsIdle(s: State, t: nat) { t < |s.pcs| && s.pcs[t] == Idle }

  /** Thread `t` calls update(next) in event `i`, and has not returned in the states up to `j`. */
  ghost predicate Updates(r: Run, i: nat, j: nat, t: nat, next: Payload) {
    && Runs(r) && i < j < |r.states| && r.events[i] == Event(t, Update(next)) && t < |r.states[j].pcs|
    && forall m :: i < m <= j && m < |r.states| ==> !IsIdle(r.states[m], t)
  }

  /** Event `m` leaves the versions alone, or is not of thread `t`. */
  ghost predicate NotItsWrite(r: Run, t: nat, m: nat)
    requires m < |r.events| && |r.states| == |r.events| + 1
  {
    r.events[m].t != t || r.states[m + 1].versions == r.states[m].versions
  }

  /** Of the thread's events from `i` to `j` event `k` makes `next` the newest version, and no other changes any. */
  ghost predicate WritesAt(r: Run, i: nat, j: nat, t: nat, k: nat, next: Payload) {
    && i < k < j <= |r.events| && |r.states| == |r.events| + 1 && r.events[k].t == t
    && r.states[k + 1].versions == r.states[k].versions + [next]
    && forall m :: i <= m < j && m != k ==> NotItsWrite(r, t, m)
  }

  predicate Carries(pc: Pc, next: Payload) {
    match pc
    case WaitMutex(p) => p == next
    case LoadSeq(p) => p == next
    case StoreOdd(p, _) => p == next
    case Copying(p, _, _) => p == next
    case _ => false
  }

  /** One step of a thread that is in a call of update(next) and has not written it. */
  lemma UpdateStep(s: State, t: nat, a: Act, next: Payload)
    requires Enabled(s, t, a) && Carries(s.pcs[t], next)
    ensures var s' := Apply(s, t, a);
            if Carries(s'.pcs[t], next) then s'.versions == s.versions
            else s'.versions == s.versions + [next] && s'.pcs[t] == if s.kind == RouteCache then Release else Idle
  {
  }

  lemma OtherStays(s: State, u: nat, a: Act, t: nat)
    requires Enabled(s, u, a) && t < |s.pcs| && u != t
    ensures t < |Apply(s, u, a).pcs| && Apply(s, u, a).pcs[t] == s.pcs[t]
  {
  }

  lemma {:induction false} UpdateGoesOn(r: Run, i: nat, j: nat, t: nat, next: Payload) returns (k: nat)
    requires Updates(r, i, j, t, next)
    ensures if r.states[j].pcs[t] == Release then WritesAt(r, i, j, t, k, next)
            else Carries(r.states[j].pcs[t], next) && forall m :: i <= m < j ==> NotItsWrite(r, t, m)
  {
    assert Steps(r, j - 1);
    k := i;
    if j > i + 1 {
      var s, e := r.states[j - 1], r.events[j - 1];
      k := UpdateGoesOn(r, i, j - 1, t, next);
      if e.t != t { OtherStays(s, e.t, e.a, t); }
      else if s.pcs[t] != Release { UpdateStep(s, t, e.a, next); k := j - 1; }
    }
  }

  /** An update that returns has made its own argument a version, in exactly one of its steps. */
  lemma UpdateWritesOnce(r: Run, i: nat, j: nat, t: nat, next: Payload) returns (k: nat)
    requires Updates(r, i, j, t, next) && j < |r.events| && IsIdle(r.states[j + 1], t)
    ensures WritesAt(r, i, j + 1, t, k, next)
  {
    assert Steps(r, j);
    k := UpdateGoesOn(r, i, j, t, next);
    var s, e := r.states[j], r.events[j];
    if e.t != t { OtherStays(s, e.t, e.a, t); }
    else if s.pcs[t] != Release { UpdateStep(s, t, e.a, next); k := j; }
  }

  // ---------------------------------------------------------------- the do-while reader

  /** RouteCache and SeqLock readers return only through the test.  The do-while reader has one more way out: an odd
      counter equal to the last value loaded. */
  lemma ReturnsIff(r: Run, i: nat)
    requires Runs(r) && i < |r.events| && r.events[i].t < |r.states[i].pcs| && r.events[i].a.Go?
    ensures var s, t := r.states[i], r.events[i].t;
            Returns(r.states[i + 1], t)
            <==> Accepts(r, i, t) || (&& s.kind == DoWhile && s.pcs[t].Begin?
                                      && Odd(s.counter) && s.counter == s.pcs[t].s1)
  {
    assert Steps(r, i);
  }

  /** Thread `t` calls read in event `i`, and event `j` returns from that call. */
  ghost predicate Reads(r: Run, i: nat, j: nat, t: nat) {
    && Runs(r) && i < j < |r.events| && r.events[i].t == t && r.events[i].a.Read?
    && r.events[j].t == t && r.events[j].a.Go? && Returns(r.states[j + 1], t)
    && forall m :: i < m <= j ==> !Returns(r.states[m], t)
  }

  /** What the call returned was, at some moment of the call, the newest complete version. */
  ghost predicate WasCurrent(r: Run, i: nat, j: nat, t: nat)
    requires j < |r.events| && |r.states| == |r.events| + 1 && Returns(r.states[j + 1], t)
  {
    exists m :: i <= m <= j && Current(r.states[m], r.states[j + 1].pcs[t].copy)
  }

  ghost predicate Current(s: State, copy: Payload) { s.versions != [] && copy == s.versions[|s.versions| - 1] }

  /** Fewer counter stores during the call than would take the counter around. */
  ghost predicate NoWrap(r: Run, i: nat, j: nat)
    requires i < |r.states| && j < |r.states|
  {
    r.states[j].bumps < r.states[i].bumps + WRAP
  }

  lemma KindStays(r: Run, i: nat)
    requires Runs(r) && i < |r.states|
    ensures r.states[i].kind == r.states[0].kind
  {
    if i > 0 {
      KindStays(r, i - 1);
      assert Steps(r, i - 1);
    }
  }

  /** A reader has loaded its counter since its call began, and not returned. */
  ghost predicate Since(s: State, t: nat, start: nat) {
    && t < |s.pcs| && (s.pcs[t].Begin? || s.pcs[t].Reading?) && start <= s.bumps
    && (s.pcs[t].Reading? ==> start <= s.pcs[t].from <= s.bumps)
  }

  lemma {:induction false} LoadedSince(r: Run, i: nat, j: nat, t: nat)
    requires Runs(r) && i < j < |r.states| && r.events[i].t == t && r.events[i].a.Read?
    requires forall m :: i < m <= j ==> !Returns(r.states[m], t)
    ensures Since(r.states[j], t, r.states[i].bumps)
  {
    if j == i + 1 {
      assert Steps(r, i);
    } else {
      LoadedSince(r, i, j - 1, t);
      assert Steps(r, j - 1);
    }
  }

  /** A call that does not return on an odd counter returns a version that was current during the call.  Of a do-while
      reader that is the whole condition: an even counter in the step that returns. */
  lemma EvenIsCurrent(r: Run, i: nat, j: nat, t: nat)
    requires Reads(r, i, j, t) && NoWrap(r, i, j)
    requires r.states[0].kind == DoWhile ==> !Odd(r.states[j].counter)
    ensures WasCurrent(r, i, j, t)
  {
    KindStays(r, j);
    LoadedSince(r, i, j, t);
    ReturnsIff(r, j);
    Snapshot(r, j, t);
    assert Current(r.states[j], r.states[j + 1].pcs[t].copy);
  }

  /** A do-while reader that never finds a writer at work when it starts over is not fooled. */
  lemma EvenStartsSuffice(r: Run, i: nat, j: nat, t: nat)
    requires Reads(r, i, j, t) && NoWrap(r, i, j)
    requires forall m :: i < m <= j && r.events[m].t == t && Starts(r.states[m], t) ==> !Odd(r.states[m].counter)
    ensures WasCurrent(r, i, j, t)
  {
    LoadedSince(r, i, j, t);
    ReturnsIff(r, j);
    if Accepts(r, j, t) { AcceptedEven(r, j, t); }
    EvenIsCurrent(r, i, j, t);
  }

  lemma AcceptedEven(r: Run, i: nat, t: nat)
    requires Accepts(r, i, t)
    ensures !Odd(r.states[i].counter)
  {
    AcceptsEven(r, i, t);
    assert Steps(r, i);
  }

  /** The promise of a sequence lock: every read returns one writer's payload, current at some moment of the read. */
  ghost predicate NeverTorn(kind: Kind) {
    forall r, i, j, t :: Reads(r, i, j, t) && NoWrap(r, i, j) && r.states[0].kind == kind ==> WasCurrent(r, i, j, t)
  }

  /** Two of the three protocols keep the promise. */
  lemma NeverTornIff(kind: Kind)
    ensures NeverTorn(kind) <==> kind != DoWhile
  {
    if kind == DoWhile {
      var r := DoWhileTears();
      assert Reads(r, 0, 9, 1) && NoWrap(r, 0, 9);
      assert !WasCurrent(r, 0, 9, 1);
    } else {
      forall r, i, j, t | Reads(r, i, j, t) && NoWrap(r, i, j) && r.states[0].kind == kind
        ensures WasCurrent(r, i, j, t)
      {
        EvenIsCurrent(r, i, j, t);
      }
    }
  }

  const NEXT: Payload := [1, 1]

  /** Thread 0 writes NEXT over [0, 0] while thread 1 reads. */
  function Snap(counter: nat, data: Payload, owner: Option<nat>, w: Pc, rd: Pc): State {
    State(DoWhile, 2, counter, data, owner, [w, rd], counter, [[0, 0]])
  }

  // The reader begins, the writer stores the odd counter and one word, the reader copies both words, sees that the
  // counter moved, goes around, and finds the odd counter that it has just loaded.
  const TRACE: seq<State> := [
    Snap(0, [0, 0], None, Idle, Idle),
    Snap(0, [0, 0], None, Idle, Begin(0, [9, 9])),
    Snap(0, [0, 0], None, Idle, Reading(0, [9, 9], {0, 1}, 0, 1)),
    Snap(0, [0, 0], Some(0), LoadSeq(NEXT), Reading(0, [9, 9], {0, 1}, 0, 1)),
    Snap(0, [0, 0], Some(0), StoreOdd(NEXT, 0), Reading(0, [9, 9], {0, 1}, 0, 1)),
    Snap(1, [0, 0], Some(0), Copying(NEXT, 0, {0, 1}), Reading(0, [9, 9], {0, 1}, 0, 1)),
    Snap(1, [1, 0], Some(0), Copying(NEXT, 0, {1}), Reading(0, [9, 9], {0, 1}, 0, 1)),
    Snap(1, [1, 0], Some(0), Copying(NEXT, 0, {1}), Reading(0, [1, 9], {1}, 0, 1)),
    Snap(1, [1, 0], Some(0), Copying(NEXT, 0, {1}), Reading(0, [1, 0], {}, 0, 1)),
    Snap(1, [1, 0], Some(0), Copying(NEXT, 0, {1}), Begin(1, [1, 0])),
    Snap(1, [1, 0], Some(0), Copying(NEXT, 0, {1}), Returned([1, 0]))]

  const EVENTS: seq<Event> := [
    Event(1, Read([9, 9])), Event(1, Go(0)), Event(0, Update(NEXT)), Event(0, Go(0)), Event(0, Go(0)), Event(0, Go(0)),
    Event(1, Go(0)), Event(1, Go(1)), Event(1, Go(0)), Event(1, Go(0))]

  ghost predicate TraceOk(i: nat) {
    i < 10 && Enabled(TRACE[i], EVENTS[i].t, EVENTS[i].a) && Apply(TRACE[i], EVENTS[i].t, EVENTS[i].a) == TRACE[i + 1]
  }

  lemma SnapGoes(s: State, t: nat, w: Pc, rd: Pc, w': Pc, rd': Pc)
    requires s.pcs == [w, rd] && t < 2 && (if t == 0 then rd' == rd else w' == w)
    ensures s.pcs[t := if t == 0 then w' else rd'] == [w', rd']
  {
  }

  lemma WriterHalfway()
    ensures TraceOk(0) && TraceOk(1) && TraceOk(2) && TraceOk(3) && TraceOk(4) && TraceOk(5)
  {
    assert Words(2) == {0, 1};
    var rd := TRACE[2].pcs[1];
    SnapGoes(TRACE[0], 1, Idle, Idle, Idle, Begin(0, [9, 9]));
    SnapGoes(TRACE[1], 1, Idle, Begin(0, [9, 9]), Idle, rd);
    SnapGoes(TRACE[2], 0, Idle, rd, LoadSeq(NEXT), rd);
    SnapGoes(TRACE[3], 0, LoadSeq(NEXT), rd, StoreOdd(NEXT, 0), rd);
    SnapGoes(TRACE[4], 0, StoreOdd(NEXT, 0), rd, Copying(NEXT, 0, {0, 1}), rd);
    assert {0, 1} - {0} == {1} && TRACE[5].data[0 := 1] == [1, 0];
    SnapGoes(TRACE[5], 0, Copying(NEXT, 0, {0, 1}), rd, Copying(NEXT, 0, {1}), rd);
  }

  lemma ReaderMixes()
    ensures TraceOk(6) && TraceOk(7) && TraceOk(8) && TraceOk(9)
  {
    var w := Copying(NEXT, 0, {1});
    assert {0, 1} - {0} == {1} && {1} - {1} == {} && [9, 9][0 := 1] == [1, 9] && [1, 9][1 := 0] == [1, 0];
    SnapGoes(TRACE[6], 1, w, TRACE[6].pcs[1], w, TRACE[7].pcs[1]);
    SnapGoes(TRACE[7], 1, w, TRACE[7].pcs[1], w, TRACE[8].pcs[1]);
    SnapGoes(TRACE[8], 1, w, TRACE[8].pcs[1], w, TRACE[9].pcs[1]);
    SnapGoes(TRACE[9], 1, w, TRACE[9].pcs[1], w, TRACE[10].pcs[1]);
  }

  lemma TraceRuns()
    ensures Runs(Run(TRACE, EVENTS))
  {
    WriterHalfway();
    ReaderMixes();
    var r := Run(TRACE, EVENTS);
    forall i | 0 <= i < 10 ensures Steps(r, i) {
      assert TraceOk(i) by {
        assert i == 0 || i == 1 || i == 2 || i == 3 || i == 4 || i == 5 || i == 6 || i == 7 || i == 8 || i == 9;
      }
    }
    assert Init(DoWhile, 0, [0, 0], 2).pcs == [Idle, Idle];
    assert !Odd(0) && r.states[0] == Init(DoWhile, 0, [0, 0], 2);
  }

  /** The reader returns only at the end, and no update is complete by then. */
  lemma TraceShows(m: nat)
    requires m <= 10
    ensures TRACE[m].versions == [[0, 0]] && TRACE[m].bumps <= 1 && (Returns(TRACE[m], 1) <==> m == 10)
  {
    assert m == 0 || m == 1 || m == 2 || m == 3 || m == 4 || m == 5 || m == 6 || m == 7 || m == 8 || m == 9 || m == 10;
  }

  /** The do-while reader can return a payload that nobody ever wrote. */
  lemma DoWhileTears() returns (r: Run)
    ensures Runs(r) && |r.states| == 11 && r.states[0].kind == DoWhile
    ensures Reads(r, 0, 9, 1) && r.states[10].pcs[1].copy == [1, 0]
    ensures forall m :: 0 <= m <= 10 ==> r.states[m].versions == [[0, 0]] && r.states[m].bumps <= 1
    ensures forall i :: 0 <= i < |r.events| && r.events[i].a.Update? ==> r.events[i].a.next == NEXT
  {
    TraceRuns();
    r := Run(TRACE, EVENTS);
    forall m | 0 <= m <= 10
      ensures r.states[m].versions == [[0, 0]] && r.states[m].bumps <= 1 && (Returns(r.states[m], 1) <==> m == 10)
    {
      TraceShows(m);
    }
  }
}
