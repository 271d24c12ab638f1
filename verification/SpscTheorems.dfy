/** What every run of the SPSC ring guarantees: a bounded FIFO of whole items, exact with seq_cst operations. */
module SpscTheorems {
  import opened Prelude
  import opened TsoMemory
  import opened SpscRing
  import opened SpscSafety

  datatype Run = Run(states: seq<State>, acts: seq<Act>)

  /** Any interleaving of the two threads and of the drains of their buffers. */
  ghost predicate Runs(r: Run) {
    && |r.states| == |r.acts| + 1
    && (exists bits: Option<nat>, width: nat ::
          (bits.Some? ==> bits.value <= 63) && r.states[0] == Init(bits, width))
    && forall i :: 0 <= i < |r.acts| ==> Steps(r, i)
  }

  ghost predicate Steps(r: Run, i: nat)
    requires i < |r.acts| && |r.states| == |r.acts| + 1
  {
    Enabled(r.states[i], r.acts[i]) && r.states[i + 1] == Apply(r.states[i], r.acts[i])
  }

  lemma {:induction false} RunInv(r: Run, i: nat)
    requires Runs(r) && i < |r.states|
    ensures Inv(r.states[i])
  {
    if i == 0 {
      var bits: Option<nat>, width: nat :|
        (bits.Some? ==> bits.value <= 63) && r.states[0] == Init(bits, width);
      InitInv(bits, width);
    } else {
      RunInv(r, i - 1);
      assert Steps(r, i - 1);
      StepInv(r.states[i - 1], r.acts[i - 1]);
    }
  }

  /** In every reachable state the popped items are a prefix of the pushed ones, whole and in order, and at most
      Capacity pushed items, counting one still being written, have a slot that the producer cannot reuse. */
  lemma PoppedIsPrefix(r: Run, i: nat)
    requires Runs(r) && i < |r.states|
    ensures r.states[i].popped <= r.states[i].pushed
    ensures r.states[i].rm <= |r.states[i].popped|
    ensures |Items(r.states[i])| - r.states[i].rm <= Capacity(r.states[i])
  {
    RunInv(r, i);
  }

  // ---------------------------------------------------------------- refinement of a bounded queue

  /** Items pushed and not popped, in program order of the two threads. */
  function Queue(s: State): seq<Item> {
    if |s.popped| <= |s.pushed| then s.pushed[|s.popped|..] else []
  }

  /** A step leaves the queue alone, appends one item to a queue that has room, or removes its head. */
  ghost predicate QueueMoves(s: State, a: Act, t: State) {
    || (Queue(t) == Queue(s) && t.pushed == s.pushed && t.popped == s.popped)
    || (&& a == ProducerStep && s.prod.PWrite? && |Queue(s)| < Capacity(s)
        && Queue(t) == Queue(s) + [s.prod.item] && t.popped == s.popped)
    || (&& a == ConsumerStep && s.cons.CRead? && t.pushed == s.pushed
        && Queue(s) == [s.cons.got] + Queue(t) && t.popped == s.popped + [s.cons.got])
  }

  lemma PushMoves(s: State)
    requires Order(s) && Prefix(s) && s.prod.PWrite? && Enabled(s, ProducerStep)
    ensures QueueMoves(s, ProducerStep, Produce(s))
  {
    if s.prod.q == s.width {
      assert (s.pushed + [s.prod.item])[|s.popped|..] == s.pushed[|s.popped|..] + [s.prod.item];
    }
  }

  lemma PopMoves(s: State)
    requires Order(s) && Prefix(s) && Threads(s) && s.cons.CRead? && Enabled(s, ConsumerStep)
    ensures QueueMoves(s, ConsumerStep, Consume(s))
  {
    var R := |s.popped|;
    if |s.cons.got| == s.width {
      assert s.cons.got == s.pushed[R];
      assert s.pushed[R..] == [s.pushed[R]] + s.pushed[R + 1..];
    }
  }

  lemma QueueStep(r: Run, i: nat)
    requires Runs(r) && i < |r.acts|
    ensures QueueMoves(r.states[i], r.acts[i], r.states[i + 1])
  {
    var s, t := r.states[i], r.states[i + 1];
    RunInv(r, i);
    assert Steps(r, i);
    if r.acts[i] == ProducerStep && s.prod.PWrite? {
      PushMoves(s);
    } else if r.acts[i] == ConsumerStep && s.cons.CRead? {
      PopMoves(s);
    } else {
      assert t.pushed == s.pushed && t.popped == s.popped;
    }
  }

  /** A push that is turned away saw Capacity items outstanding; one that is let in saw fewer. */
  lemma PushFails(r: Run, i: nat)
    requires Runs(r) && i < |r.acts| && r.acts[i] == ProducerStep && r.states[i].prod.PLoadR?
    ensures r.states[i + 1].prod == PDone(false)
            <==> |Queue(r.states[i])| + |r.states[i].cbuf| == Capacity(r.states[i])
    ensures r.states[i + 1].prod != PDone(false) ==> r.states[i + 1].prod.PWrite?
  {
    RunInv(r, i);
    assert Steps(r, i);
    FullIff(r.states[i]);
  }

  /** A pop finds nothing exactly when every item still queued waits in the producer's store buffer. */
  lemma PopFails(r: Run, i: nat)
    requires Runs(r) && i < |r.acts| && r.acts[i] == ConsumerStep && r.states[i].cons.CLoadW?
    ensures r.states[i + 1].cons == CDone(None)
            <==> |Queue(r.states[i])| == |r.states[i].pushed| - r.states[i].dn
  {
    RunInv(r, i);
    assert Steps(r, i);
    EmptyIff(r.states[i]);
  }

  // ---------------------------------------------------------------- what a call returns

  /** The consumer is in a call that began with `was` popped: an item is taken exactly if it is to be returned. */
  ghost predicate PopSoFar(was: seq<Item>, s: State) {
    match s.cons
    case CIdle => false
    case CFence(got) => s.popped == was + [got]
    case CDone(Some(got)) => s.popped == was + [got]
    case _ => s.popped == was
  }

  /** The same for a call of the producer with `item`. */
  ghost predicate PushSoFar(was: seq<Item>, item: Item, s: State) {
    match s.prod
    case PIdle => false
    case PFence => s.pushed == was + [item]
    case PDone(ok) => s.pushed == if ok then was + [item] else was
    case _ => s.pushed == was && s.prod.item == item
  }

  /** In event `i` the consumer calls Pop, and it has not returned in state `j`. */
  ghost predicate InPop(r: Run, i: nat, j: nat) {
    && Runs(r) && i < j < |r.states| && r.acts[i].Pop?
    && forall m :: i < m <= j && m < |r.states| ==> r.states[m].cons != CIdle
  }

  ghost predicate InPush(r: Run, i: nat, j: nat) {
    && Runs(r) && i < j < |r.states| && r.acts[i].Push?
    && forall m :: i < m <= j && m < |r.states| ==> r.states[m].prod != PIdle
  }

  lemma {:induction false} PopGoesOn(r: Run, i: nat, j: nat)
    requires InPop(r, i, j)
    ensures PopSoFar(r.states[i].popped, r.states[j])
  {
    assert Steps(r, j - 1);
    if j > i + 1 { PopGoesOn(r, i, j - 1); }
  }

  lemma {:induction false} PushGoesOn(r: Run, i: nat, j: nat)
    requires InPush(r, i, j)
    ensures PushSoFar(r.states[i].pushed, r.acts[i].item, r.states[j])
  {
    assert Steps(r, j - 1);
    if j > i + 1 { PushGoesOn(r, i, j - 1); }
  }

  /** Of the steps from `i` to `j` the consumer's step `k` takes `item`, and no other step takes any. */
  ghost predicate TakesAt(r: Run, i: nat, j: nat, k: nat, item: Item) {
    && i < k < j < |r.states| && k < |r.acts| && r.acts[k] == ConsumerStep
    && forall m :: i <= m <= j ==>
         r.states[m].popped == if m <= k then r.states[i].popped else r.states[i].popped + [item]
  }

  /** Of the steps from `i` to `j` the producer's step `k` appends `item`, and no other step appends any. */
  ghost predicate PutsAt(r: Run, i: nat, j: nat, k: nat, item: Item) {
    && i < k < j < |r.states| && k < |r.acts| && r.acts[k] == ProducerStep
    && forall m :: i <= m <= j ==>
         r.states[m].pushed == if m <= k then r.states[i].pushed else r.states[i].pushed + [item]
  }

  lemma StepGrows(s: State, a: Act)
    requires Enabled(s, a)
    ensures s.popped <= Apply(s, a).popped && s.pushed <= Apply(s, a).pushed
    ensures Apply(s, a).popped != s.popped ==> a == ConsumerStep
    ensures Apply(s, a).pushed != s.pushed ==> a == ProducerStep
  {
  }

  lemma {:induction false} NoneTaken(r: Run, i: nat, j: nat)
    requires InPop(r, i, j) && r.states[j].popped == r.states[i].popped
    ensures forall m :: i <= m <= j ==> r.states[m].popped == r.states[i].popped
  {
    assert Steps(r, j - 1);
    StepGrows(r.states[j - 1], r.acts[j - 1]);
    if j > i + 1 {
      PopGoesOn(r, i, j - 1);
      NoneTaken(r, i, j - 1);
    }
  }

  lemma {:induction false} TakesOnce(r: Run, i: nat, j: nat, item: Item) returns (k: nat)
    requires InPop(r, i, j) && r.states[j].popped == r.states[i].popped + [item]
    ensures TakesAt(r, i, j, k, item)
  {
    assert Steps(r, j - 1);
    StepGrows(r.states[j - 1], r.acts[j - 1]);
    if j > i + 1 {
      PopGoesOn(r, i, j - 1);
      if r.states[j - 1].popped == r.states[i].popped {
        NoneTaken(r, i, j - 1);
        k := j - 1;
      } else {
        k := TakesOnce(r, i, j - 1, item);
      }
    }
  }

  lemma {:induction false} NonePut(r: Run, i: nat, j: nat)
    requires InPush(r, i, j) && r.states[j].pushed == r.states[i].pushed
    ensures forall m :: i <= m <= j ==> r.states[m].pushed == r.states[i].pushed
  {
    assert Steps(r, j - 1);
    StepGrows(r.states[j - 1], r.acts[j - 1]);
    if j > i + 1 {
      PushGoesOn(r, i, j - 1);
      NonePut(r, i, j - 1);
    }
  }

  lemma {:induction false} PutsOnce(r: Run, i: nat, j: nat, item: Item) returns (k: nat)
    requires InPush(r, i, j) && r.states[j].pushed == r.states[i].pushed + [item]
    ensures PutsAt(r, i, j, k, item)
  {
    assert Steps(r, j - 1);
    StepGrows(r.states[j - 1], r.acts[j - 1]);
    if j > i + 1 {
      PushGoesOn(r, i, j - 1);
      if r.states[j - 1].pushed == r.states[i].pushed {
        NonePut(r, i, j - 1);
        k := j - 1;
      } else {
        k := PutsOnce(r, i, j - 1, item);
      }
    }
  }

  /** A Pop that returns hands its caller exactly the item that one step of its call took from the queue; if it says
      that there is none, no step of its call took one. */
  lemma PopReturnsWhatItTook(r: Run, i: nat, j: nat)
    requires InPop(r, i, j) && j < |r.acts| && r.states[j + 1].cons == CIdle
    ensures r.states[j].cons.CDone? && r.acts[j] == ConsumerStep
    ensures match r.states[j].cons.out
            case Some(item) => exists k :: TakesAt(r, i, j, k, item)
            case None => forall m :: i <= m <= j ==> r.states[m].popped == r.states[i].popped
  {
    PopGoesOn(r, i, j);
    assert Steps(r, j);
    match r.states[j].cons.out
    case Some(item) => var k := TakesOnce(r, i, j, item);
    case None => NoneTaken(r, i, j);
  }

  /** A Push that returns tells its caller whether its item went into the queue: in one step of its call, or in none. */
  lemma PushReturnsWhetherItPut(r: Run, i: nat, j: nat)
    requires InPush(r, i, j) && j < |r.acts| && r.states[j + 1].prod == PIdle
    ensures r.states[j].prod.PDone? && r.acts[j] == ProducerStep
    ensures if r.states[j].prod.ok then exists k :: PutsAt(r, i, j, k, r.acts[i].item)
            else forall m :: i <= m <= j ==> r.states[m].pushed == r.states[i].pushed
  {
    PushGoesOn(r, i, j);
    assert Steps(r, j);
    if r.states[j].prod.ok { var k := PutsOnce(r, i, j, r.acts[i].item); } else { NonePut(r, i, j); }
  }

  // ---------------------------------------------------------------- calls end

  /** The steps that a call of the producer, or of the consumer, still has to take. */
  function PushLeft(s: State): int {
    match s.prod
    case PIdle => 0
    case PLoadW(_, _) => s.width + 5
    case PLoadR(_, _, _) => s.width + 4
    case PWrite(_, _, _, q) => s.width - q + 3
    case PFence => 2
    case PDone(_) => 1
  }

  function PopLeft(s: State): int {
    match s.cons
    case CIdle => 0
    case CLoadR(_) => s.width + 5
    case CLoadW(_, _) => s.width + 4
    case CRead(_, _, got) => s.width - |got| + 3
    case CFence(_) => 2
    case CDone(_) => 1
  }

  /** How often act `a` occurs in the events from `i` to `j`. */
  function Count(r: Run, i: nat, j: nat, a: Act): nat
    requires i <= j <= |r.acts|
  {
    if i == j then 0 else Count(r, i, j - 1, a) + if r.acts[j - 1] == a then 1 else 0
  }

  lemma LeftFalls(s: State, a: Act)
    requires Enabled(s, a)
    ensures Apply(s, a).width == s.width
    ensures s.prod != PIdle ==> PushLeft(Apply(s, a)) <= PushLeft(s) - if a == ProducerStep then 1 else 0
    ensures s.cons != CIdle ==> PopLeft(Apply(s, a)) <= PopLeft(s) - if a == ConsumerStep then 1 else 0
  {
  }

  lemma {:induction false} PushCounts(r: Run, i: nat, j: nat)
    requires InPush(r, i, j)
    ensures Count(r, i, j, ProducerStep) + PushLeft(r.states[j]) <= r.states[j].width + 5
  {
    assert Steps(r, j - 1);
    if j > i + 1 {
      PushCounts(r, i, j - 1);
      LeftFalls(r.states[j - 1], r.acts[j - 1]);
    } else {
      assert Count(r, i, i, ProducerStep) == 0;
    }
  }

  lemma {:induction false} PopCounts(r: Run, i: nat, j: nat)
    requires InPop(r, i, j)
    ensures Count(r, i, j, ConsumerStep) + PopLeft(r.states[j]) <= r.states[j].width + 5
  {
    assert Steps(r, j - 1);
    if j > i + 1 {
      PopCounts(r, i, j - 1);
      LeftFalls(r.states[j - 1], r.acts[j - 1]);
    } else {
      assert Count(r, i, i, ConsumerStep) == 0;
    }
  }

  /** Wait freedom: a call that has not returned has taken fewer than width + 5 steps of its own, and its next one is
      possible, or waits only for its own store buffer to drain. */
  lemma CallsWaitFree(r: Run, i: nat, j: nat)
    requires InPush(r, i, j) || InPop(r, i, j)
    ensures InPush(r, i, j) ==>
              && Count(r, i, j, ProducerStep) < r.states[j].width + 5
              && (Enabled(r.states[j], ProducerStep) || (r.states[j].prod.PFence? && Enabled(r.states[j], DrainP)))
    ensures InPop(r, i, j) ==>
              && Count(r, i, j, ConsumerStep) < r.states[j].width + 5
              && (Enabled(r.states[j], ConsumerStep) || (r.states[j].cons.CFence? && Enabled(r.states[j], DrainC)))
  {
    RunInv(r, j);
    if InPush(r, i, j) { PushCounts(r, i, j); }
    if InPop(r, i, j) { PopCounts(r, i, j); }
  }

  // ---------------------------------------------------------------- seq_cst operations

  /** What both threads can see: items published and not yet handed back. */
  function Published(s: State): seq<Item> {
    if s.rm <= s.dn <= |s.pushed| then s.pushed[s.rm..s.dn] else []
  }

  /** The published items form a bounded FIFO too, moved by the drains of the two index stores. */
  ghost predicate PublishedMoves(s: State, a: Act, t: State) {
    match a
    case DrainP =>
      || Published(t) == Published(s)
      || (&& s.dn < |s.pushed| && |Published(s)| < Capacity(s)
          && Published(t) == Published(s) + [s.pushed[s.dn]])
    case DrainC => s.rm < |s.popped| && Published(s) == [s.popped[s.rm]] + Published(t)
    case _ => Published(t) == Published(s)
  }

  lemma PublishedStep(r: Run, i: nat)
    requires Runs(r) && i < |r.acts|
    ensures PublishedMoves(r.states[i], r.acts[i], r.states[i + 1])
  {
    RunInv(r, i);
    assert Steps(r, i);
    PublishedAt(r.states[i], r.acts[i]);
  }

  lemma PublishedAt(s: State, a: Act)
    requires Inv(s) && Enabled(s, a)
    ensures PublishedMoves(s, a, Apply(s, a))
  {
    StepInv(s, a);
    PublishedMove(s, a);
  }

  lemma OneMore<T>(q: seq<T>, i: nat, j: nat)
    requires i <= j < |q|
    ensures q[i..j + 1] == q[i..j] + [q[j]]
  {
  }

  lemma PublishedMove(s: State, a: Act)
    requires Order(s) && Prefix(s) && Enabled(s, a) && Order(Apply(s, a)) && Prefix(Apply(s, a))
    ensures PublishedMoves(s, a, Apply(s, a))
  {
    var t := Apply(s, a);
    if a == DrainP {
      if t.dn == s.dn + 1 { OneMore(s.pushed, s.rm, s.dn); }
    } else if a == DrainC {
      assert s.pushed[s.rm..s.dn] == [s.pushed[s.rm]] + s.pushed[s.rm + 1..s.dn];
    } else {
      assert t.rm == s.rm && t.dn == s.dn && |s.pushed| <= |t.pushed|;
      assert t.pushed[s.rm..s.dn] == s.pushed[s.rm..s.dn];
    }
  }

  ghost predicate AllSeqCst(r: Run) {
    forall i :: 0 <= i < |r.acts| ==> match r.acts[i]
      case Push(_, sc) => sc
      case Pop(sc) => sc
      case _ => true
  }

  /** Outside its store section a seq_cst thread has nothing buffered. */
  ghost predicate Fenced(s: State) {
    && (s.prod.PLoadW? || s.prod.PLoadR? || s.prod.PWrite? ==> s.prod.sc)
    && (s.cons.CLoadR? || s.cons.CLoadW? || s.cons.CRead? ==> s.cons.sc)
    && (s.prod.PWrite? || s.prod.PFence? || s.pbuf == [])
    && (s.cons.CFence? || s.cbuf == [])
  }

  lemma {:induction false} SeqCstFenced(r: Run, i: nat)
    requires Runs(r) && AllSeqCst(r) && i < |r.states|
    ensures Fenced(r.states[i])
  {
    if i > 0 {
      SeqCstFenced(r, i - 1);
      assert Steps(r, i - 1);
      FencedStep(r.states[i - 1], r.acts[i - 1]);
    }
  }

  lemma FencedStep(s: State, a: Act)
    requires Fenced(s) && Enabled(s, a) && (a.Push? ==> a.sc) && (a.Pop? ==> a.sc)
    ensures Fenced(Apply(s, a))
  {
  }

  /** With seq_cst operations the published queue decides exactly, and an operation that has returned is
      visible to the other thread. */
  lemma SeqCstExact(r: Run, i: nat)
    requires Runs(r) && AllSeqCst(r) && i < |r.acts|
    ensures var s, t := r.states[i], r.states[i + 1];
            && (r.acts[i] == ProducerStep && s.prod.PLoadR? ==>
                  (t.prod == PDone(false) <==> |Published(s)| == Capacity(s)))
            && (r.acts[i] == ConsumerStep && s.cons.CLoadW? ==>
                  (t.cons == CDone(None) <==> Published(s) == []))
            && (s.prod.PDone? ==> s.dn == |s.pushed|) && (s.cons.CDone? ==> s.rm == |s.popped|)
  {
    RunInv(r, i);
    SeqCstFenced(r, i);
    assert Steps(r, i);
    if r.states[i].prod.PLoadR? { FullIff(r.states[i]); }
    if r.states[i].cons.CLoadW? { EmptyIff(r.states[i]); }
  }

  // ---------------------------------------------------------------- release stores

  // One slot of one word: a push with a release store returns while its two stores wait, and a pop finds nothing.
  const ITEM: Item := [5]
  const EMPTY: State := Init(Some(0), 1)
  const FILLED: State := EMPTY.(prod := PWrite(ITEM, false, 0, 1), pbuf := [Store(Slot(0, 0), 5)], tags := [Tag(0, 0)])
  const PUSHED: State :=
    FILLED.(prod := PDone(true), pushed := [ITEM], pbuf := [Store(Slot(0, 0), 5), Store(WriteIdx, 1)],
            tags := [Tag(0, 0), Tag(0, 1)])
  const RETURNED: State := PUSHED.(prod := PIdle)

  const MISS: Run := Run.Run(
    [EMPTY, EMPTY.(prod := PLoadW(ITEM, false)), EMPTY.(prod := PLoadR(ITEM, false, 0)),
     EMPTY.(prod := PWrite(ITEM, false, 0, 0)), FILLED, PUSHED, RETURNED,
     RETURNED.(cons := CLoadR(false)), RETURNED.(cons := CLoadW(false, 0)), RETURNED.(cons := CDone(None))],
    [Push(ITEM, false), ProducerStep, ProducerStep, ProducerStep, ProducerStep, ProducerStep,
     Pop(false), ConsumerStep, ConsumerStep])

  lemma PushStarts()
    ensures Steps(MISS, 0) && Steps(MISS, 1) && Steps(MISS, 2)
  {
    assert Capacity(EMPTY) == 1 && Load([], EMPTY.mem, WriteIdx) == 0 && Load([], EMPTY.mem, ReadIdx) == 0;
  }

  lemma PushStores()
    ensures Steps(MISS, 3) && Steps(MISS, 4) && Steps(MISS, 5)
  {
    assert And(0, Mask(EMPTY)) == 0;
  }

  lemma PopMisses()
    ensures Steps(MISS, 6) && Steps(MISS, 7) && Steps(MISS, 8)
  {
  }

  /** With release stores a pop can still miss a push that has returned. */
  lemma ReleasePopMisses() returns (r: Run)
    ensures Runs(r) && |r.states| == 10 && r.states[6].prod == PIdle && Queue(r.states[6]) == [[5]]
    ensures r.acts[6] == Pop(false) && r.states[9].cons == CDone(None)
  {
    PushStarts();
    PushStores();
    PopMisses();
    r := MISS;
    forall i | 0 <= i < |r.acts| ensures Steps(r, i) {
      assert i == 0 || i == 1 || i == 2 || i == 3 || i == 4 || i == 5 || i == 6 || i == 7 || i == 8;
    }
    assert Some(0).value <= 63 && r.states[0] == Init(Some(0), 1);
  }
}
