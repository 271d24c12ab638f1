/**
 The x86-TSO memory that common/store_buffer is about: each thread's stores wait in its own FIFO buffer, a
 load sees the thread's own newest buffered store first, and buffers drain one store at a time, whenever.
 */
module TsoMemory {
  datatype Store<A> = Store(addr: A, val: nat)

  type Memory<!A> = map<A, nat>

  /** Memory starts zeroed. */
  function Read<A>(mem: Memory<A>, a: A): nat { if a in mem then mem[a] else 0 }

  /** A load: the newest own store to `a`, else memory. */
  function Load<A(==)>(buf: seq<Store<A>>, mem: Memory<A>, a: A): nat {
    if buf == [] then Read(mem, a)
    else if buf[|buf| - 1].addr == a then buf[|buf| - 1].val
    else Load(buf[..|buf| - 1], mem, a)
  }

  /** The oldest store of a buffer reaches memory. */
  function Drained<A>(buf: seq<Store<A>>, mem: Memory<A>): Memory<A>
    requires buf != []
  {
    mem[buf[0].addr := buf[0].val]
  }

  lemma {:induction false} LoadMisses<A>(buf: seq<Store<A>>, mem: Memory<A>, a: A)
    requires forall i :: 0 <= i < |buf| ==> buf[i].addr != a
    ensures Load(buf, mem, a) == Read(mem, a)
  {
    if buf != [] { LoadMisses(buf[..|buf| - 1], mem, a); }
  }

  // ---------------------------------------------------------------- the store-load litmus test

  datatype Var = X | Y

  datatype Pc = ToStore | ToLoad | Done

  // Thread 0 runs x = 1; r = y, thread 1 runs y = 1; r = x.  A seq_cst store is an xchg: the load behind it
  // waits until the buffer is empty.
  datatype Litmus = Litmus(seqCst: bool, mem: Memory<Var>, bufs: seq<seq<Store<Var>>>, pcs: seq<Pc>, regs: seq<nat>)

  datatype Step = Run(t: nat) | Drain(t: nat)

  function Start(seqCst: bool): Litmus { Litmus(seqCst, map[], [[], []], [ToStore, ToStore], [0, 0]) }

  function Mine(t: nat): Var { if t == 0 then X else Y }

  predicate Can(s: Litmus, step: Step) {
    && |s.bufs| == |s.pcs| == |s.regs| == 2 && step.t < 2
    && match step
       case Drain(t) => s.bufs[t] != []
       case Run(t) => s.pcs[t] == ToStore || (s.pcs[t] == ToLoad && (s.seqCst ==> s.bufs[t] == []))
  }

  function Do(s: Litmus, step: Step): Litmus
    requires Can(s, step)
  {
    match step
    case Drain(t) => s.(mem := Drained(s.bufs[t], s.mem), bufs := s.bufs[t := s.bufs[t][1..]])
    case Run(t) =>
      if s.pcs[t] == ToStore then
        s.(bufs := s.bufs[t := s.bufs[t] + [Store(Mine(t), 1)]], pcs := s.pcs[t := ToLoad])
      else
        s.(regs := s.regs[t := Load(s.bufs[t], s.mem, Mine(1 - t))], pcs := s.pcs[t := Done])
  }

  ghost predicate Reaches(s: Litmus, steps: seq<Step>, s': Litmus)
    decreases |steps|
  {
    if steps == [] then s == s' else Can(s, steps[0]) && Reaches(Do(s, steps[0]), steps[1..], s')
  }

  predicate BothZero(s: Litmus) {
    |s.pcs| == |s.regs| == 2 && s.pcs[0] == s.pcs[1] == Done && s.regs[0] == s.regs[1] == 0
  }

  /** With seq_cst stores, a thread past its load has its store in memory, and one of the two loads saw it. */
  ghost predicate LitmusInv(s: Litmus) {
    && s.seqCst && |s.bufs| == |s.pcs| == |s.regs| == 2
    && MineInv(s, 0) && MineInv(s, 1)
    && (s.pcs[0] == s.pcs[1] == Done ==> s.regs[0] == 1 || s.regs[1] == 1)
  }

  ghost predicate MineInv(s: Litmus, t: nat)
    requires |s.bufs| == |s.pcs| == |s.regs| == 2 && t < 2
  {
    && (s.pcs[t] == ToStore ==> s.bufs[t] == [] && Read(s.mem, Mine(t)) == 0)
    && (s.pcs[t] != ToStore ==>
          || (s.bufs[t] == [Store(Mine(t), 1)] && s.pcs[t] == ToLoad && Read(s.mem, Mine(t)) == 0)
          || (s.bufs[t] == [] && Read(s.mem, Mine(t)) == 1))
  }

  lemma {:induction false} SeqCstForbids(s: Litmus, steps: seq<Step>, s': Litmus)
    requires LitmusInv(s) && Reaches(s, steps, s')
    ensures !BothZero(s')
    decreases |steps|
  {
    if steps != [] {
      SeqCstForbids(Do(s, steps[0]), steps[1..], s');
    }
  }

  /** Both stores are issued and still buffered. */
  const BUFFERED := Litmus(false, map[], [[Store(X, 1)], [Store(Y, 1)]], [ToLoad, ToLoad], [0, 0])

  lemma RelaxedAllows() returns (steps: seq<Step>, s': Litmus)
    ensures Reaches(Start(false), steps, s') && BothZero(s')
  {
    BothBuffered();
    var s3 := BothMiss();
    steps := [Run(0), Run(1), Run(0), Run(1)];
    s' := Do(s3, Run(1));
    assert steps[1..][1..] == [Run(0), Run(1)];
    assert Reaches(s3, [Run(1)], s');
    assert [Run(0), Run(1)][1..] == [Run(1)];
    assert Reaches(BUFFERED, [Run(0), Run(1)], s');
    assert Reaches(Do(Start(false), Run(0)), steps[1..], s');
  }

  lemma BothBuffered()
    ensures Can(Start(false), Run(0)) && Can(Do(Start(false), Run(0)), Run(1))
    ensures Do(Do(Start(false), Run(0)), Run(1)) == BUFFERED
  {
    var s1 := Do(Start(false), Run(0));
    assert s1.bufs[0] == [Store(X, 1)] && s1.bufs[1] == [] && s1.pcs == [ToLoad, ToStore];
    assert Do(s1, Run(1)).bufs[1] == [Store(Y, 1)];
  }

  lemma BothMiss() returns (s3: Litmus)
    ensures s3 == Litmus(false, map[], [[Store(X, 1)], [Store(Y, 1)]], [Done, ToLoad], [0, 0])
    ensures Can(BUFFERED, Run(0)) && Do(BUFFERED, Run(0)) == s3
    ensures Can(s3, Run(1)) && BothZero(Do(s3, Run(1)))
  {
    LoadMisses(BUFFERED.bufs[0], BUFFERED.mem, Y);
    s3 := Do(BUFFERED, Run(0));
    LoadMisses(s3.bufs[1], s3.mem, X);
  }

  /** Both threads can read the other's old 0 exactly when the stores are not seq_cst. */
  lemma StoreLoadReordering(seqCst: bool)
    ensures (exists steps, s' :: Reaches(Start(seqCst), steps, s') && BothZero(s')) <==> !seqCst
  {
    if seqCst {
      forall steps, s' | Reaches(Start(true), steps, s')
        ensures !BothZero(s')
      {
        SeqCstForbids(Start(true), steps, s');
      }
    } else {
      var steps, s' := RelaxedAllows();
      assert exists steps, s' :: Reaches(Start(false), steps, s') && BothZero(s');
    }
  }
}
