/** When the table of the hash map grows, over whole runs: entries never outnumber buckets, and the table doubles only
    when they are as many. */
module RcuLoad {
  import opened RcuMemory
  import opened RcuMachine
  import opened RcuTheorems

  function Buckets(s: State): nat { if s.table in s.mem.tables then |s.mem.tables[s.table]| else 0 }

  /** What an operation under the lock knows of the load. */
  ghost predicate Room(s: State, op: Op) {
    match op
    case Copying(_, _, into, _, _) =>
      s.count == Buckets(s) && into in s.mem.tables && |s.mem.tables[into]| == 2 * Buckets(s)
    case PutRetireTable(_, _) => s.count < Buckets(s)
    case PutHead(_, _) => s.count < Buckets(s)
    case PutWalk(_, _, _, _) => s.count < Buckets(s)
    case PutCount => s.count < Buckets(s)
    case _ => true
  }

  ghost predicate Loaded(s: State) {
    s.count <= Buckets(s) && forall t :: 0 <= t < |s.ops| ==> Room(s, s.ops[t])
  }

  /** Tables keep their sizes. */
  lemma SizesStay(s: State, t: nat, a: Act, u: Ptr)
    requires MemOk(s.mem, Gone(s)) && Enabled(s, t, a) && u in s.mem.tables
    ensures u in Apply(s, t, a).mem.tables && |Apply(s, t, a).mem.tables[u]| == |s.mem.tables[u]|
  {
    assert TableOk(s.mem, Gone(s), u);
  }

  /** A step outside the lock changes neither table nor count. */
  lemma UnlockedStays(s: State, t: nat, a: Act)
    requires Enabled(s, t, a) && !s.ops[t].Locked()
    ensures Apply(s, t, a).table == s.table && Apply(s, t, a).count == s.count
    ensures !s.ops[t].Locked() ==> Room(Apply(s, t, a), Apply(s, t, a).ops[t])
  {
  }

  /** The writer's own step. */
  lemma OwnRoom(s: State, t: nat, a: Act)
    requires MapInv(s) && Loaded(s) && Enabled(s, t, a) && s.ops[t].Locked()
    ensures Apply(s, t, a).count <= Buckets(Apply(s, t, a)) && Room(Apply(s, t, a), Apply(s, t, a).ops[t])
  {
    var s' := Apply(s, t, a);
    assert Room(s, s.ops[t]);
    assert TableOk(s.mem, Gone(s), s.table);
    SizesStay(s, t, a, s.table);
    if s.ops[t].Copying? { SizesStay(s, t, a, s.ops[t].into); }
  }

  /** While another thread moves, a writer under the lock keeps what it knows. */
  lemma OthersRoom(s: State, t: nat, a: Act, u: nat)
    requires MemOk(s.mem, Gone(s)) && Enabled(s, t, a) && u < |s.ops| && u != t && Room(s, s.ops[u])
    requires s.table in s.mem.tables && (s.ops[u].Locked() ==> !s.ops[t].Locked())
    ensures u < |Apply(s, t, a).ops| && Room(Apply(s, t, a), Apply(s, t, a).ops[u])
  {
    var s' := Apply(s, t, a);
    assert s'.ops[u] == s.ops[u];
    if s.ops[u].Locked() {
      UnlockedStays(s, t, a);
      SizesStay(s, t, a, s.table);
      if s.ops[u].Copying? { SizesStay(s, t, a, s.ops[u].into); }
    }
  }

  lemma LoadedKept(s: State, t: nat, a: Act)
    requires MapInv(s) && Loaded(s) && Enabled(s, t, a)
    ensures Loaded(Apply(s, t, a))
  {
    var s' := Apply(s, t, a);
    SizesStay(s, t, a, s.table);
    if s.ops[t].Locked() { OwnRoom(s, t, a); } else { UnlockedStays(s, t, a); }
    OthersLoaded(s, t, a);
  }

  lemma OthersLoaded(s: State, t: nat, a: Act)
    requires Core(s) && Locks(s) && Loaded(s) && Enabled(s, t, a)
    ensures forall u :: 0 <= u < |Apply(s, t, a).ops| && u != t ==> Room(Apply(s, t, a), Apply(s, t, a).ops[u])
  {
    forall u | 0 <= u < |Apply(s, t, a).ops| && u != t ensures Room(Apply(s, t, a), Apply(s, t, a).ops[u]) {
      OthersRoom(s, t, a, u);
    }
  }

  lemma LoadedAt(r: Run, i: nat)
    requires Runs(r) && i < |r.events| && Loaded(r.states[i])
    ensures Loaded(r.states[i + 1])
  {
    RunInv(r, i);
    assert Steps(r, i);
    LoadedKept(r.states[i], r.events[i].t, r.events[i].a);
  }

  lemma InitLoaded(n: nat, hash: Key -> nat, buckets: nat)
    ensures Loaded(Init(n, hash, buckets))
  {
  }

  lemma {:induction false} RunLoaded(r: Run, i: nat)
    requires Runs(r) && i < |r.states|
    ensures Loaded(r.states[i])
  {
    if i == 0 {
      var n: nat, hash: Key -> nat, buckets: nat :| buckets > 0 && r.states[0] == Init(n, hash, buckets);
      InitLoaded(n, hash, buckets);
    } else {
      RunLoaded(r, i - 1);
      LoadedAt(r, i - 1);
    }
  }

  /** The map never has more entries than its table has buckets, in any state of any run. */
  lemma EntriesFit(r: Run, i: nat)
    requires Runs(r) && i < |r.states|
    ensures var s := r.states[i]; s.log != [] && s.table in s.mem.tables && |Last(s.log)| <= |s.mem.tables[s.table]|
  {
    RunInv(r, i);
    RunLoaded(r, i);
    var s := r.states[i];
    if s.lock.Some? { assert Room(s, s.ops[s.lock.value]); }
  }

  /** A step that changes the table replaces one with as many buckets as the map has entries by one with twice as
      many, and the entries stay. */
  lemma TableDoubles(r: Run, i: nat)
    requires Runs(r) && i < |r.events| && r.states[i + 1].table != r.states[i].table
    ensures var s, s' := r.states[i], r.states[i + 1];
            && Buckets(s) > 0 && Buckets(s') == 2 * Buckets(s)
            && s.log != [] && s'.log == s.log && |Last(s.log)| == Buckets(s)
  {
    RunInv(r, i);
    RunLoaded(r, i);
    assert Steps(r, i);
    var s, t := r.states[i], r.events[i].t;
    assert Room(s, s.ops[t]);
    assert TableOk(s.mem, Gone(s), s.table);
    if !s.ops[t].Locked() { UnlockedStays(s, t, r.events[i].a); }
  }
}
