/** The invariant of the concurrent hash map holds in every reachable state. */
module RcuSafety {
  import opened Prelude
  import opened RcuMemory
  import opened RcuMachine
  import E = EpochReclamation
  import ES = EpochSafety

  // ---------------------------------------------------------------- frames

  /** Memory, table, log and the unlinked objects are untouched. */
  ghost predicate Still(s: State, s': State) {
    s'.mem == s.mem && s'.table == s.table && s'.log == s.log && s'.ebr.unlinked == s.ebr.unlinked
  }

  lemma StillCore(s: State, s': State)
    requires Core(s) && Still(s, s')
    ensures Core(s') && Gone(s') == Gone(s)
  {
    forall c | c in s'.mem.nodes ensures NodeTimes(s', c) { assert NodeTimes(s, c); }
  }

  lemma StillWriter(s: State, s': State, op: Op)
    requires Core(s) && Core(s') && Still(s, s') && WriterOk(s, op)
    ensures WriterOk(s', op)
  {
    assert Gone(s') == Gone(s);
  }

  lemma StillReader(s: State, s': State, t: nat)
    requires Core(s) && Core(s') && Still(s, s')
    requires t < |s.ops| && t < |s.ebr.threads| && t < |s'.ops| && t < |s'.ebr.threads|
    requires s'.ops[t] == s.ops[t] && s'.ebr.threads[t] == s.ebr.threads[t] && ReaderOk(s, t)
    ensures ReaderOk(s', t)
  {
    assert Gone(s') == Gone(s);
  }

  /** A step of `t` in the reclamation machine leaves the other threads' records alone. */
  lemma EbrFrame(e: E.State, t: nat, a: E.Act)
    requires E.Enabled(e, t, a)
    ensures |E.Apply(e, t, a).threads| == |e.threads|
    ensures forall u :: 0 <= u < |e.threads| && u != t ==> E.Apply(e, t, a).threads[u] == e.threads[u]
    ensures !a.Unlink? ==> E.Apply(e, t, a).unlinked == e.unlinked
  {
    if !a.Unlink? && !(a == E.Continue && e.threads[t].pc.Retiring?) { ES.StepNoUnlink(e, t, a); }
  }

  lemma EbrPending(e: E.State, t: nat, a: E.Act)
    requires E.Enabled(e, t, a) && !a.Unlink?
    ensures E.Apply(e, t, a).threads[t].pending.Some? ==> e.threads[t].pending.Some?
  {
    if !(a == E.Continue && e.threads[t].pc.Retiring?) { ES.StepNoUnlink(e, t, a); }
  }

  /** A thread that is entering stays so until it is inside. */
  lemma EbrEntering(e: E.State, t: nat, a: E.Act)
    requires E.Enabled(e, t, a) && E.ThreadShape(e, t)
    requires a == E.Enter || (a == E.Continue && (e.threads[t].pc == E.Entering || e.threads[t].depth > 0))
    ensures E.Apply(e, t, a).threads[t].pc == E.Entering || E.Apply(e, t, a).threads[t].depth > 0
  {
  }

  // ---------------------------------------------------------------- steps that publish nothing

  /** The parts of the invariant about operations other than `t`'s, after a step that leaves memory still. */
  lemma StillOthers(s: State, s': State, t: nat)
    requires MapInv(s) && Still(s, s') && t < |s.ops| && |s'.ops| == |s.ops| && |s'.ebr.threads| == |s.ebr.threads|
    requires forall u :: 0 <= u < |s.ops| && u != t ==> s'.ops[u] == s.ops[u] && s'.ebr.threads[u] == s.ebr.threads[u]
    ensures Core(s') && Gone(s') == Gone(s)
    ensures forall u :: 0 <= u < |s.ops| && u != t ==> WriterOk(s', s'.ops[u]) && ReaderOk(s', u)
    ensures forall u :: 0 <= u < |s.ops| && u != t && s'.ebr.threads[u].pending.Some? ==> s'.ops[u].Owes()
  {
    StillCore(s, s');
    forall u | 0 <= u < |s.ops| && u != t ensures WriterOk(s', s'.ops[u]) && ReaderOk(s', u) {
      assert WriterOk(s, s.ops[u]) && ReaderOk(s, u);
      StillWriter(s, s', s.ops[u]);
      StillReader(s, s', u);
    }
  }

  /** What a step of `t` that leaves memory still has to keep for the lock, the count and `t` itself. */
  ghost predicate Settled(s: State, s': State, t: nat)
    requires Core(s')
  {
    && Still(s, s') && t < |s.ops| == |s'.ops| && t < |s.ebr.threads| == |s'.ebr.threads|
    && (forall u :: 0 <= u < |s.ops| && u < |s.ebr.threads| && u != t ==>
          s'.ops[u] == s.ops[u] && s'.ebr.threads[u] == s.ebr.threads[u])
    && (|| (s'.lock == s.lock && (s'.ops[t].Locked() <==> s.ops[t].Locked()))
        || (s.lock == None && s'.lock == Some(t) && s'.ops[t].Locked())
        || (s.lock == Some(t) && s'.lock == None && !s'.ops[t].Locked()))
    && (s.ops[t].Copying? ==> s'.ops[t] == s.ops[t] && s'.lock == s.lock)
    && s'.count + Owed(s') == s.count + Owed(s)
    && (s'.ebr.threads[t].pending.Some? ==> s'.ops[t].Owes())
    && WriterOk(s', s'.ops[t]) && ReaderOk(s', t)
  }

  lemma SettledInv(s: State, s': State, t: nat)
    requires MapInv(s) && Core(s') && Settled(s, s', t)
    ensures MapInv(s')
  {
    StillOthers(s, s', t);
    SettledLocks(s, s', t);
  }

  lemma SettledLocks(s: State, s': State, t: nat)
    requires MapInv(s) && Core(s') && Settled(s, s', t) && Gone(s') == Gone(s)
    requires forall u :: 0 <= u < |s.ops| && u != t ==> WriterOk(s', s'.ops[u])
    ensures Locks(s') && Writers(s')
  {
  }

  lemma EbrStep(s: State, t: nat, e: E.Act)
    requires MapInv(s) && E.Shape(s.ebr) && Enabled(s, t, Ebr(e))
    ensures MapInv(Apply(s, t, Ebr(e)))
  {
    var s' := Apply(s, t, Ebr(e));
    EbrFrame(s.ebr, t, e);
    StillCore(s, s');
    EbrOwn(s, t, e);
    SettledInv(s, s', t);
  }

  lemma EbrOwn(s: State, t: nat, e: E.Act)
    requires MapInv(s) && E.Shape(s.ebr) && Enabled(s, t, Ebr(e))
    requires var s' := Apply(s, t, Ebr(e)); Core(s') && Gone(s') == Gone(s) && |s'.ebr.threads| == |s.ebr.threads|
    ensures var s' := Apply(s, t, Ebr(e));
            && WriterOk(s', s'.ops[t]) && ReaderOk(s', t)
            && (s'.ebr.threads[t].pending.Some? ==> s'.ops[t].Owes())
  {
    EbrPending(s.ebr, t, e);
    assert WriterOk(s, s.ops[t]) && ReaderOk(s, t) && E.ThreadShape(s.ebr, t);
    if s.ops[t].GetEntered? { EbrEntering(s.ebr, t, e); }
  }

  lemma CallGetStep(s: State, t: nat, k: Key)
    requires MapInv(s) && E.Shape(s.ebr) && Enabled(s, t, CallGet(k))
    ensures MapInv(Apply(s, t, CallGet(k)))
  {
    var s' := Apply(s, t, CallGet(k));
    EbrFrame(s.ebr, t, E.Enter);
    EbrPending(s.ebr, t, E.Enter);
    StillCore(s, s');
    assert E.ThreadShape(s.ebr, t);
    EbrEntering(s.ebr, t, E.Enter);
    SettledInv(s, s', t);
  }

  lemma CallWriteStep(s: State, t: nat, a: Act)
    requires MapInv(s) && Enabled(s, t, a) && (a.CallPut? || a.CallRemove?)
    ensures MapInv(Apply(s, t, a))
  {
    StillCore(s, Apply(s, t, a));
    SettledInv(s, Apply(s, t, a), t);
  }

  /** One step of a reader keeps what the reader knows. */
  lemma ReaderAdvances(s: State, t: nat)
    requires Core(s) && t < |s.ops| && t < |s.ebr.threads| && ReaderOk(s, t) && Enabled(s, t, Go)
    requires s.ops[t].GetEntered? || s.ops[t].GetTable? || s.ops[t].GetWalk?
    ensures ReaderOk(SetOp(s, t, ReadStep(s, t).ops[t]), t)
  {
    var m := s.mem;
    match s.ops[t]
    case GetEntered(k, start) =>
      assert Entry(s.log[|s.log| - 1], k) == Get(m, Gone(s), s.table, k);
    case GetTable(k, start, tab) =>
      assert TableOk(m, Gone(s), tab) && BucketOk(m, Gone(s), tab, Bucket(m, tab, k));
    case GetWalk(k, start, cur) =>
      if cur != 0 { assert NodeOk(m, Gone(s), cur) && NodeTimes(s, cur); }
  }

  lemma ReaderSets(s: State, t: nat, op: Op)
    requires MapInv(s) && t < |s.ops| && !s.ops[t].Locked() && !op.Locked()
    requires ReaderOk(SetOp(s, t, op), t)
    ensures MapInv(SetOp(s, t, op))
  {
    StillOthers(s, SetOp(s, t, op), t);
  }

  lemma ReadStepOk(s: State, t: nat)
    requires MapInv(s) && Enabled(s, t, Go)
    requires s.ops[t].GetEntered? || s.ops[t].GetTable? || s.ops[t].GetWalk? || s.ops[t].GetDone?
    ensures MapInv(Apply(s, t, Go))
  {
    assert ReaderOk(s, t);
    if s.ops[t].GetDone? {
      ReaderSets(s, t, NoOp);
    } else {
      ReaderAdvances(s, t);
      ReaderSets(s, t, ReadStep(s, t).ops[t]);
    }
  }

  lemma LeaveStepOk(s: State, t: nat)
    requires MapInv(s) && Enabled(s, t, Go) && s.ops[t].GetLeave?
    ensures MapInv(Apply(s, t, Go))
  {
    var s' := Apply(s, t, Go);
    EbrFrame(s.ebr, t, E.Exit);
    StillCore(s, s');
    LeaveSettles(s, t);
    SettledInv(s, s', t);
  }

  lemma LeaveSettles(s: State, t: nat)
    requires Core(s) && Locks(s) && Pendings(s) && Enabled(s, t, Go) && s.ops[t].GetLeave? && ReaderOk(s, t)
    requires var s' := Apply(s, t, Go); Core(s') && Still(s, s')
    ensures Settled(s, Apply(s, t, Go), t)
  {
    EbrFrame(s.ebr, t, E.Exit);
    EbrPending(s.ebr, t, E.Exit);
  }

  // ---------------------------------------------------------------- writers

  /** The lock, count and retirement steps of a writer, which move no pointer. */
  lemma QuietStep(s: State, t: nat)
    requires MapInv(s) && Enabled(s, t, Go)
    requires match s.ops[t]
             case PutLock(_, _) => true
             case PutCheck(_, _) => s.count < |s.mem.tables[s.table]|
             case PutRetireTable(_, _) => true
             case PutCount => true
             case RemLock(_) => true
             case RemCount => true
             case Retiring => true
             case Unlocking(_) => true
             case _ => false
    ensures MapInv(Apply(s, t, Go))
  {
    StillCore(s, Apply(s, t, Go));
    QuietSettles(s, t);
    SettledInv(s, Apply(s, t, Go), t);
  }

  lemma QuietSettles(s: State, t: nat)
    requires Locks(s) && Pendings(s) && Enabled(s, t, Go) && Core(Apply(s, t, Go)) && s.ops[t] != NoOp
    requires !s.ops[t].Copying? && !s.ops[t].Reads() && !s.ops[t].GetEntered? && !s.ops[t].GetDone?
    requires !s.ops[t].PutHead? && !s.ops[t].PutWalk? && !s.ops[t].RemHead? && !s.ops[t].RemWalk?
    requires s.ops[t].PutCheck? ==> s.count < |s.mem.tables[s.table]|
    ensures Settled(s, Apply(s, t, Go), t)
  {
  }

  lemma WalkingStep(s: State, t: nat)
    requires MapInv(s) && Enabled(s, t, Go)
    requires match s.ops[t]
             case PutHead(_, _) => true
             case RemHead(_) => true
             case PutWalk(k, _, _, cur) => cur != 0 && s.mem.nodes[cur].key != k
             case RemWalk(k, _, cur) => cur == 0 || s.mem.nodes[cur].key != k
             case _ => false
    ensures MapInv(Apply(s, t, Go))
  {
    var s' := Apply(s, t, Go);
    assert WriterOk(s, s.ops[t]);
    StillOthers(s, s', t);
    WalkGoesOn(s, t);
    assert WriterOk(s', s'.ops[t]);
  }

  lemma WalkGoesOn(s: State, t: nat)
    requires Core(s) && Enabled(s, t, Go) && WriterOk(s, s.ops[t])
    requires match s.ops[t]
             case PutHead(_, _) => true
             case RemHead(_) => true
             case PutWalk(k, _, _, cur) => cur != 0 && s.mem.nodes[cur].key != k
             case RemWalk(k, _, cur) => cur == 0 || s.mem.nodes[cur].key != k
             case _ => false
    ensures WriterOk(s, Apply(s, t, Go).ops[t])
  {
    match s.ops[t] {
      case PutHead(k, _) => WalkBegins(s.mem, Gone(s), s.table, k);
      case RemHead(k) => WalkBegins(s.mem, Gone(s), s.table, k);
      case PutWalk(k, _, prev, cur) => WalkAdvances(s.mem, Gone(s), s.table, k, prev, cur);
      case RemWalk(k, prev, cur) => if cur != 0 { WalkAdvances(s.mem, Gone(s), s.table, k, prev, cur); }
    }
  }

  // ---------------------------------------------------------------- publishing stores

  /** `x` (if not null) is unlinked now; the other threads and the current table stay. */
  ghost predicate UnlinksOnly(s: State, s': State, t: nat, x: Ptr) {
    && |s'.ops| == |s.ops| && |s'.ebr.threads| == |s.ebr.threads|
    && (forall u :: 0 <= u < |s.ops| && 0 <= u < |s.ebr.threads| && u != t ==>
          s'.ops[u] == s.ops[u] && s'.ebr.threads[u] == s.ebr.threads[u])
    && s'.ebr.unlinked == if x == 0 then s.ebr.unlinked else s.ebr.unlinked[x := E.Unlinked(s.ebr.now, t)]
  }

  /** Node records change only in `next`. */
  ghost predicate NextOnly(ns: Nodes, ns': Nodes) {
    forall c :: c in ns ==> c in ns' && ns'[c] == ns[c].(next := ns'[c].next)
  }

  /** One update of the map is published: `k` now has entry `r`, and node `x`, if not null, is unlinked. */
  ghost predicate Publishes(s: State, s': State, t: nat, k: Key, r: Option<Value>, x: Ptr) {
    && UnlinksOnly(s, s', t, x) && s'.table == s.table
    && x !in s.mem.tables && x !in s.ebr.unlinked
    && Effect(s.mem, Gone(s), s'.mem, Gone(s'), s.table, k, r)
    && NextOnly(s.mem.nodes, s'.mem.nodes)
    && |s.log| > 0 && |s'.log| == |s.log| + 1 && s'.log[..|s.log|] == s.log
    && forall j :: Entry(Last(s'.log), j) == if j == k then r else Entry(Last(s.log), j)
  }

  lemma SeenKept(log: seq<Contents>, log': seq<Contents>, start: nat, k: Key, r: Option<Value>)
    requires |log| <= |log'| && log'[..|log|] == log && Seen(log, start, k, r)
    ensures Seen(log', start, k, r)
  {
    var i :| start <= i < |log| && Entry(log[i], k) == r;
    assert log'[i] == log'[..|log|][i];
  }

  lemma TimeKept(s: State, s': State, t: nat, x: Ptr, o: Ptr, after: nat)
    requires UnlinksOnly(s, s', t, x) && x !in s.ebr.unlinked && Time(s, o, after) && after < s.ebr.now
    ensures Time(s', o, after)
  {
  }

  lemma PublishReader(s: State, s': State, t: nat, k: Key, r: Option<Value>, x: Ptr, u: nat)
    requires Core(s) && Core(s') && Publishes(s, s', t, k, r, x)
    requires u < |s.ops| && u < |s.ebr.threads| && u != t && ReaderOk(s, u) && E.Pinned(s.ebr, u)
    ensures ReaderOk(s', u)
  {
    var th := s.ebr.threads[u];
    match s.ops[u]
    case GetTable(j, start, tab) =>
      TimeKept(s, s', t, x, tab, th.pinTime);
      PublishSeen(s, s', t, k, r, x, start, j, Get(s.mem, Gone(s), tab, j), Get(s'.mem, Gone(s'), tab, j));
    case GetWalk(j, start, cur) =>
      if cur != 0 {
        TimeKept(s, s', t, x, cur, th.pinTime);
        TimeKept(s, s', t, x, s.mem.nodes[cur].home, th.pinTime);
      }
      PublishSeen(s, s', t, k, r, x, start, j, Lookup(s.mem.nodes, cur, j), Lookup(s'.mem.nodes, cur, j));
    case GetLeave(j, start, res) => SeenKept(s.log, s'.log, start, j, res);
    case GetDone(j, start, res) => SeenKept(s.log, s'.log, start, j, res);
    case _ =>
  }

  /** An entry that was seen, or is the one just published, is seen. */
  lemma PublishSeen(s: State, s': State, t: nat, k: Key, r: Option<Value>, x: Ptr, start: nat, j: Key,
      e: Option<Value>, e': Option<Value>)
    requires Publishes(s, s', t, k, r, x) && Seen(s.log, start, j, e) && start < |s.log|
    requires e' == e || (j == k && e' == r)
    ensures Seen(s'.log, start, j, e')
  {
    if e' == e { SeenKept(s.log, s'.log, start, j, e); }
    else { assert Entry(Last(s'.log), j) == r; }
  }

  lemma TimesKept(s: State, s': State, t: nat, x: Ptr)
    requires Core(s) && E.Tags(s.ebr) && UnlinksOnly(s, s', t, x) && x !in s.ebr.unlinked
    requires forall c :: c in s'.mem.nodes && c in s'.ebr.unlinked ==>
             c in s.mem.nodes && s'.mem.nodes[c] == s.mem.nodes[c]
    requires x != 0 ==> x in s.mem.nodes && s.mem.nodes[x].home == s.table
    ensures forall c :: c in s'.mem.nodes ==> NodeTimes(s', c)
  {
    NullIsNothing(s.mem, Gone(s));
    forall c | c in s'.mem.nodes && c in s'.ebr.unlinked ensures NodeTimes(s', c) {
      assert NodeTimes(s, c) && NodeOk(s.mem, Gone(s), c);
    }
    forall c | c in s'.mem.nodes && c !in s'.ebr.unlinked ensures NodeTimes(s', c) {}
  }

  lemma PublishCore(s: State, s': State, t: nat, k: Key, r: Option<Value>, x: Ptr)
    requires Core(s) && Publishes(s, s', t, k, r, x) && x != s.table
    requires forall c :: c in s'.mem.nodes ==> NodeTimes(s', c)
    ensures Core(s')
  {
    forall j ensures Get(s'.mem, Gone(s'), s'.table, j) == Entry(Last(s'.log), j) {
      assert Get(s.mem, Gone(s), s.table, j) == Entry(Last(s.log), j);
    }
  }

  /** After a publishing store by the lock holder the whole invariant holds again. */
  lemma PublishInv(s: State, s': State, t: nat, k: Key, r: Option<Value>, x: Ptr)
    requires MapInv(s) && E.Pins(s.ebr) && Publishes(s, s', t, k, r, x) && Core(s')
    requires t < |s.ops| && s.lock == Some(t) && s'.lock == s.lock && s'.count == s.count && !s.ops[t].Copying?
    requires s'.ops[t].PutCount? || (s'.ops[t].Owes() && s'.ops[t].Locked())
    requires s'.ebr.threads[t].pending.Some? ==> s'.ops[t].Owes()
    requires |Last(s'.log)| - |Last(s.log)| == if s'.ops[t].PutCount? then 1 else if s'.ops[t].RemCount? then -1 else 0
    requires !s.ops[t].PutCount? && !s.ops[t].RemCount?
    ensures MapInv(s')
  {
    forall u | 0 <= u < |s'.ops| ensures WriterOk(s', s'.ops[u]) && ReaderOk(s', u) {
      if u != t {
        assert ReaderOk(s, u) && E.Pinned(s.ebr, u);
        PublishReader(s, s', t, k, r, x, u);
      }
    }
    assert s'.mem.tables.Keys == s.mem.tables.Keys;
  }

  lemma NullIsNothing(m: Mem, gone: set<Ptr>)
    requires MemOk(m, gone)
    ensures 0 !in m.nodes && 0 !in m.tables && 0 !in gone
  {
    forall c | c in m.nodes ensures c != 0 { assert NodeOk(m, gone, c); }
    forall u | u in m.tables ensures u != 0 { assert TableOk(m, gone, u); }
  }

  /** The step stores `mem`, logs `c` and unlinks `x`; nothing else of the map moves. */
  ghost predicate Moves(s: State, s': State, t: nat, mem: Mem, c: Contents, x: Ptr) {
    && UnlinksOnly(s, s', t, x) && s'.table == s.table && s'.lock == s.lock && s'.count == s.count
    && s'.mem == mem && s'.log == s.log + [c]
  }

  lemma MovesPublish(s: State, s': State, t: nat, mem: Mem, c: Contents, x: Ptr, k: Key, r: Option<Value>)
    requires Moves(s, s', t, mem, c, x) && |s.log| > 0 && x !in s.mem.tables && x !in s.ebr.unlinked
    requires Effect(s.mem, Gone(s), mem, Gone(s) + (if x == 0 then {} else {x}), s.table, k, r)
    requires NextOnly(s.mem.nodes, mem.nodes)
    requires forall j :: Entry(c, j) == if j == k then r else Entry(Last(s.log), j)
    ensures Publishes(s, s', t, k, r, x) && Last(s'.log) == c
  {
    assert Gone(s') == Gone(s) + (if x == 0 then {} else {x});
    assert s'.log[..|s.log|] == s.log;
  }

  /** Retired nodes are not written. */
  ghost predicate RetiredKept(gone: set<Ptr>, ns: Nodes, ns': Nodes) {
    forall c :: c in ns' && c in gone ==> c in ns && ns'[c] == ns[c]
  }

  lemma InsertNodes(m: Mem, gone: set<Ptr>, t: Ptr, k: Key, v: Value)
    requires MemOk(m, gone) && t in m.tables && |m.tables[t]| > 0
    ensures NextOnly(m.nodes, Insert(m, t, k, v).nodes) && RetiredKept(gone, m.nodes, Insert(m, t, k, v).nodes)
  {
    TopIsNew(m, gone);
  }

  lemma ReplaceNodes(m: Mem, gone: set<Ptr>, t: Ptr, i: nat, prev: Ptr, x: Ptr, v: Value)
    requires MemOk(m, gone) && LinkTo(m, gone, t, i, prev, x)
    ensures NextOnly(m.nodes, Replace(m, t, i, prev, x, v).nodes)
    ensures RetiredKept(gone + {x}, m.nodes, Replace(m, t, i, prev, x, v).nodes)
  {
    TopIsNew(m, gone);
    RelinkRanked(m, gone, t, i, prev, x, m.nodes[x].next);
    assert NodeOk(m, gone, x);
    if prev != 0 { assert m.nodes[prev].rank > m.nodes[x].rank; }
  }

  lemma UnlinkNodes(m: Mem, gone: set<Ptr>, t: Ptr, i: nat, prev: Ptr, x: Ptr)
    requires MemOk(m, gone) && LinkTo(m, gone, t, i, prev, x)
    ensures NextOnly(m.nodes, Unlink(m, t, i, prev, x).nodes)
    ensures RetiredKept(gone + {x}, m.nodes, Unlink(m, t, i, prev, x).nodes)
  {
    if prev != 0 { assert m.nodes[prev].rank > m.nodes[x].rank; }
  }

  /** A walk that ended without finding `k` may insert it. */
  lemma InsertPublishes(s: State, s': State, t: nat, k: Key, v: Value)
    requires Core(s) && |s.mem.tables[s.table]| > 0 && Entry(Last(s.log), k) == None
    requires Moves(s, s', t, Insert(s.mem, s.table, k, v), Last(s.log)[k := v], 0)
    ensures Publishes(s, s', t, k, Some(v), 0) && Last(s'.log) == Last(s.log)[k := v]
    ensures RetiredKept(Gone(s'), s.mem.nodes, s'.mem.nodes)
  {
    assert Get(s.mem, Gone(s), s.table, k) == Entry(Last(s.log), k);
    InsertEffect(s.mem, Gone(s), s.table, k, v);
    InsertNodes(s.mem, Gone(s), s.table, k, v);
    NullIsNothing(s.mem, Gone(s));
    assert Gone(s) + {} == Gone(s);
    MovesPublish(s, s', t, s'.mem, Last(s.log)[k := v], 0, k, Some(v));
  }

  lemma ReplacePublishes(s: State, s': State, t: nat, k: Key, v: Value, prev: Ptr, x: Ptr)
    requires Core(s) && |s.mem.tables[s.table]| > 0
             && LinkTo(s.mem, Gone(s), s.table, Bucket(s.mem, s.table, k), prev, x)
    requires s.mem.nodes[x].key == k && x !in s.mem.tables
    requires Moves(s, s', t, Replace(s.mem, s.table, Bucket(s.mem, s.table, k), prev, x, v), Last(s.log)[k := v], x)
    ensures Publishes(s, s', t, k, Some(v), x) && Last(s'.log) == Last(s.log)[k := v]
    ensures RetiredKept(Gone(s'), s.mem.nodes, s'.mem.nodes)
  {
    ReplaceEffect(s.mem, Gone(s), s.table, Bucket(s.mem, s.table, k), prev, x, v);
    ReplaceNodes(s.mem, Gone(s), s.table, Bucket(s.mem, s.table, k), prev, x, v);
    assert Gone(s') == Gone(s) + {x};
    MovesPublish(s, s', t, s'.mem, Last(s.log)[k := v], x, k, Some(v));
  }

  lemma RemovePublishes(s: State, s': State, t: nat, k: Key, prev: Ptr, x: Ptr)
    requires Core(s) && |s.mem.tables[s.table]| > 0
             && LinkTo(s.mem, Gone(s), s.table, Bucket(s.mem, s.table, k), prev, x)
    requires s.mem.nodes[x].key == k && x !in s.mem.tables
    requires Moves(s, s', t, Unlink(s.mem, s.table, Bucket(s.mem, s.table, k), prev, x), Last(s.log) - {k}, x)
    ensures Publishes(s, s', t, k, None, x) && Last(s'.log) == Last(s.log) - {k}
    ensures RetiredKept(Gone(s'), s.mem.nodes, s'.mem.nodes)
  {
    UnlinkEffect(s.mem, Gone(s), s.table, Bucket(s.mem, s.table, k), prev, x);
    UnlinkNodes(s.mem, Gone(s), s.table, Bucket(s.mem, s.table, k), prev, x);
    assert Gone(s') == Gone(s) + {x};
    MovesPublish(s, s', t, s'.mem, Last(s.log) - {k}, x, k, None);
  }

  /** The walk's link leads to the node that carries `k`. */
  lemma FoundLink(s: State, op: Op)
    requires Core(s) && (op.PutWalk? || op.RemWalk?) && WriterOk(s, op) && op.cur != 0
    requires op.cur in s.mem.nodes && s.mem.nodes[op.cur].key == op.k
    ensures LinkTo(s.mem, Gone(s), s.table, Bucket(s.mem, s.table, op.k), op.prev, op.cur)
    ensures op.cur !in s.mem.tables && op.cur != s.table && s.mem.nodes[op.cur].home == s.table
    ensures op.k in Last(s.log)
  {
    assert NodeOk(s.mem, Gone(s), op.cur);
  }

  lemma EbrUnlink(s: State, t: nat, x: Ptr)
    requires E.Enabled(s.ebr, t, E.Unlink(x))
    ensures E.Apply(s.ebr, t, E.Unlink(x)).unlinked == s.ebr.unlinked[x := E.Unlinked(s.ebr.now, t)]
    ensures |E.Apply(s.ebr, t, E.Unlink(x)).threads| == |s.ebr.threads|
    ensures forall u :: 0 <= u < |s.ebr.threads| && u != t ==>
            E.Apply(s.ebr, t, E.Unlink(x)).threads[u] == s.ebr.threads[u]
  {
  }

  /** Thread `t`, which holds the lock, goes on to the count or the retirement. */
  ghost predicate Settles(s: State, s': State, t: nat) {
    && t < |s.ops| && t < |s'.ops| && t < |s'.ebr.threads| && s.lock == Some(t) && s'.lock == s.lock
       && s'.count == s.count
    && (s.ops[t].PutWalk? || s.ops[t].RemWalk?) && s.log != [] && s'.log != []
    && (s'.ops[t].PutCount? || (s'.ops[t].Owes() && s'.ops[t].Locked()))
    && (s'.ebr.threads[t].pending.Some? ==> s'.ops[t].Owes())
    && |Last(s'.log)| - |Last(s.log)| == if s'.ops[t].PutCount? then 1 else if s'.ops[t].RemCount? then -1 else 0
  }

  /** The last part of each publishing step. */
  lemma PublishDone(s: State, s': State, t: nat, k: Key, r: Option<Value>, x: Ptr)
    requires MapInv(s) && E.Pins(s.ebr) && E.Tags(s.ebr) && Publishes(s, s', t, k, r, x) && Settles(s, s', t)
    requires RetiredKept(Gone(s'), s.mem.nodes, s'.mem.nodes)
    requires x != 0 ==> x in s.mem.nodes && s.mem.nodes[x].home == s.table
    ensures MapInv(s')
  {
    TimesKept(s, s', t, x);
    PublishCore(s, s', t, k, r, x);
    PublishInv(s, s', t, k, r, x);
  }

  lemma PublishInsert(s: State, t: nat)
    requires MapInv(s) && E.Pins(s.ebr) && E.Tags(s.ebr) && Enabled(s, t, Go) && s.ops[t].PutWalk? && s.ops[t].cur == 0
    ensures MapInv(Apply(s, t, Go))
  {
    var s', k, v := Apply(s, t, Go), s.ops[t].k, s.ops[t].v;
    assert WriterOk(s, s.ops[t]);
    InsertPublishes(s, s', t, k, v);
    PublishDone(s, s', t, k, Some(v), 0);
  }

  /** What a splice by `t` does, read off the step. */
  lemma SpliceStep(s: State, t: nat)
    requires Enabled(s, t, Go) && (s.ops[t].PutWalk? || s.ops[t].RemWalk?)
    requires s.ops[t].cur != 0 && s.mem.nodes[s.ops[t].cur].key == s.ops[t].k
    ensures s.ops[t].PutWalk? ==>
      && Moves(s, Apply(s, t, Go), t,
               Replace(s.mem, s.table, Bucket(s.mem, s.table, s.ops[t].k), s.ops[t].prev, s.ops[t].cur, s.ops[t].v),
               Last(s.log)[s.ops[t].k := s.ops[t].v], s.ops[t].cur)
      && Apply(s, t, Go).ops[t] == Retiring
    ensures s.ops[t].RemWalk? ==>
      && Moves(s, Apply(s, t, Go), t,
               Unlink(s.mem, s.table, Bucket(s.mem, s.table, s.ops[t].k), s.ops[t].prev, s.ops[t].cur),
               Last(s.log) - {s.ops[t].k}, s.ops[t].cur)
      && Apply(s, t, Go).ops[t] == RemCount
  {
    EbrUnlink(s, t, s.ops[t].cur);
  }

  lemma PublishReplace(s: State, t: nat)
    requires MapInv(s) && E.Pins(s.ebr) && E.Tags(s.ebr) && Enabled(s, t, Go) && s.ops[t].PutWalk?
    requires s.ops[t].cur != 0 && s.mem.nodes[s.ops[t].cur].key == s.ops[t].k
    ensures MapInv(Apply(s, t, Go))
  {
    ReplaceMoves(s, t);
    ReplaceSettles(s, t);
    PublishDone(s, Apply(s, t, Go), t, s.ops[t].k, Some(s.ops[t].v), s.ops[t].cur);
  }

  lemma ReplaceSettles(s: State, t: nat)
    requires Locks(s) && Enabled(s, t, Go) && s.ops[t].PutWalk?
    requires s.ops[t].cur != 0 && s.mem.nodes[s.ops[t].cur].key == s.ops[t].k && s.ops[t].k in Last(s.log)
    ensures Settles(s, Apply(s, t, Go), t)
  {
    SpliceStep(s, t);
    assert Last(s.log)[s.ops[t].k := s.ops[t].v].Keys == Last(s.log).Keys;
  }

  lemma ReplaceMoves(s: State, t: nat)
    requires Core(s) && Writers(s) && Enabled(s, t, Go) && s.ops[t].PutWalk?
    requires s.ops[t].cur != 0 && s.mem.nodes[s.ops[t].cur].key == s.ops[t].k
    ensures var s', k, x := Apply(s, t, Go), s.ops[t].k, s.ops[t].cur;
            && Publishes(s, s', t, k, Some(s.ops[t].v), x) && RetiredKept(Gone(s'), s.mem.nodes, s'.mem.nodes)
            && s.mem.nodes[x].home == s.table && k in Last(s.log)
  {
    var s', k, v, prev, x := Apply(s, t, Go), s.ops[t].k, s.ops[t].v, s.ops[t].prev, s.ops[t].cur;
    SpliceStep(s, t);
    assert WriterOk(s, s.ops[t]);
    FoundLink(s, s.ops[t]);
    ReplacePublishes(s, s', t, k, v, prev, x);
  }

  lemma PublishRemove(s: State, t: nat)
    requires MapInv(s) && E.Pins(s.ebr) && E.Tags(s.ebr) && Enabled(s, t, Go) && s.ops[t].RemWalk?
    requires s.ops[t].cur != 0 && s.mem.nodes[s.ops[t].cur].key == s.ops[t].k
    ensures MapInv(Apply(s, t, Go))
  {
    RemoveMoves(s, t);
    RemoveSettles(s, t);
    PublishDone(s, Apply(s, t, Go), t, s.ops[t].k, None, s.ops[t].cur);
  }

  lemma RemoveSettles(s: State, t: nat)
    requires Locks(s) && Enabled(s, t, Go) && s.ops[t].RemWalk?
    requires s.ops[t].cur != 0 && s.mem.nodes[s.ops[t].cur].key == s.ops[t].k && s.ops[t].k in Last(s.log)
    ensures Settles(s, Apply(s, t, Go), t)
  {
    SpliceStep(s, t);
    OneFewer(Last(s.log), s.ops[t].k);
  }

  lemma RemoveMoves(s: State, t: nat)
    requires Core(s) && Writers(s) && Enabled(s, t, Go) && s.ops[t].RemWalk?
    requires s.ops[t].cur != 0 && s.mem.nodes[s.ops[t].cur].key == s.ops[t].k
    ensures var s', k, x := Apply(s, t, Go), s.ops[t].k, s.ops[t].cur;
            && Publishes(s, s', t, k, None, x) && RetiredKept(Gone(s'), s.mem.nodes, s'.mem.nodes)
            && s.mem.nodes[x].home == s.table && k in Last(s.log)
  {
    var s', k, prev, x := Apply(s, t, Go), s.ops[t].k, s.ops[t].prev, s.ops[t].cur;
    SpliceStep(s, t);
    assert WriterOk(s, s.ops[t]);
    FoundLink(s, s.ops[t]);
    RemovePublishes(s, s', t, k, prev, x);
  }

  lemma OneFewer(c: Contents, k: Key)
    requires k in c
    ensures |c - {k}| == |c| - 1
  {
    assert (c - {k}).Keys == c.Keys - {k};
  }

  // ---------------------------------------------------------------- Resize

  /** A step of `Resize`: the map is the same, and no walk under way notices. */
  ghost predicate Rebuilds(s: State, s': State, t: nat, x: Ptr) {
    && UnlinksOnly(s, s', t, x) && x !in s.ebr.unlinked
    && Ranked(s.mem.nodes) && Ranked(s'.mem.nodes)
    && SameWalks(s.mem.nodes, s'.mem.nodes) && NextOnly(s.mem.nodes, s'.mem.nodes)
    && s'.log == s.log && s'.lock == s.lock && s'.count == s.count && s'.mem.hash == s.mem.hash
    && forall tab :: tab in s.mem.tables && (tab == s.table || tab in s.ebr.unlinked) ==>
         tab in s'.mem.tables && s'.mem.tables[tab] == s.mem.tables[tab]
  }

  lemma RebuildReader(s: State, s': State, t: nat, x: Ptr, u: nat)
    requires Core(s) && Core(s') && Rebuilds(s, s', t, x)
    requires s.table == s'.table || s.table in Gone(s')
    requires u < |s.ops| && u < |s.ebr.threads| && u != t && ReaderOk(s, u) && E.Pinned(s.ebr, u)
    ensures ReaderOk(s', u)
  {
    var th := s.ebr.threads[u];
    match s.ops[u]
    case GetTable(j, start, tab) =>
      TimeKept(s, s', t, x, tab, th.pinTime);
      assert TableOk(s.mem, Gone(s), tab) && BucketOk(s.mem, Gone(s), tab, Bucket(s.mem, tab, j));
      assert Lookup(s'.mem.nodes, Head(s.mem, tab, j), j) == Lookup(s.mem.nodes, Head(s.mem, tab, j), j);
    case GetWalk(j, start, cur) =>
      assert Lookup(s'.mem.nodes, cur, j) == Lookup(s.mem.nodes, cur, j);
      if cur != 0 {
        TimeKept(s, s', t, x, cur, th.pinTime);
        TimeKept(s, s', t, x, s.mem.nodes[cur].home, th.pinTime);
      }
    case _ =>
  }

  /** After a step of `Resize` everything above the memory holds again. */
  lemma RebuildRest(s: State, s': State, t: nat, x: Ptr)
    requires Core(s) && Locks(s) && Readers(s) && Counted(s) && Pendings(s) && E.Pins(s.ebr)
    requires Core(s') && Rebuilds(s, s', t, x)
    requires s.table == s'.table || s.table in Gone(s')
    requires t < |s.ops| && s.lock == Some(t) && WriterOk(s', s'.ops[t])
    requires s.ops[t].PutCheck? || s.ops[t].Copying?
    requires s'.ops[t].PutRetireTable? || s'.ops[t].Copying?
    requires s'.ebr.threads[t].pending.Some? ==> s'.ops[t].Owes()
    requires forall u :: u in s'.mem.tables && u !in Gone(s') && u != s'.table ==>
             s'.ops[t].Copying? && s'.ops[t].into == u
    ensures Locks(s') && Writers(s') && Readers(s') && Counted(s') && Pendings(s')
  {
    RebuildLocks(s, s', t, x);
    RebuildWriters(s, s', t);
    RebuildReaders(s, s', t, x);
    assert ReaderOk(s', t);
  }

  lemma RebuildLocks(s: State, s': State, t: nat, x: Ptr)
    requires Core(s) && Locks(s) && Counted(s) && Pendings(s) && Core(s') && UnlinksOnly(s, s', t, x)
    requires s'.log == s.log && s'.lock == s.lock == Some(t) && s'.count == s.count && t < |s.ops|
    requires s.ops[t].PutCheck? || s.ops[t].Copying?
    requires s'.ops[t].PutRetireTable? || s'.ops[t].Copying?
    requires s'.ebr.threads[t].pending.Some? ==> s'.ops[t].Owes()
    ensures Locks(s') && Counted(s') && Pendings(s')
  {
  }

  /** The lock holder is the only writer, and its new table the only one in use beside the current one. */
  lemma RebuildWriters(s: State, s': State, t: nat)
    requires Core(s') && Locks(s') && s'.lock == Some(t) && t < |s'.ops| && WriterOk(s', s'.ops[t])
    requires forall u :: u in s'.mem.tables && u !in Gone(s') && u != s'.table ==>
             s'.ops[t].Copying? && s'.ops[t].into == u
    ensures Writers(s')
  {
    forall u | 0 <= u < |s'.ops| ensures WriterOk(s', s'.ops[u]) { assert s'.ops[u].Locked() <==> s'.lock == Some(u); }
  }

  lemma RebuildReaders(s: State, s': State, t: nat, x: Ptr)
    requires Core(s) && Locks(s) && Readers(s) && E.Pins(s.ebr) && Core(s') && Rebuilds(s, s', t, x)
    requires s.table == s'.table || s.table in Gone(s')
    ensures forall u :: 0 <= u < |s.ops| && u != t ==> ReaderOk(s', u)
  {
    forall u | 0 <= u < |s.ops| && u != t ensures ReaderOk(s', u) {
      assert ReaderOk(s, u) && E.Pinned(s.ebr, u);
      RebuildReader(s, s', t, x, u);
    }
  }

  lemma ResizeBegins(s: State, s': State, t: nat, k: Key, v: Value)
    requires MapInv(s) && E.Pins(s.ebr) && t < |s.ops| && s.lock == Some(t) && s.ops[t].PutCheck?
    requires |s.mem.tables[s.table]| > 0
    requires s' == SetOp(s, t, Copying(k, v, s.mem.top, 0, 0)).(mem := NewTable(s.mem, 2 * |s.mem.tables[s.table]|))
    ensures MapInv(s')
  {
    NewTableOk(s.mem, Gone(s), 2 * |s.mem.tables[s.table]|);
    CopyBegins(s.mem, Gone(s), s.table);
    NullIsNothing(s.mem, Gone(s));
    assert Gone(s') == Gone(s);
    forall c | c in s'.mem.nodes ensures NodeTimes(s', c) { assert NodeTimes(s, c); }
    assert Core(s');
    RebuildRest(s, s', t, 0);
  }

  lemma CopyStep(s: State, s': State, t: nat, k: Key, v: Value, into: Ptr, at: nat, cur: Ptr)
    requires Core(s) && Locks(s) && Readers(s) && Writers(s) && Counted(s) && Pendings(s) && E.Pins(s.ebr)
             && E.Tags(s.ebr)
    requires t < |s.ops| && s.lock == Some(t) && s.ops[t] == Copying(k, v, into, at, cur)
    requires cur != 0 && cur in s.mem.nodes && into in s.mem.tables && |s.mem.tables[into]| > 0
    requires s' == SetOp(s, t, Copying(k, v, into, at, s.mem.nodes[cur].next))
                     .(mem := Insert(s.mem, into, s.mem.nodes[cur].key, s.mem.nodes[cur].value))
    ensures Core(s') && Locks(s') && Writers(s') && Readers(s') && Counted(s') && Pendings(s')
  {
    NothingOwed(s, t);
    CopyHolder(s, s', t, k, v, into, at, cur);
    RebuildRest(s, s', t, 0);
  }

  lemma NothingOwed(s: State, t: nat)
    requires Locks(s) && Pendings(s) && t < |s.ops| && !s.ops[t].Owes()
    ensures s.ebr.threads[t].pending == None
  {
  }

  lemma CopyHolder(s: State, s': State, t: nat, k: Key, v: Value, into: Ptr, at: nat, cur: Ptr)
    requires Core(s) && Writers(s) && E.Tags(s.ebr)
    requires t < |s.ops| == |s.ebr.threads| && s.lock == Some(t) && s.ops[t] == Copying(k, v, into, at, cur)
    requires cur != 0 && cur in s.mem.nodes && into in s.mem.tables && |s.mem.tables[into]| > 0
    requires s' == SetOp(s, t, Copying(k, v, into, at, s.mem.nodes[cur].next))
                     .(mem := Insert(s.mem, into, s.mem.nodes[cur].key, s.mem.nodes[cur].value))
    ensures Core(s') && Rebuilds(s, s', t, 0) && WriterOk(s', s'.ops[t])
    ensures forall u :: u in s'.mem.tables && u !in Gone(s') && u != s'.table ==> s'.ops[t].into == u
  {
    assert WriterOk(s, s.ops[t]);
    CopyMem(s, s', t, into, at, cur);
    CopyGoesOn(s, s', t, k, v, into, at, cur);
  }

  /** The holder's copying loop has moved to the next node, and no table has appeared or gone. */
  lemma CopyGoesOn(s: State, s': State, t: nat, k: Key, v: Value, into: Ptr, at: nat, cur: Ptr)
    requires Core(s) && Writers(s) && Core(s') && s'.table == s.table && Gone(s') == Gone(s)
    requires t < |s.ops| == |s'.ops| && s.lock == Some(t) && s.ops[t] == Copying(k, v, into, at, cur)
    requires Copies(s.mem, s'.mem, Gone(s), s.table, into, at, cur)
    requires cur in s.mem.nodes && s'.ops[t] == Copying(k, v, into, at, s.mem.nodes[cur].next)
    ensures WriterOk(s', s'.ops[t])
    ensures forall u :: u in s'.mem.tables && u !in Gone(s') && u != s'.table ==> s'.ops[t].into == u
  {
    CopyAdvances(s.mem, s'.mem, Gone(s), s.table, into, at, cur);
    forall u | u in s'.mem.tables && u !in Gone(s') && u != s'.table ensures s'.ops[t].into == u {
      assert u in s.mem.tables;
    }
  }

  lemma CopyMem(s: State, s': State, t: nat, into: Ptr, at: nat, cur: Ptr)
    requires Core(s) && E.Tags(s.ebr) && CopyOk(s.mem, Gone(s), s.table, into, at, cur)
    requires cur != 0 && |s.mem.tables[into]| > 0
    requires UnlinksOnly(s, s', t, 0)
    requires s'.table == s.table && s'.log == s.log && s'.lock == s.lock && s'.count == s.count
    requires s'.mem == Insert(s.mem, into, s.mem.nodes[cur].key, s.mem.nodes[cur].value)
    ensures Copies(s.mem, s'.mem, Gone(s), s.table, into, at, cur) && Gone(s') == Gone(s) && Core(s')
            && Rebuilds(s, s', t, 0)
  {
    var g, x := Gone(s), s.mem.nodes[cur];
    CopyPossible(s.mem, g, s.table, into, at, cur);
    InsertEffect(s.mem, g, into, x.key, x.value);
    InsertNodes(s.mem, g, into, x.key, x.value);
    NullIsNothing(s.mem, g);
    assert Gone(s') == g;
    TimesKept(s, s', t, 0);
    CopyCore(s, s', into, x.key, Some(x.value));
  }

  lemma CopyCore(s: State, s': State, into: Ptr, k: Key, r: Option<Value>)
    requires Core(s) && s'.table == s.table && s'.log == s.log && Gone(s') == Gone(s) && into != s.table
    requires Effect(s.mem, Gone(s), s'.mem, Gone(s), into, k, r)
    requires forall c :: c in s'.mem.nodes ==> NodeTimes(s', c)
    ensures Core(s')
  {
    forall j ensures Get(s'.mem, Gone(s'), s'.table, j) == Entry(Last(s'.log), j) {
      assert Get(s.mem, Gone(s), s.table, j) == Entry(Last(s.log), j);
    }
  }

  lemma LoadStep(s: State, s': State, t: nat, k: Key, v: Value, into: Ptr, at: nat)
    requires Core(s) && Locks(s) && Readers(s) && Writers(s) && Counted(s) && Pendings(s) && E.Pins(s.ebr)
    requires t < |s.ops| && s.lock == Some(t) && s.ops[t] == Copying(k, v, into, at, 0)
    requires at < |s.mem.tables[s.table]|
    requires s' == SetOp(s, t, Copying(k, v, into, at + 1, s.mem.tables[s.table][at]))
    ensures Core(s') && Locks(s') && Writers(s') && Readers(s') && Counted(s') && Pendings(s')
  {
    assert WriterOk(s, s.ops[t]);
    CopyLoads(s.mem, Gone(s), s.table, into, at);
    StillCore(s, s');
    NullIsNothing(s.mem, Gone(s));
    RebuildRest(s, s', t, 0);
  }

  /** The old table is unlinked by the store that publishes the new one. */
  ghost predicate Swaps(s: State, s': State, t: nat, into: Ptr) {
    && UnlinksOnly(s, s', t, s.table) && s'.mem == s.mem && s'.log == s.log && s'.lock == s.lock && s'.count == s.count
    && s'.table == into
  }

  lemma SwapCore(s: State, s': State, t: nat, into: Ptr, at: nat)
    requires Core(s) && E.Tags(s.ebr) && CopyOk(s.mem, Gone(s), s.table, into, at, 0) && at >= |s.mem.tables[s.table]|
    requires Swaps(s, s', t, into)
    ensures Core(s') && Gone(s') == Gone(s) + {s.table}
  {
    NullIsNothing(s.mem, Gone(s));
    assert Gone(s') == Gone(s) + {s.table};
    GoneTableOk(s.mem, Gone(s), s.table);
    forall c | c in s'.mem.nodes ensures NodeTimes(s', c) { assert NodeTimes(s, c) && NodeOk(s.mem, Gone(s), c); }
    forall j ensures Get(s'.mem, Gone(s'), s'.table, j) == Entry(Last(s'.log), j) {
      CopyDone(s.mem, Gone(s), s.table, into, at, j);
      assert Get(s.mem, Gone(s), s.table, j) == Entry(Last(s.log), j);
    }
  }

  lemma SwapRest(s: State, s': State, t: nat, k: Key, v: Value, into: Ptr, at: nat)
    requires Core(s) && Locks(s) && Readers(s) && Writers(s) && Counted(s) && Pendings(s) && E.Pins(s.ebr)
             && E.Tags(s.ebr)
    requires t < |s.ops| && s.lock == Some(t) && s.ops[t] == Copying(k, v, into, at, 0) && at >= |s.mem.tables[s.table]|
    requires Swaps(s, s', t, into) && s'.ops[t] == PutRetireTable(k, v)
    ensures Core(s') && Locks(s') && Writers(s') && Readers(s') && Counted(s') && Pendings(s')
  {
    assert WriterOk(s, s.ops[t]);
    SwapCore(s, s', t, into, at);
    RebuildRest(s, s', t, s.table);
  }

  lemma SwapStep(s: State, t: nat)
    requires Enabled(s, t, Go) && s.ops[t].Copying? && s.ops[t].cur == 0
    requires s.ops[t].at >= |s.mem.tables[s.table]|
    ensures Swaps(s, Apply(s, t, Go), t, s.ops[t].into)
    ensures Apply(s, t, Go).ops[t] == PutRetireTable(s.ops[t].k, s.ops[t].v)
  {
    EbrUnlink(s, t, s.table);
  }

  lemma ResizeStepOk(s: State, t: nat)
    requires MapInv(s) && E.Pins(s.ebr) && E.Tags(s.ebr) && Enabled(s, t, Go) && s.ops[t].Copying?
    ensures MapInv(Apply(s, t, Go))
  {
    var s' := Apply(s, t, Go);
    var Copying(k, v, into, at, cur) := s.ops[t];
    if cur != 0 {
      CopyStep(s, s', t, k, v, into, at, cur);
    } else if at < |s.mem.tables[s.table]| {
      LoadStep(s, s', t, k, v, into, at);
    } else {
      SwapStep(s, t);
      SwapRest(s, s', t, k, v, into, at);
    }
  }

  // ---------------------------------------------------------------- every step

  lemma WriteStepOk(s: State, t: nat)
    requires MapInv(s) && E.Pins(s.ebr) && E.Tags(s.ebr) && Enabled(s, t, Go)
    requires s.ops[t].Locked() || s.ops[t].PutLock? || s.ops[t].RemLock?
    ensures MapInv(Apply(s, t, Go))
  {
    match s.ops[t]
    case PutCheck(k, v) =>
      if s.count >= |s.mem.tables[s.table]| { ResizeBegins(s, Apply(s, t, Go), t, k, v); } else { QuietStep(s, t); }
    case Copying(_, _, _, _, _) => ResizeStepOk(s, t);
    case PutHead(_, _) => WalkingStep(s, t);
    case RemHead(_) => WalkingStep(s, t);
    case PutWalk(_, _, _, _) => WalkStepOk(s, t);
    case RemWalk(_, _, _) => WalkStepOk(s, t);
    case _ => QuietStep(s, t);
  }

  lemma WalkStepOk(s: State, t: nat)
    requires MapInv(s) && E.Pins(s.ebr) && E.Tags(s.ebr) && Enabled(s, t, Go)
             && (s.ops[t].PutWalk? || s.ops[t].RemWalk?)
    ensures MapInv(Apply(s, t, Go))
  {
    match s.ops[t]
    case PutWalk(k, _, _, cur) =>
      if cur == 0 { PublishInsert(s, t); }
      else if s.mem.nodes[cur].key == k { PublishReplace(s, t); }
      else { WalkingStep(s, t); }
    case RemWalk(k, _, cur) =>
      if cur != 0 && s.mem.nodes[cur].key == k { PublishRemove(s, t); } else { WalkingStep(s, t); }
  }

  lemma EbrInv(s: State, t: nat, a: Act)
    requires E.Inv(s.ebr) && Enabled(s, t, a)
    ensures E.Inv(Apply(s, t, a).ebr)
  {
    match a
    case Ebr(e) => ES.StepInv(s.ebr, t, e);
    case CallGet(k) => ES.StepInv(s.ebr, t, E.Enter);
    case Go =>
      if s.ops[t].GetLeave? { ES.StepInv(s.ebr, t, E.Exit); }
      if Victim(s, t) != 0 { ES.StepInv(s.ebr, t, E.Unlink(Victim(s, t))); }
    case _ =>
  }

  lemma StepInv(s: State, t: nat, a: Act)
    requires Inv(s) && Enabled(s, t, a)
    ensures Inv(Apply(s, t, a))
  {
    EbrInv(s, t, a);
    MapStepInv(s, t, a);
  }

  lemma MapStepInv(s: State, t: nat, a: Act)
    requires MapInv(s) && E.Shape(s.ebr) && E.Pins(s.ebr) && E.Tags(s.ebr) && Enabled(s, t, a)
    ensures MapInv(Apply(s, t, a))
  {
    match a
    case Ebr(e) => EbrStep(s, t, e);
    case CallGet(k) => CallGetStep(s, t, k);
    case CallPut(_, _) => CallWriteStep(s, t, a);
    case CallRemove(_) => CallWriteStep(s, t, a);
    case Go =>
      if s.ops[t].Locked() || s.ops[t].PutLock? || s.ops[t].RemLock? { WriteStepOk(s, t); }
      else if s.ops[t].GetLeave? { LeaveStepOk(s, t); }
      else { ReadStepOk(s, t); }
  }

  lemma InitInv(threads: nat, hash: Key -> nat, buckets: nat)
    requires buckets > 0
    ensures Inv(Init(threads, hash, buckets))
  {
    var s := Init(threads, hash, buckets);
    ES.InitInv(threads);
    assert TableOk(s.mem, Gone(s), 1);
    assert Core(s);
  }
}
