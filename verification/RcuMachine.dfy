/**
 RcuHashMap under concurrency (common/concurrency/rcu_hash_map.h) as a step machine over EpochReclamation.

 Readers run `Get` without a lock: the table load, the head load and every `next` load are separate steps.
 Writers run `Put` and `Remove` under `write_mutex_`: every load of a walk, every node copied by `Resize`,
 every publishing store, the count update, `Retire` (with any collection it starts) and the unlock are
 separate steps.  A node's constructor is merged with the store that publishes it.

 `log` is a history variable: the contents of the map after each update, oldest first.
 */
module RcuMachine {
  import opened Prelude
  import opened RcuMemory
  import E = EpochReclamation

  type Contents = map<Key, Value>

  datatype Op =
    | NoOp
    // Get; `start` is the position in the log when the call was made
    | GetEntered(k: Key, start: nat)
    | GetTable(k: Key, start: nat, t: Ptr)
    | GetWalk(k: Key, start: nat, cur: Ptr)
    | GetLeave(k: Key, start: nat, res: Option<Value>)
    | GetDone(k: Key, start: nat, res: Option<Value>)
    // Put
    | PutLock(k: Key, v: Value)
    | PutCheck(k: Key, v: Value)
    | Copying(k: Key, v: Value, into: Ptr, at: nat, cur: Ptr)   // Resize; `at` buckets loaded so far
    | PutRetireTable(k: Key, v: Value)
    | PutHead(k: Key, v: Value)
    | PutWalk(k: Key, v: Value, prev: Ptr, cur: Ptr)
    | PutCount
    // Remove
    | RemLock(k: Key)
    | RemHead(k: Key)
    | RemWalk(k: Key, prev: Ptr, cur: Ptr)
    | RemCount
    // the end of both
    | Retiring
    | Unlocking(removed: bool)      // what Remove returns
  {
    predicate Reads() { GetTable? || GetWalk? || GetLeave? }
    predicate Locked() { !NoOp? && !GetEntered? && !Reads() && !GetDone? && !PutLock? && !RemLock? }
    predicate Owes() { PutRetireTable? || RemCount? || Retiring? }
  }

  datatype State = State(
    ebr: E.State,
    mem: Mem,
    table: Ptr,
    count: int,
    lock: Option<nat>,
    ops: seq<Op>,
    log: seq<Contents>)

  datatype Act =
    | Ebr(a: E.Act)            // a call to the reclamation API, or the next step of one under way
    | CallGet(k: Key)
    | CallPut(k: Key, v: Value)
    | CallRemove(k: Key)
    | Go                       // the next step of the operation under way

  function Entry(c: Contents, k: Key): Option<Value> { if k in c then Some(c[k]) else None }

  function Last(log: seq<Contents>): Contents
    requires |log| > 0
  {
    log[|log| - 1]
  }

  function Init(threads: nat, hash: Key -> nat, buckets: nat): State {
    State(E.Init(threads), Mem(hash, map[], map[1 := seq(buckets, _ => 0)], 2), 1, 0, None,
          seq(threads, _ => NoOp), [map[]])
  }

  /** Which reclamation calls an operation may make; user code may make any but Unlink between operations. */
  predicate EbrAllowed(op: Op, a: E.Act) {
    match a
    case Continue => true
    case Unlink(_) => false
    case Retire => op.PutRetireTable? || op.Retiring?
    case _ => op.NoOp?
  }

  /** The pointers an operation is about to follow lead somewhere; every reachable state has this. */
  predicate Pointing(s: State, op: Op) {
    var ok := s.table != 0 && s.table in s.mem.tables && |s.mem.tables[s.table]| > 0;
    match op
    case GetTable(_, _, t) => t == 0 || (t in s.mem.tables && |s.mem.tables[t]| > 0)
    case GetWalk(_, _, cur) => cur == 0 || cur in s.mem.nodes
    case PutCheck(_, _) => ok
    case Copying(_, _, into, at, cur) =>
      ok && into in s.mem.tables && |s.mem.tables[into]| > 0 && (cur == 0 || cur in s.mem.nodes)
    case PutHead(_, _) => ok
    case RemHead(_) => ok
    case PutWalk(_, _, prev, cur) => ok && (prev == 0 || prev in s.mem.nodes) && (cur == 0 || cur in s.mem.nodes)
    case RemWalk(_, prev, cur) => ok && (prev == 0 || prev in s.mem.nodes) && (cur == 0 || cur in s.mem.nodes)
    case _ => true
  }

  predicate EbrIdle(s: State, t: nat) {
    E.WellPlaced(s.ebr, t) && s.ebr.threads[t].pc == E.Idle
  }

  /** The object the next step of `t` unlinks, if that step unlinks one. */
  function Victim(s: State, t: nat): (o: Ptr)
    requires t < |s.ops| && Pointing(s, s.ops[t])
  {
    match s.ops[t]
    case Copying(_, _, into, at, cur) => if cur == 0 && at >= |s.mem.tables[s.table]| then s.table else 0
    case PutWalk(k, _, _, cur) => if cur != 0 && s.mem.nodes[cur].key == k then cur else 0
    case RemWalk(k, _, cur) => if cur != 0 && s.mem.nodes[cur].key == k then cur else 0
    case _ => 0
  }

  predicate Enabled(s: State, t: nat, a: Act) {
    && t < |s.ops| && |s.log| > 0
    && match a
       case Ebr(e) => E.Enabled(s.ebr, t, e) && EbrAllowed(s.ops[t], e)
       case CallGet(_) => s.ops[t] == NoOp && E.Enabled(s.ebr, t, E.Enter)
       case CallPut(_, _) => s.ops[t] == NoOp && EbrIdle(s, t)
       case CallRemove(_) => s.ops[t] == NoOp && EbrIdle(s, t)
       case Go =>
         && s.ops[t] != NoOp && EbrIdle(s, t) && Pointing(s, s.ops[t])
         && (s.ops[t].PutLock? || s.ops[t].RemLock? ==> s.lock == None)
         && (s.ops[t].PutRetireTable? || s.ops[t].Retiring? ==> s.ebr.threads[t].pending == None)
         && (s.ops[t].GetLeave? ==> E.Enabled(s.ebr, t, E.Exit))
         && (Victim(s, t) != 0 ==> E.Enabled(s.ebr, t, E.Unlink(Victim(s, t))))
  }

  function SetOp(s: State, t: nat, op: Op): State
    requires t < |s.ops|
  {
    s.(ops := s.ops[t := op])
  }

  /** The steps of a reader inside `Get`. */
  function ReadStep(s: State, t: nat): State
    requires Enabled(s, t, Go)
  {
    match s.ops[t]
    case GetEntered(k, start) => SetOp(s, t, GetTable(k, start, s.table))
    case GetTable(k, start, tab) =>
      if tab == 0 then SetOp(s, t, GetLeave(k, start, None))
      else SetOp(s, t, GetWalk(k, start, Head(s.mem, tab, k)))
    case GetWalk(k, start, cur) =>
      if cur == 0 then SetOp(s, t, GetLeave(k, start, None))
      else if s.mem.nodes[cur].key == k then SetOp(s, t, GetLeave(k, start, Some(s.mem.nodes[cur].value)))
      else SetOp(s, t, GetWalk(k, start, s.mem.nodes[cur].next))
    case GetLeave(k, start, res) => SetOp(s, t, GetDone(k, start, res)).(ebr := E.Apply(s.ebr, t, E.Exit))
    case _ => SetOp(s, t, NoOp)
  }

  function Publish(s: State, t: nat, mem: Mem, c: Contents, op: Op): State
    requires Enabled(s, t, Go)
  {
    SetOp(s, t, op).(mem := mem, log := s.log + [c])
  }

  function WalkStep(s: State, t: nat): State
    requires Enabled(s, t, Go) && (s.ops[t].PutWalk? || s.ops[t].RemWalk?)
  {
    var m, now := s.mem, Last(s.log);
    match s.ops[t]
    case PutWalk(k, v, prev, cur) =>
      if cur == 0 then Publish(s, t, Insert(m, s.table, k, v), now[k := v], PutCount)
      else if m.nodes[cur].key == k then
        Publish(s, t, Replace(m, s.table, Bucket(m, s.table, k), prev, cur, v), now[k := v], Retiring)
          .(ebr := E.Apply(s.ebr, t, E.Unlink(cur)))
      else SetOp(s, t, PutWalk(k, v, cur, m.nodes[cur].next))
    case RemWalk(k, prev, cur) =>
      if cur == 0 then SetOp(s, t, Unlocking(false))
      else if m.nodes[cur].key == k then
        Publish(s, t, Unlink(m, s.table, Bucket(m, s.table, k), prev, cur), now - {k}, RemCount)
          .(ebr := E.Apply(s.ebr, t, E.Unlink(cur)))
      else SetOp(s, t, RemWalk(k, cur, m.nodes[cur].next))
  }

  function ResizeStep(s: State, t: nat): State
    requires Enabled(s, t, Go) && s.ops[t].Copying?
  {
    var m := s.mem;
    var Copying(k, v, into, at, cur) := s.ops[t];
    if cur != 0 then
      SetOp(s, t, Copying(k, v, into, at, m.nodes[cur].next))
        .(mem := Insert(m, into, m.nodes[cur].key, m.nodes[cur].value))
    else if at < |m.tables[s.table]| then SetOp(s, t, Copying(k, v, into, at + 1, m.tables[s.table][at]))
    else SetOp(s, t, PutRetireTable(k, v)).(table := into, ebr := E.Apply(s.ebr, t, E.Unlink(s.table)))
  }

  /** The steps of a writer. */
  function WriteStep(s: State, t: nat): State
    requires Enabled(s, t, Go)
  {
    var m := s.mem;
    match s.ops[t]
    case PutLock(k, v) => SetOp(s, t, PutCheck(k, v)).(lock := Some(t))
    case PutCheck(k, v) =>
      if s.count >= |m.tables[s.table]| then
        SetOp(s, t, Copying(k, v, m.top, 0, 0)).(mem := NewTable(m, 2 * |m.tables[s.table]|))
      else SetOp(s, t, PutHead(k, v))
    case Copying(_, _, _, _, _) => ResizeStep(s, t)
    case PutRetireTable(k, v) => SetOp(s, t, PutHead(k, v))
    case PutHead(k, v) => SetOp(s, t, PutWalk(k, v, 0, Head(m, s.table, k)))
    case PutWalk(_, _, _, _) => WalkStep(s, t)
    case PutCount => SetOp(s, t, Unlocking(false)).(count := s.count + 1)
    case RemLock(k) => SetOp(s, t, RemHead(k)).(lock := Some(t))
    case RemHead(k) => SetOp(s, t, RemWalk(k, 0, Head(m, s.table, k)))
    case RemWalk(_, _, _) => WalkStep(s, t)
    case RemCount => SetOp(s, t, Retiring).(count := s.count - 1)
    case Retiring => SetOp(s, t, Unlocking(true))
    case _ => SetOp(s, t, NoOp).(lock := None)
  }

  /** One step of thread `t`. */
  function Apply(s: State, t: nat, a: Act): State
    requires Enabled(s, t, a)
  {
    match a
    case Ebr(e) => s.(ebr := E.Apply(s.ebr, t, e))
    case CallGet(k) => SetOp(s, t, GetEntered(k, |s.log| - 1)).(ebr := E.Apply(s.ebr, t, E.Enter))
    case CallPut(k, v) => SetOp(s, t, PutLock(k, v))
    case CallRemove(k) => SetOp(s, t, RemLock(k))
    case Go => if s.ops[t].Locked() || s.ops[t].PutLock? || s.ops[t].RemLock? then WriteStep(s, t) else ReadStep(s, t)
  }

  // ---------------------------------------------------------------- invariant

  ghost function Gone(s: State): set<Ptr> { s.ebr.unlinked.Keys }

  ghost predicate Time(s: State, o: Ptr, after: nat) { o in s.ebr.unlinked ==> s.ebr.unlinked[o].time > after }

  /** A retired node's successor, and its table, are unlinked later than it, if at all. */
  ghost predicate NodeTimes(s: State, c: Ptr)
    requires c in s.mem.nodes
  {
    c in s.ebr.unlinked ==>
      && Time(s, s.mem.nodes[c].next, s.ebr.unlinked[c].time)
      && Time(s, s.mem.nodes[c].home, s.ebr.unlinked[c].time)
  }

  /** The memory is well formed and the current table holds the newest contents in the log. */
  ghost predicate Core(s: State) {
    && MemOk(s.mem, Gone(s))
    && s.table in s.mem.tables && s.table !in Gone(s)
    && (forall c :: c in s.mem.nodes ==> NodeTimes(s, c))
    && |s.log| > 0
    && (forall k :: Get(s.mem, Gone(s), s.table, k) == Entry(Last(s.log), k))
  }

  ghost predicate Locks(s: State) {
    && |s.ops| == |s.ebr.threads|
    && (forall t :: 0 <= t < |s.ops| ==> (s.ops[t].Locked() <==> s.lock == Some(t)))
    && (s.lock.Some? ==> s.lock.value < |s.ops|)
  }

  ghost predicate WriterOk(s: State, op: Op)
    requires Core(s)
  {
    match op
    case Copying(_, _, into, at, cur) => CopyOk(s.mem, Gone(s), s.table, into, at, cur)
    case PutWalk(k, _, prev, cur) => Walking(s.mem, Gone(s), s.table, k, prev, cur)
    case RemWalk(k, prev, cur) => Walking(s.mem, Gone(s), s.table, k, prev, cur)
    case _ => true
  }

  ghost predicate Writers(s: State)
    requires Core(s)
  {
    && (forall t :: 0 <= t < |s.ops| ==> WriterOk(s, s.ops[t]))
    && (forall u :: u in s.mem.tables && u !in Gone(s) && u != s.table ==>
          s.lock.Some? && s.lock.value < |s.ops| && s.ops[s.lock.value].Copying? && s.ops[s.lock.value].into == u)
  }

  /** Somewhere at or after position `start` of the log the map held `r` for `k`. */
  ghost predicate Seen(log: seq<Contents>, start: nat, k: Key, r: Option<Value>) {
    exists i :: start <= i < |log| && Entry(log[i], k) == r
  }

  /**
   A reader in its walk holds a pointer whose node and table were still linked when it pinned, and what the
   rest of the walk would find is an entry the map has had since the call.
   */
  ghost predicate ReaderOk(s: State, t: nat)
    requires Core(s) && t < |s.ops| && t < |s.ebr.threads|
  {
    var th, m := s.ebr.threads[t], s.mem;
    match s.ops[t]
    case GetEntered(k, start) => start < |s.log| && (th.pc == E.Entering || th.depth > 0)
    case GetTable(k, start, tab) =>
      && start < |s.log| && th.pc == E.Idle && th.depth > 0 && tab in m.tables
      && Time(s, tab, th.pinTime) && (tab == s.table || tab in Gone(s))
      && Seen(s.log, start, k, Get(m, Gone(s), tab, k))
    case GetWalk(k, start, cur) =>
      && start < |s.log| && th.pc == E.Idle && th.depth > 0
      && (cur != 0 ==> cur in m.nodes && Time(s, cur, th.pinTime) && Time(s, m.nodes[cur].home, th.pinTime))
      && Seen(s.log, start, k, Lookup(m.nodes, cur, k))
    case GetLeave(k, start, res) => start < |s.log| && th.pc == E.Idle && th.depth > 0 && Seen(s.log, start, k, res)
    case GetDone(k, start, res) => start < |s.log| && Seen(s.log, start, k, res)
    case _ => true
  }

  ghost predicate Readers(s: State)
    requires Core(s) && Locks(s)
  {
    forall t :: 0 <= t < |s.ops| ==> ReaderOk(s, t)
  }

  /** `count_` is the cardinality, except between a writer's splice and its count update. */
  ghost predicate Counted(s: State)
    requires Core(s) && Locks(s)
  {
    s.count + Owed(s) == |Last(s.log)|
  }

  function Owed(s: State): int {
    if s.lock.Some? && s.lock.value < |s.ops| then
      if s.ops[s.lock.value].PutCount? then 1 else if s.ops[s.lock.value].RemCount? then -1 else 0
    else 0
  }

  /** Only an operation that has just unlinked something has an object to retire. */
  ghost predicate Pendings(s: State)
    requires Locks(s)
  {
    forall t :: 0 <= t < |s.ops| && s.ebr.threads[t].pending.Some? ==> s.ops[t].Owes()
  }

  ghost predicate MapInv(s: State) {
    Core(s) && Locks(s) && Writers(s) && Readers(s) && Counted(s) && Pendings(s)
  }

  ghost predicate Inv(s: State) { E.Inv(s.ebr) && MapInv(s) }
}
