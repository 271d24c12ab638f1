/**
 Epoch-based reclamation (common/concurrency/ebr.cc) as a step machine.

 Every shared load, store or read-modify-write is one step; any number of threads interleave
 their steps in any order.  `now`, `pinTime`, `pinEpoch`, `unlinked`, `tags` and the `start` of a
 collection are history variables: no step's effect on the real fields depends on them.
 */
module EpochReclamation {
  import opened Prelude

  type Obj = nat

  const BATCH_THRESHOLD: nat := 64

  datatype Batch = Batch(epoch: nat, nodes: seq<Obj>)

  // A control block.  The source prepends to a linked list; here a new block is appended, so the
  // list order is the descending index order and the first `n` entries are what a scan that
  // loaded the list head at length `n` will visit.
  datatype Tcb = Tcb(local: nat, active: bool, batches: seq<Batch>)

  datatype Pc =
    | Idle
    | Entering                                        // registered, about to bump critical_depth
    | Pinning(e: nat)                                 // epoch loaded, local_epoch not yet stored
    | Deactivated                                     // UnregisterThread between its two stores
    | RetireStart                                     // registered, about to load the epoch
    | Retiring(e: nat)                                // epoch loaded, node not yet batched
    | GcEnter                                         // Retire reached the batch threshold
    | GcHead(min: nat, start: nat)                    // global epoch loaded
    | GcScan(min: nat, start: nat, left: nat)         // control blocks 0..left still to visit
    | GcLocal(min: nat, start: nat, left: nat)        // block left-1 seen active
    | GcCas(min: nat, start: nat, cur: nat)
    | GcSweep(min: nat, start: nat, at: nat)          // looking at batch `at`
  {
    predicate InScan() { GcHead? || GcScan? || GcLocal? || GcCas? || GcSweep? }
  }

  // `tcb` is -1 while the thread has no control block; `pending` is the object this thread has
  // unlinked and still has to retire.
  datatype Thread = Thread(tcb: int, depth: nat, pc: Pc, pending: Option<Obj>, pinTime: nat, pinEpoch: nat)

  datatype Unlinked = Unlinked(time: nat, thread: nat)
  datatype Tag = Tag(epoch: nat, tcb: nat)

  datatype State = State(
    epoch: nat,
    tcbs: seq<Tcb>,
    threads: seq<Thread>,
    freed: set<Obj>,
    now: nat,
    unlinked: map<Obj, Unlinked>,
    tags: map<Obj, Tag>)

  // The calls a client makes; Continue is the next step inside a call already under way.
  datatype Act =
    | Register
    | Unregister
    | Enter
    | Exit
    | Unlink(o: Obj)
    | Retire
    | Gc
    | Continue

  predicate InCritical(th: Thread) { th.depth > 0 && !th.pc.Pinning? }

  const NEW_TCB := Tcb(0, true, [])

  function Init(threads: nat): State {
    State(1, [], seq(threads, _ => Thread(-1, 0, Idle, None, 0, 0)), {}, 1, map[], map[])
  }

  /** The indices a thread's program counter carries are in range; every reachable state has this. */
  predicate WellPlaced(s: State, t: nat) {
    && t < |s.threads|
    && var th := s.threads[t];
    && th.tcb < |s.tcbs|
    && (th.pc.Pinning? || th.pc.Deactivated? || th.pc.Retiring? ==> th.tcb >= 0)
    && (th.pc.Retiring? ==> th.pending.Some?)
    && (th.pc.GcScan? ==> th.pc.left <= |s.tcbs|)
    && (th.pc.GcLocal? ==> 1 <= th.pc.left <= |s.tcbs|)
    && (th.pc.GcSweep? && th.tcb >= 0 ==> th.pc.at <= |s.tcbs[th.tcb].batches|)
  }

  /** When a step is allowed.  Leaving or unregistering is paired the way EbrGuard pairs them. */
  predicate Enabled(s: State, t: nat, a: Act) {
    && WellPlaced(s, t)
    && var th := s.threads[t];
    match a
    case Continue => th.pc != Idle
    case Register => th.pc == Idle
    case Unregister => th.pc == Idle && th.depth == 0 && th.pending == None
    case Enter => th.pc == Idle
    case Exit => th.pc == Idle && th.depth > 0
    case Unlink(o) => th.pc == Idle && th.pending == None && o !in s.unlinked
    case Retire => th.pc == Idle && th.pending != None
    case Gc => th.pc == Idle
  }

  /** What one step of a thread writes: its own record, its own control block, and the globals. */
  datatype Delta = Delta(
    th: Thread,
    own: Tcb,
    grow: bool,                       // a fresh control block joins the list
    epoch: nat,
    freed: set<Obj>,
    unlinked: map<Obj, Unlinked>,
    tags: map<Obj, Tag>)

  function Own(s: State, t: nat): Tcb
    requires t < |s.threads| && s.threads[t].tcb < |s.tcbs|
  {
    if s.threads[t].tcb >= 0 then s.tcbs[s.threads[t].tcb] else NEW_TCB
  }

  function Same(s: State, t: nat): Delta
    requires t < |s.threads| && s.threads[t].tcb < |s.tcbs|
  {
    Delta(s.threads[t], Own(s, t), false, s.epoch, s.freed, s.unlinked, s.tags)
  }

  function Goto(s: State, t: nat, pc: Pc): Delta
    requires t < |s.threads| && s.threads[t].tcb < |s.tcbs|
  {
    Same(s, t).(th := s.threads[t].(pc := pc))
  }

  function AddTcb(s: State, t: nat, pc: Pc): Delta
    requires t < |s.threads| && s.threads[t].tcb < |s.tcbs|
  {
    Same(s, t).(grow := true, th := s.threads[t].(tcb := |s.tcbs|, pc := pc))
  }

  function EnterBody(s: State, t: nat): Delta
    requires t < |s.threads| && s.threads[t].tcb < |s.tcbs|
  {
    var th := s.threads[t];
    Same(s, t).(th := th.(depth := th.depth + 1, pc := if th.depth == 0 then Pinning(s.epoch) else Idle))
  }

  function ExitBody(s: State, t: nat): Delta
    requires t < |s.threads| && s.threads[t].depth > 0 && s.threads[t].tcb < |s.tcbs|
  {
    var th := s.threads[t];
    if th.tcb < 0 then Same(s, t)
    else if th.depth == 1 then Same(s, t).(th := th.(depth := 0), own := Own(s, t).(local := 0))
    else Same(s, t).(th := th.(depth := th.depth - 1))
  }

  function Push(bs: seq<Batch>, e: nat, o: Obj): (r: seq<Batch>)
    ensures |r| > 0
  {
    if bs == [] || bs[|bs| - 1].epoch != e then bs + [Batch(e, [o])]
    else bs[|bs| - 1 := Batch(e, bs[|bs| - 1].nodes + [o])]
  }

  function RetirePush(s: State, t: nat, e: nat): Delta
    requires t < |s.threads| && 0 <= s.threads[t].tcb < |s.tcbs| && s.threads[t].pending.Some?
  {
    var th := s.threads[t];
    var o := th.pending.value;
    var bs := Push(Own(s, t).batches, e, o);
    var pc := if |bs[|bs| - 1].nodes| >= BATCH_THRESHOLD then GcEnter else Idle;
    Same(s, t).(
      own := Own(s, t).(batches := bs),
      th := th.(pc := pc, pending := None),
      tags := s.tags[o := Tag(e, th.tcb)])
  }

  function SweepStep(s: State, t: nat, min: nat, start: nat, at: nat): Delta
    requires t < |s.threads| && s.threads[t].tcb < |s.tcbs|
    requires s.threads[t].tcb >= 0 ==> at <= |s.tcbs[s.threads[t].tcb].batches|
  {
    var bs := Own(s, t).batches;
    if s.threads[t].tcb < 0 || at == |bs| then Goto(s, t, Idle)
    else if bs[at].epoch >= min then Goto(s, t, GcSweep(min, start, at + 1))
    else if bs[at].nodes == [] then Same(s, t).(own := Own(s, t).(batches := bs[..at] + bs[at + 1..]))
    else
      Same(s, t).(
        own := Own(s, t).(batches := bs[at := Batch(bs[at].epoch, bs[at].nodes[1..])]),
        freed := s.freed + {bs[at].nodes[0]})
  }

  function ContinueStep(s: State, t: nat): Delta
    requires WellPlaced(s, t)
  {
    var th := s.threads[t];
    match th.pc
    case Idle => Same(s, t)
    case Entering => EnterBody(s, t)
    case Pinning(e) =>
      Same(s, t).(th := th.(pc := Idle, pinTime := s.now, pinEpoch := s.epoch), own := Own(s, t).(local := e))
    case Deactivated => Same(s, t).(th := th.(tcb := -1, pc := Idle), own := Own(s, t).(local := 0))
    case RetireStart => Goto(s, t, Retiring(s.epoch))
    case Retiring(e) => RetirePush(s, t, e)
    case GcEnter => Goto(s, t, GcHead(s.epoch, s.now))
    case GcHead(min, start) => Goto(s, t, GcScan(min, start, |s.tcbs|))
    case GcScan(min, start, left) =>
      if left > 0 then
        Goto(s, t, if s.tcbs[left - 1].active then GcLocal(min, start, left) else GcScan(min, start, left - 1))
      else Goto(s, t, if min == s.epoch then GcCas(min, start, s.epoch) else GcSweep(min, start, 0))
    case GcLocal(min, start, left) =>
      var local := s.tcbs[left - 1].local;
      Goto(s, t, GcScan(if local != 0 && local < min then local else min, start, left - 1))
    case GcCas(min, start, cur) =>
      Goto(s, t, GcSweep(min, start, 0)).(epoch := if s.epoch == cur then cur + 1 else s.epoch)
    case GcSweep(min, start, at) => SweepStep(s, t, min, start, at)
  }

  function StepOf(s: State, t: nat, a: Act): Delta
    requires Enabled(s, t, a)
  {
    var th := s.threads[t];
    match a
    case Register => if th.tcb >= 0 then Same(s, t) else AddTcb(s, t, Idle)
    case Unregister =>
      if th.tcb < 0 then Same(s, t)
      else Goto(s, t, Deactivated).(own := Own(s, t).(active := false))
    case Enter => if th.tcb < 0 then AddTcb(s, t, Entering) else EnterBody(s, t)
    case Exit => ExitBody(s, t)
    case Unlink(o) => Same(s, t).(th := th.(pending := Some(o)), unlinked := s.unlinked[o := Unlinked(s.now, t)])
    case Retire => if th.tcb < 0 then AddTcb(s, t, RetireStart) else Goto(s, t, Retiring(s.epoch))
    case Gc => Goto(s, t, GcHead(s.epoch, s.now))
    case Continue => ContinueStep(s, t)
  }

  function Commit(s: State, t: nat, d: Delta): State
    requires t < |s.threads| && s.threads[t].tcb < |s.tcbs|
  {
    var j := s.threads[t].tcb;
    var tcbs := if j >= 0 then s.tcbs[j := d.own] else s.tcbs;
    State(d.epoch, if d.grow then tcbs + [NEW_TCB] else tcbs, s.threads[t := d.th],
          d.freed, s.now + 1, d.unlinked, d.tags)
  }

  /** One step of thread `t`. */
  function Apply(s: State, t: nat, a: Act): State
    requires Enabled(s, t, a)
  {
    Commit(s, t, StepOf(s, t, a))
  }

  // ---------------------------------------------------------------- invariant

  ghost predicate Crit(s: State, t: int) { 0 <= t < |s.threads| && InCritical(s.threads[t]) }

  ghost predicate Scanning(s: State, g: int) { 0 <= g < |s.threads| && s.threads[g].pc.InScan() }

  ghost predicate ThreadShape(s: State, t: nat)
    requires t < |s.threads|
  {
    var th := s.threads[t];
    && -1 <= th.tcb && WellPlaced(s, t)
    && (th.pc.Entering? || th.pc.RetireStart? ==> th.tcb >= 0)
    && (th.pc.Entering? ==> th.depth == 0)
    && (th.pc.RetireStart? ==> th.pending.Some?)
    && (th.pc.Deactivated? ==> th.depth == 0 && th.pending == None)
    && (th.pc.Pinning? ==> th.depth == 1)
    && (th.depth > 0 ==> th.tcb >= 0)
    && (th.tcb >= 0 ==> (s.tcbs[th.tcb].active <==> !th.pc.Deactivated?))
  }

  ghost predicate Shape(s: State) {
    && s.epoch >= 1
    && (forall t :: 0 <= t < |s.threads| ==> ThreadShape(s, t))
    && TcbsDistinct(s)
  }

  ghost predicate TcbsDistinct(s: State) {
    forall t, u :: 0 <= t < |s.threads| && 0 <= u < |s.threads| && t != u && s.threads[t].tcb >= 0 ==>
      s.threads[t].tcb != s.threads[u].tcb
  }

  /**
   A thread in a critical section has published a pin that is no newer than the epoch it pinned; the block of any
   other thread shows none.
   */
  ghost predicate Pinned(s: State, t: nat)
    requires t < |s.threads|
  {
    var th := s.threads[t];
    && (th.pc.Pinning? ==> 1 <= th.pc.e <= s.epoch)
    && (InCritical(th) ==>
          && 0 <= th.tcb < |s.tcbs|
          && 1 <= s.tcbs[th.tcb].local <= th.pinEpoch <= s.epoch
          && th.pinTime < s.now)
    && (0 <= th.tcb < |s.tcbs| && !InCritical(th) ==> s.tcbs[th.tcb].local == 0)
  }

  ghost predicate Pins(s: State) {
    forall t :: 0 <= t < |s.threads| ==> Pinned(s, t)
  }

  ghost predicate Unowned(s: State, j: int) {
    forall t :: 0 <= t < |s.threads| ==> s.threads[t].tcb != j
  }

  /** A block whose thread has unregistered is inactive and shows no pin. */
  ghost predicate Spare(s: State) {
    forall j :: 0 <= j < |s.tcbs| && Unowned(s, j) ==> !s.tcbs[j].active && s.tcbs[j].local == 0
  }

  ghost predicate DatedBy(bs: seq<Batch>, e: nat) { forall b :: 0 <= b < |bs| ==> bs[b].epoch <= e }

  /** No batch is of an epoch that has not come yet. */
  ghost predicate Dated(s: State) {
    && (forall t :: 0 <= t < |s.threads| && s.threads[t].pc.Retiring? ==> s.threads[t].pc.e <= s.epoch)
    && (forall j :: 0 <= j < |s.tcbs| ==> DatedBy(s.tcbs[j].batches, s.epoch))
  }

  ghost function Local(s: State, t: nat): nat {
    if t < |s.threads| && 0 <= s.threads[t].tcb < |s.tcbs| then s.tcbs[s.threads[t].tcb].local else 0
  }

  /** Every critical section older than `time` holds a pin at or below `e`. */
  ghost predicate PinnedBelow(s: State, time: nat, e: nat)
  {
    forall t :: Crit(s, t) && s.threads[t].pinTime <= time ==> Local(s, t) <= e
  }

  /** A reader that was in its critical section when `o` was unlinked holds a pin at or below `o`'s tag. */
  ghost predicate Tags(s: State)
  {
    && (forall o :: o in s.unlinked ==> s.unlinked[o].time < s.now)
    && (forall o :: o in s.tags ==> o in s.unlinked && PinnedBelow(s, s.unlinked[o].time, s.tags[o].epoch))
  }

  ghost predicate PendingOk(s: State, u: nat)
    requires u < |s.threads|
  {
    s.threads[u].pending.Some? ==>
      var o := s.threads[u].pending.value;
      && o in s.unlinked && s.unlinked[o].thread == u && o !in s.tags
      && (s.threads[u].pc.Retiring? ==> PinnedBelow(s, s.unlinked[o].time, s.threads[u].pc.e))
  }

  /** An unlinked object that is not yet batched is pending in exactly the thread that unlinked it. */
  ghost predicate Pending(s: State)
  {
    && (forall u :: 0 <= u < |s.threads| ==> PendingOk(s, u))
    && (forall o :: o in s.unlinked && o !in s.tags ==>
          s.unlinked[o].thread < |s.threads| && s.threads[s.unlinked[o].thread].pending == Some(o))
  }

  /** Position `p` of batch `b` holds `o`. */
  ghost predicate At(bs: seq<Batch>, b: int, p: int, o: Obj) {
    0 <= b < |bs| && 0 <= p < |bs[b].nodes| && bs[b].nodes[p] == o
  }

  /** The batches of block `j` hold, once each, exactly the objects it retired that are not freed. */
  ghost predicate Holds(bs: seq<Batch>, j: nat, tags: map<Obj, Tag>, freed: set<Obj>) {
    && (forall b, p, o :: At(bs, b, p, o) ==> o in tags && o !in freed && tags[o] == Tag(bs[b].epoch, j))
    && (forall b, p, c, q, o :: At(bs, b, p, o) && At(bs, c, q, o) ==> b == c && p == q)
    && (forall o :: o in tags && o !in freed && tags[o].tcb == j ==> exists b, p :: At(bs, b, p, o))
  }

  /** Every retired object is freed or sits exactly once in the batches of the block that retired it. */
  ghost predicate Batched(s: State) {
    && (forall j :: 0 <= j < |s.tcbs| ==> Holds(s.tcbs[j].batches, j, s.tags, s.freed))
    && (forall o :: o in s.freed ==> o in s.tags)
    && (forall o :: o in s.tags ==> s.tags[o].tcb < |s.tcbs|)
  }

  function Left(s: State, pc: Pc): nat {
    if pc.GcHead? then |s.tcbs| else if pc.GcScan? || pc.GcLocal? then pc.left else 0
  }

  /** The minimum of a running scan is at or below every older pin it has already passed. */
  ghost predicate ScanOk(s: State, g: nat)
    requires g < |s.threads|
  {
    s.threads[g].pc.InScan() ==>
      var pc := s.threads[g].pc;
      && pc.start < s.now && pc.min <= s.epoch
      && (pc.GcCas? ==> pc.min == pc.cur)
      && (forall t :: Crit(s, t) && s.threads[t].pinTime < pc.start ==>
            s.threads[t].tcb < Left(s, pc) || pc.min <= Local(s, t))
      && (forall t :: Crit(s, t) && s.threads[t].pinEpoch < pc.min ==> s.threads[t].pinTime < pc.start)
  }

  ghost predicate Scans(s: State)
  {
    forall g :: 0 <= g < |s.threads| ==> ScanOk(s, g)
  }

  /** A collecting thread's own retired objects were all unlinked before its scan started. */
  ghost predicate Sweeps(s: State) {
    forall g, o :: Scanning(s, g) && o in s.tags && o in s.unlinked && s.tags[o].tcb == s.threads[g].tcb ==>
      o in s.freed || s.unlinked[o].time < s.threads[g].pc.start
  }

  /** The epoch moves at most once while a pin is published. */
  ghost predicate EpochBound(s: State) {
    forall t :: Crit(s, t) ==> s.epoch <= s.threads[t].pinEpoch + 1
  }

  /** Safety: whatever is freed was unlinked before every current critical section was pinned. */
  ghost predicate Grace(s: State) {
    forall o, t :: o in s.freed && o in s.unlinked && Crit(s, t) ==> s.unlinked[o].time < s.threads[t].pinTime
  }

  ghost predicate Inv(s: State) {
    && Shape(s) && Pins(s) && Spare(s) && Dated(s) && Tags(s) && Pending(s) && Batched(s) && Scans(s) && Sweeps(s)
    && EpochBound(s) && Grace(s)
  }
}
