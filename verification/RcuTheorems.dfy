/**
 What every run of the concurrent hash map guarantees: no use after free, one delete per allocation,
 linearizable wait-free reads, and a count that follows the contents.
 */
module RcuTheorems {
  import opened Prelude
  import opened RcuMemory
  import opened RcuMachine
  import RS = RcuSafety
  import ES = EpochSafety
  import ET = EpochTheorems
  import E = EpochReclamation

  // ---------------------------------------------------------------- runs

  datatype Event = Event(t: nat, a: Act)

  // `states[i]` is the state before event `i`.
  datatype Run = Run(states: seq<State>, events: seq<Event>)

  /** An interleaving, of any length, of any number of threads that start from an empty map. */
  ghost predicate Runs(r: Run) {
    && |r.states| == |r.events| + 1
    && (exists n: nat, hash: Key -> nat, buckets: nat :: buckets > 0 && r.states[0] == Init(n, hash, buckets))
    && forall i :: 0 <= i < |r.events| ==> Steps(r, i)
  }

  ghost predicate Steps(r: Run, i: nat)
    requires i < |r.events| && |r.states| == |r.events| + 1
  {
    && Enabled(r.states[i], r.events[i].t, r.events[i].a)
    && r.states[i + 1] == Apply(r.states[i], r.events[i].t, r.events[i].a)
  }

  /** The invariant holds in every state of every run. */
  lemma {:induction false} RunInv(r: Run, i: nat)
    requires Runs(r) && i < |r.states|
    ensures Inv(r.states[i])
  {
    if i == 0 {
      var n: nat, hash: Key -> nat, buckets: nat :| buckets > 0 && r.states[0] == Init(n, hash, buckets);
      RS.InitInv(n, hash, buckets);
    } else {
      RunInv(r, i - 1);
      assert Steps(r, i - 1);
      RS.StepInv(r.states[i - 1], r.events[i - 1].t, r.events[i - 1].a);
    }
  }

  // ---------------------------------------------------------------- no use after free

  /** The memory at `p` has been released, by its own delete or by the destructor of its table. */
  ghost predicate Released(s: State, p: Ptr) {
    || p in s.ebr.freed
    || (p in s.mem.nodes && p !in s.ebr.unlinked && s.mem.nodes[p].home in s.ebr.freed)
  }

  /** A pointer the next step of an operation reads through. */
  ghost predicate Follows(s: State, op: Op, p: Ptr) {
    match op
    case GetTable(_, _, tab) => p == tab
    case GetWalk(_, _, cur) => p == cur
    case PutCheck(_, _) => p == s.table
    case Copying(_, _, into, _, cur) => p == cur || p == into || p == s.table
    case PutHead(_, _) => p == s.table
    case PutWalk(_, _, prev, cur) => p == cur || p == s.table || (cur != 0 && p == prev)
    case RemHead(_) => p == s.table
    case RemWalk(_, prev, cur) => p == cur || p == s.table || (cur != 0 && p == prev)
    case _ => false
  }

  lemma FreedWasUnlinked(e: E.State, o: E.Obj)
    requires E.Inv(e) && o in e.freed
    ensures o in e.unlinked
    ensures forall t :: E.Crit(e, t) ==> e.unlinked[o].time < e.threads[t].pinTime
  {
    assert o in e.tags;
  }

  lemma ReaderSafe(s: State, t: nat, p: Ptr)
    requires Inv(s) && t < |s.ops| && s.ops[t].Reads() && Follows(s, s.ops[t], p) && p != 0
    ensures !Released(s, p)
  {
    assert ReaderOk(s, t) && E.Crit(s.ebr, t);
    if p in s.ebr.freed { FreedWasUnlinked(s.ebr, p); }
    if p in s.mem.nodes && s.mem.nodes[p].home in s.ebr.freed { FreedWasUnlinked(s.ebr, s.mem.nodes[p].home); }
    if s.ops[t].GetTable? {
      assert TableOk(s.mem, Gone(s), p);
      forall c | c in s.mem.nodes ensures c !in s.mem.tables { assert NodeOk(s.mem, Gone(s), c); }
    }
  }

  lemma WriterSafe(s: State, t: nat, p: Ptr)
    requires Inv(s) && t < |s.ops| && s.ops[t].Locked() && Follows(s, s.ops[t], p) && p != 0
    ensures !Released(s, p)
  {
    assert WriterOk(s, s.ops[t]) && TableOk(s.mem, Gone(s), s.table);
    forall o | o in s.ebr.freed ensures o in Gone(s) { FreedWasUnlinked(s.ebr, o); }
    forall c | c in s.mem.nodes ensures c !in s.mem.tables { assert NodeOk(s.mem, Gone(s), c); }
    WriterFollowsLinked(s, s.ops[t], p);
  }

  /** Whatever a writer reads through is still linked. */
  lemma WriterFollowsLinked(s: State, op: Op, p: Ptr)
    requires Core(s) && WriterOk(s, op) && Follows(s, op, p) && !op.Reads() && p != 0
    requires forall c :: c in s.mem.nodes ==> c !in s.mem.tables
    ensures p !in Gone(s) && (p in s.mem.nodes ==> s.mem.nodes[p].home !in Gone(s))
  {
  }

  /**
   In every run, whatever an operation is about to read through has not been released: neither a reader's
   table or node, although it may be retired, nor a writer's.
   */
  lemma NoUseAfterFree(r: Run, i: nat, t: nat, p: Ptr)
    requires Runs(r) && i < |r.states| && t < |r.states[i].ops|
    requires Follows(r.states[i], r.states[i].ops[t], p) && p != 0
    ensures !Released(r.states[i], p)
  {
    var s := r.states[i];
    RunInv(r, i);
    if s.ops[t].Reads() { ReaderSafe(s, t, p); } else { WriterSafe(s, t, p); }
  }

  // ---------------------------------------------------------------- each allocation is deleted once

  /** The object the step passes to `delete`, if any. */
  function Deleted(s: State, t: nat, a: Act): Option<Ptr> {
    if a.Ebr? then ET.Deleted(s.ebr, t, a.a) else None
  }

  /** What deleting `o` releases: a table's destructor also deletes every node on its chains. */
  ghost predicate Releases(s: State, o: Ptr, c: Ptr) {
    || c == o
    || (o in s.mem.tables && c in s.mem.nodes && exists i :: 0 <= i < |s.mem.tables[o]| && ChainedAt(s, o, i, c))
  }

  ghost predicate ChainedAt(s: State, o: Ptr, i: int, c: Ptr)
    requires o in s.mem.tables && 0 <= i < |s.mem.tables[o]|
  {
    && Ranked(s.mem.nodes) && IsPtr(s.mem.nodes, s.mem.tables[o][i])
    && OnChain(s.mem.nodes, s.mem.tables[o][i], c)
  }

  /** The chains of a table hold exactly the nodes made for it that were not unlinked one by one. */
  lemma ChainsOwn(s: State, o: Ptr, c: Ptr)
    requires Inv(s) && o in s.mem.tables && c in s.mem.nodes
    ensures (exists i :: 0 <= i < |s.mem.tables[o]| && ChainedAt(s, o, i, c))
       <==> (s.mem.nodes[c].home == o && c !in s.ebr.unlinked)
  {
    var m, g := s.mem, Gone(s);
    assert TableOk(m, g, o) && Attached(m, g, c);
    if s.mem.nodes[c].home == o && c !in g {
      assert BucketOk(m, g, o, Bucket(m, o, m.nodes[c].key));
      assert ChainedAt(s, o, Bucket(m, o, m.nodes[c].key), c);
    }
    forall i | 0 <= i < |m.tables[o]| && ChainedAt(s, o, i, c) ensures m.nodes[c].home == o && c !in g {
      assert BucketOk(m, g, o, i);
      ChainLive(m, g, m.tables[o][i], c);
    }
  }

  lemma DeletedIsHeld(s: State, t: nat, a: Act, o: Ptr)
    requires E.Inv(s.ebr) && Deleted(s, t, a) == Some(o)
    ensures o in s.ebr.unlinked && o !in s.ebr.freed
  {
    ET.DeletedIsHeld(s.ebr, t, a.a, o);
  }

  lemma FreedByDelete(s: State, t: nat, a: Act)
    requires Enabled(s, t, a)
    ensures Apply(s, t, a).ebr.freed == s.ebr.freed
            + (if Deleted(s, t, a) == None then {} else {Deleted(s, t, a).value})
  {
    match a
    case Ebr(e) => ET.FreedByDelete(s.ebr, t, e);
    case CallGet(k) => ES.FreedGrows(s.ebr, t, E.Enter);
    case Go =>
      if s.ops[t].GetLeave? { ES.FreedGrows(s.ebr, t, E.Exit); }
      if Victim(s, t) != 0 { ES.FreedGrows(s.ebr, t, E.Unlink(Victim(s, t))); }
    case _ =>
  }

  /** What `o`'s delete releases, said through the history fields. */
  lemma ReleasesOwned(s: State, o: Ptr, c: Ptr)
    requires Inv(s) && Releases(s, o, c)
    ensures c == o || (c in s.mem.nodes && s.mem.nodes[c].home == o && c !in s.ebr.unlinked)
  {
    if c != o { ChainsOwn(s, o, c); }
  }

  lemma NotYetReleased(s: State, o: Ptr, c: Ptr)
    requires o in s.ebr.unlinked && o !in s.ebr.freed && forall x :: x in s.ebr.freed ==> x in s.ebr.unlinked
    requires c == o || (c in s.mem.nodes && s.mem.nodes[c].home == o && c !in s.ebr.unlinked)
    ensures !Released(s, c)
  {
  }

  /** When a collection deletes `o`, nothing that delete releases had been released before. */
  lemma DeleteIsFirst(s: State, t: nat, a: Act, o: Ptr, c: Ptr)
    requires Inv(s) && Enabled(s, t, a) && Deleted(s, t, a) == Some(o) && Releases(s, o, c)
    ensures !Released(s, c)
  {
    DeletedIsHeld(s, t, a, o);
    ReleasesOwned(s, o, c);
    forall x | x in s.ebr.freed ensures x in s.ebr.unlinked { FreedWasUnlinked(s.ebr, x); }
    NotYetReleased(s, o, c);
  }

  /** A step of the reclamation machine releases exactly what its delete releases. */
  lemma ReleasedByDelete(s: State, t: nat, e: E.Act, c: Ptr)
    requires Inv(s) && Enabled(s, t, Ebr(e))
    ensures Released(Apply(s, t, Ebr(e)), c)
       <==> (Released(s, c) || (Deleted(s, t, Ebr(e)).Some? && Releases(s, Deleted(s, t, Ebr(e)).value, c)))
  {
    FreedByDelete(s, t, Ebr(e));
    RS.EbrFrame(s.ebr, t, e);
    if c in s.mem.nodes { assert NodeOk(s.mem, Gone(s), c); }
    if Deleted(s, t, Ebr(e)).Some? && c in s.mem.nodes && s.mem.nodes[c].home in s.mem.tables {
      var o := Deleted(s, t, Ebr(e)).value;
      if o in s.mem.tables { ChainsOwn(s, o, c); }
    }
  }

  /** Node records stay in memory and keep their table. */
  lemma HomeStays(s: State, t: nat, a: Act, c: Ptr)
    requires s.mem.top !in s.mem.nodes && Enabled(s, t, a) && c in s.mem.nodes
    ensures c in Apply(s, t, a).mem.nodes && Apply(s, t, a).mem.nodes[c].home == s.mem.nodes[c].home
  {
  }

  /** A node that is unlinked on its own belongs to the current table. */
  lemma VictimHome(s: State, t: nat)
    requires Core(s) && Writers(s) && Enabled(s, t, Go) && Victim(s, t) != 0
    ensures Victim(s, t) == s.table || (Victim(s, t) in s.mem.nodes && s.mem.nodes[Victim(s, t)].home == s.table)
  {
    assert WriterOk(s, s.ops[t]);
  }

  lemma UnlinkedByStep(s: State, t: nat, a: Act)
    requires Enabled(s, t, a) && !a.Ebr?
    ensures Apply(s, t, a).ebr.unlinked.Keys == s.ebr.unlinked.Keys
            + (if a == Go && Victim(s, t) != 0 then {Victim(s, t)} else {})
  {
    match a
    case CallGet(k) => RS.EbrFrame(s.ebr, t, E.Enter);
    case Go => if s.ops[t].GetLeave? { RS.EbrFrame(s.ebr, t, E.Exit); }
    case _ =>
  }

  /** A map operation's step deletes nothing and un-releases nothing. */
  lemma MapStep(s: State, t: nat, a: Act, c: Ptr)
    requires Inv(s) && Enabled(s, t, a) && !a.Ebr?
    ensures Deleted(s, t, a) == None
    ensures Released(s, c) ==> Released(Apply(s, t, a), c)
  {
    FreedByDelete(s, t, a);
    if Released(s, c) && c !in s.ebr.freed {
      assert NodeOk(s.mem, Gone(s), c);
      FreedWasUnlinked(s.ebr, s.mem.nodes[c].home);
      TopIsNew(s.mem, Gone(s));
      HomeStays(s, t, a, c);
      UnlinkedByStep(s, t, a);
      if a == Go && Victim(s, t) != 0 { VictimHome(s, t); }
    }
  }

  lemma ReleasedStays(s: State, t: nat, a: Act, c: Ptr)
    requires Inv(s) && Enabled(s, t, a) && Released(s, c)
    ensures Released(Apply(s, t, a), c)
  {
    if a.Ebr? { ReleasedByDelete(s, t, a.a, c); } else { MapStep(s, t, a, c); }
  }

  lemma {:induction false} ReleasedForEver(r: Run, i: nat, j: nat, c: Ptr)
    requires Runs(r) && i <= j < |r.states| && Released(r.states[i], c)
    ensures Released(r.states[j], c)
  {
    if i < j {
      ReleasedForEver(r, i, j - 1, c);
      ReleasedStaysAt(r, j - 1, c);
    }
  }

  lemma ReleasedStaysAt(r: Run, i: nat, c: Ptr)
    requires Runs(r) && i < |r.events| && Released(r.states[i], c)
    ensures Released(r.states[i + 1], c)
  {
    RunInv(r, i);
    assert Steps(r, i);
    ReleasedStays(r.states[i], r.events[i].t, r.events[i].a, c);
  }

  /** Event `i` of the run deletes an object, and that delete releases `c`. */
  ghost predicate ReleasesAt(r: Run, i: nat, c: Ptr)
    requires i < |r.events| && |r.states| == |r.events| + 1
  {
    var d := Deleted(r.states[i], r.events[i].t, r.events[i].a);
    d.Some? && Releases(r.states[i], d.value, c)
  }

  lemma ReleasesNow(s: State, t: nat, a: Act, c: Ptr)
    requires Inv(s) && Enabled(s, t, a) && Deleted(s, t, a).Some? && Releases(s, Deleted(s, t, a).value, c)
    ensures !Released(s, c) && Released(Apply(s, t, a), c)
  {
    if a.Ebr? { ReleasedByDelete(s, t, a.a, c); } else { MapStep(s, t, a, c); }
    DeleteIsFirst(s, t, a, Deleted(s, t, a).value, c);
  }

  lemma ReleasesAtStep(r: Run, i: nat, c: Ptr)
    requires Runs(r) && i < |r.events| && ReleasesAt(r, i, c)
    ensures !Released(r.states[i], c) && Released(r.states[i + 1], c)
  {
    RunInv(r, i);
    assert Steps(r, i);
    ReleasesNow(r.states[i], r.events[i].t, r.events[i].a, c);
  }

  /**
   In every run each allocation is deleted at most once, although nodes are deleted both one by one and by
   the destructor of the table they are on.
   */
  lemma DeletedAtMostOnce(r: Run, i: nat, j: nat, c: Ptr)
    requires Runs(r) && i < j < |r.events| && ReleasesAt(r, i, c)
    ensures !ReleasesAt(r, j, c)
  {
    ReleasesAtStep(r, i, c);
    ReleasedForEver(r, i + 1, j, c);
    if ReleasesAt(r, j, c) { ReleasesAtStep(r, j, c); }
  }

  // ---------------------------------------------------------------- who owns a node

  /** `o` is waiting in a thread that has just unlinked it, or in a retirement batch. */
  ghost predicate Awaiting(s: State, o: Ptr) {
    || (exists u :: 0 <= u < |s.ebr.threads| && s.ebr.threads[u].pending == Some(o))
    || (exists j, b, p :: 0 <= j < |s.ebr.tcbs| && E.At(s.ebr.tcbs[j].batches, b, p, o))
  }

  ghost predicate OnTable(s: State, t: Ptr, c: Ptr) {
    t in s.mem.tables && exists i :: 0 <= i < |s.mem.tables[t]| && ChainedAt(s, t, i, c)
  }

  /** The table readers see, or the one a Resize is filling. */
  ghost predicate InUse(s: State, t: Ptr) {
    || t == s.table
    || (s.lock.Some? && s.lock.value < |s.ops| && s.ops[s.lock.value].Copying? && s.ops[s.lock.value].into == t)
  }

  lemma AwaitingIs(s: State, o: Ptr)
    requires E.Pending(s.ebr) && E.Batched(s.ebr) && E.Tags(s.ebr)
    ensures Awaiting(s, o) <==> (o in s.ebr.unlinked && o !in s.ebr.freed)
  {
    var e := s.ebr;
    if u :| 0 <= u < |e.threads| && e.threads[u].pending == Some(o) {
      assert E.PendingOk(e, u);
    }
    if j, b, p :| 0 <= j < |e.tcbs| && E.At(e.tcbs[j].batches, b, p, o) {
      assert E.Holds(e.tcbs[j].batches, j, e.tags, e.freed);
    }
    if o in e.unlinked && o !in e.freed && o in e.tags {
      assert E.Holds(e.tcbs[e.tags[o].tcb].batches, e.tags[o].tcb, e.tags, e.freed);
      var b, p :| E.At(e.tcbs[e.tags[o].tcb].batches, b, p, o);
    }
  }

  /**
   In every reachable state a node is in exactly one place: on a chain of a table in use, waiting on its own
   to be deleted, on a chain of a table that is waiting to be deleted, or released.
   */
  lemma OwnershipPartition(s: State, c: Ptr)
    requires Inv(s) && c in s.mem.nodes
    ensures
      var inUse := exists t :: InUse(s, t) && OnTable(s, t, c);
      var inRetired := exists t :: Awaiting(s, t) && OnTable(s, t, c);
      && (inUse || Awaiting(s, c) || inRetired || Released(s, c))
      && !(inUse && Awaiting(s, c)) && !(inUse && inRetired) && !(inUse && Released(s, c))
      && !(Awaiting(s, c) && inRetired) && !(Awaiting(s, c) && Released(s, c)) && !(inRetired && Released(s, c))
  {
    var h := s.mem.nodes[c].home;
    assert NodeOk(s.mem, Gone(s), c);
    forall t ensures OnTable(s, t, c) <==> (t == h && c !in s.ebr.unlinked) {
      if t in s.mem.tables { ChainsOwn(s, t, c); }
    }
    InUseIs(s, h);
    AwaitingIs(s, c);
    AwaitingIs(s, h);
    forall o | o in s.ebr.freed ensures o in s.ebr.unlinked { FreedWasUnlinked(s.ebr, o); }
    PlacesOf(s, c, h);
  }

  lemma InUseIs(s: State, t: Ptr)
    requires Core(s) && Locks(s) && Writers(s) && t in s.mem.tables
    ensures InUse(s, t) <==> t !in s.ebr.unlinked
  {
    if s.lock.Some? { assert WriterOk(s, s.ops[s.lock.value]); }
  }

  lemma PlacesOf(s: State, c: Ptr, h: Ptr)
    requires c in s.mem.nodes && s.mem.nodes[c].home == h
    requires forall t :: OnTable(s, t, c) <==> (t == h && c !in s.ebr.unlinked)
    requires InUse(s, h) <==> h !in s.ebr.unlinked
    requires Awaiting(s, c) <==> (c in s.ebr.unlinked && c !in s.ebr.freed)
    requires Awaiting(s, h) <==> (h in s.ebr.unlinked && h !in s.ebr.freed)
    requires forall o :: o in s.ebr.freed ==> o in s.ebr.unlinked
    ensures
      var inUse := exists t :: InUse(s, t) && OnTable(s, t, c);
      var inRetired := exists t :: Awaiting(s, t) && OnTable(s, t, c);
      && (inUse || Awaiting(s, c) || inRetired || Released(s, c))
      && !(inUse && Awaiting(s, c)) && !(inUse && inRetired) && !(inUse && Released(s, c))
      && !(Awaiting(s, c) && inRetired) && !(Awaiting(s, c) && Released(s, c)) && !(inRetired && Released(s, c))
  {
    if c !in s.ebr.unlinked { assert OnTable(s, h, c); }
  }

  // ---------------------------------------------------------------- linearizable reads

  /** The contents of the map in state `i` of the run. */
  ghost function Now(r: Run, i: nat): Contents
    requires i < |r.states|
  {
    if |r.states[i].log| > 0 then Last(r.states[i].log) else map[]
  }

  /** A step adds at most one entry to the log and rewrites none. */
  lemma LogStep(s: State, t: nat, a: Act)
    requires Enabled(s, t, a)
    ensures |s.log| <= |Apply(s, t, a).log| <= |s.log| + 1
    ensures Apply(s, t, a).log[..|s.log|] == s.log
  {
  }

  /** Every log entry written between states `i` and `j` was the map's contents in a state between them. */
  lemma {:induction false} LogMoment(r: Run, i: nat, j: nat, p: nat)
    requires Runs(r) && i <= j < |r.states| && |r.states[i].log| > 0
    requires |r.states[i].log| - 1 <= p < |r.states[j].log|
    ensures exists m :: i <= m <= j && Now(r, m) == r.states[j].log[p]
  {
    var s := r.states[j];
    if p == |s.log| - 1 {
      assert Now(r, j) == s.log[p];
    } else {
      assert Steps(r, j - 1);
      var q := r.states[j - 1];
      LogStep(q, r.events[j - 1].t, r.events[j - 1].a);
      assert s.log[..|q.log|][p] == q.log[p];
      LogMoment(r, i, j - 1, p);
    }
  }

  /** Thread `t` is in the `Get(k)` it called when the log had `start` + 1 entries. */
  ghost predicate InGet(op: Op, k: Key, start: nat) {
    match op
    case GetEntered(j, p) => j == k && p == start
    case GetTable(j, p, _) => j == k && p == start
    case GetWalk(j, p, _) => j == k && p == start
    case GetLeave(j, p, _) => j == k && p == start
    case GetDone(j, p, _) => j == k && p == start
    case _ => false
  }

  lemma GetKeeps(s: State, u: nat, a: Act, t: nat, k: Key, start: nat)
    requires Enabled(s, u, a) && t < |s.ops| && InGet(s.ops[t], k, start)
    requires t == u && a == Go ==> !s.ops[t].GetDone?
    ensures |Apply(s, u, a).ops| == |s.ops| && InGet(Apply(s, u, a).ops[t], k, start)
  {
    if u != t { OthersOps(s, u, a, t); }
  }

  lemma OthersOps(s: State, u: nat, a: Act, t: nat)
    requires Enabled(s, u, a) && t < |s.ops| && u != t
    ensures |Apply(s, u, a).ops| == |s.ops| && Apply(s, u, a).ops[t] == s.ops[t]
  {
    if a == Go && (s.ops[u].Locked() || s.ops[u].PutLock? || s.ops[u].RemLock?) { OthersWrite(s, u, t); }
  }

  lemma OthersWrite(s: State, u: nat, t: nat)
    requires Enabled(s, u, Go) && t < |s.ops| && u != t
    ensures |WriteStep(s, u).ops| == |s.ops| && WriteStep(s, u).ops[t] == s.ops[t]
  {
  }

  /** Events `i`+1 .. `j` of the run do not return thread `t`'s call. */
  ghost predicate NoReturn(r: Run, i: nat, j: nat, t: nat) {
    forall m :: i < m < j && m < |r.events| && m < |r.states| && r.events[m] == Event(t, Go) ==>
      t < |r.states[m].ops| ==> !r.states[m].ops[t].GetDone?
  }

  lemma GetStarts(s: State, t: nat, k: Key)
    requires Enabled(s, t, CallGet(k))
    ensures |s.log| > 0 && t < |Apply(s, t, CallGet(k)).ops| && InGet(Apply(s, t, CallGet(k)).ops[t], k, |s.log| - 1)
  {
  }

  lemma {:induction false} GetContinues(r: Run, i: nat, j: nat, t: nat, k: Key)
    requires Runs(r) && i < j < |r.states| && r.events[i] == Event(t, CallGet(k)) && NoReturn(r, i, j, t)
    ensures |r.states[i].log| > 0 && t < |r.states[j].ops| && InGet(r.states[j].ops[t], k, |r.states[i].log| - 1)
  {
    if j == i + 1 {
      assert Steps(r, i);
      GetStarts(r.states[i], t, k);
    } else {
      GetContinues(r, i, j - 1, t, k);
      GetKeepsAt(r, i, j - 1, t, k, |r.states[i].log| - 1);
    }
  }

  lemma GetKeepsAt(r: Run, i: nat, j: nat, t: nat, k: Key, start: nat)
    requires Runs(r) && i < j < |r.events| && NoReturn(r, i, j + 1, t)
    requires t < |r.states[j].ops| && InGet(r.states[j].ops[t], k, start)
    ensures t < |r.states[j + 1].ops| && InGet(r.states[j + 1].ops[t], k, start)
  {
    assert Steps(r, j);
    GetKeeps(r.states[j], r.events[j].t, r.events[j].a, t, k, start);
  }

  /**
   Get is linearizable: in every run, when the call made by event `i` has its result in state `j`, there is a
   moment from the call to that state at which the map's entry for the key was that result.
   */
  lemma GetLinearizable(r: Run, i: nat, j: nat, t: nat, k: Key)
    requires Runs(r) && i < j < |r.states| && r.events[i] == Event(t, CallGet(k)) && NoReturn(r, i, j, t)
    ensures t < |r.states[j].ops| && (r.states[j].ops[t].GetLeave? || r.states[j].ops[t].GetDone? ==>
      exists m :: i <= m <= j && Entry(Now(r, m), k) == r.states[j].ops[t].res)
  {
    GetContinues(r, i, j, t, k);
    RunInv(r, j);
    var s := r.states[j];
    assert ReaderOk(s, t);
    if s.ops[t].GetLeave? || s.ops[t].GetDone? {
      var start := |r.states[i].log| - 1;
      var p :| start <= p < |s.log| && Entry(s.log[p], k) == s.ops[t].res;
      LogMoment(r, i, j, p);
    }
  }

  // ---------------------------------------------------------------- updates

  datatype Call = Puts(k: Key, v: Value) | Removes(k: Key)

  function CallOf(c: Call): Act {
    match c
    case Puts(k, v) => CallPut(k, v)
    case Removes(k) => CallRemove(k)
  }

  /** What the call does to a map. */
  function Updated(m: Contents, c: Call): Contents {
    match c
    case Puts(k, v) => m[k := v]
    case Removes(k) => m - {k}
  }

  /** The call is under way and has changed nothing yet. */
  ghost predicate Before(op: Op, c: Call) {
    match op
    case PutLock(k, v) => c == Puts(k, v)
    case PutCheck(k, v) => c == Puts(k, v)
    case Copying(k, v, _, _, _) => c == Puts(k, v)
    case PutRetireTable(k, v) => c == Puts(k, v)
    case PutHead(k, v) => c == Puts(k, v)
    case PutWalk(k, v, _, _) => c == Puts(k, v)
    case RemLock(k) => c == Removes(k)
    case RemHead(k) => c == Removes(k)
    case RemWalk(k, _, _) => c == Removes(k)
    case _ => false
  }

  /** The call has had its effect and is on its way out; a Remove found its key exactly if `found`. */
  ghost predicate After(op: Op, c: Call, found: bool) {
    match op
    case PutCount => c.Puts?
    case RemCount => c.Removes? && found
    case Retiring => c.Removes? ==> found
    case Unlocking(removed) => c.Removes? ==> removed == found
    case _ => false
  }

  /** From `s` to `s'` the call takes effect: the map is updated, and logged unless there was nothing to remove. */
  ghost predicate TakesEffect(s: State, s': State, c: Call) {
    && s.log != [] && s'.log != [] && Last(s'.log) == Updated(Last(s.log), c)
    && (s'.log == s.log <==> c.Removes? && c.k !in Last(s.log))
  }

  lemma BeforeStep(s: State, t: nat, a: Act, c: Call)
    requires Inv(s) && Enabled(s, t, a) && Before(s.ops[t], c)
    ensures var s' := Apply(s, t, a);
            || (Before(s'.ops[t], c) && s'.log == s.log)
            || (a == Go && TakesEffect(s, s', c) && After(s'.ops[t], c, c.k in Last(s.log)))
  {
    assert WriterOk(s, s.ops[t]);
    if a == Go && (s.ops[t].PutWalk? || s.ops[t].RemWalk?) {
      WalkTakesEffect(s, t, c);
    } else {
      StaysBefore(s, t, a, c);
    }
  }

  lemma StaysBefore(s: State, t: nat, a: Act, c: Call)
    requires Enabled(s, t, a) && Before(s.ops[t], c) && (a == Go ==> !s.ops[t].PutWalk? && !s.ops[t].RemWalk?)
    ensures Before(Apply(s, t, a).ops[t], c) && Apply(s, t, a).log == s.log
  {
  }

  lemma WalkTakesEffect(s: State, t: nat, c: Call)
    requires Core(s) && Enabled(s, t, Go) && (s.ops[t].PutWalk? || s.ops[t].RemWalk?) && WriterOk(s, s.ops[t])
    requires Before(s.ops[t], c)
    ensures var s' := Apply(s, t, Go);
            || (Before(s'.ops[t], c) && s'.log == s.log)
            || (TakesEffect(s, s', c) && After(s'.ops[t], c, c.k in Last(s.log)))
  {
    if s.ops[t].RemWalk? { RemoveFinds(s, s.ops[t]); }
    WalkEnds(s, t, c);
  }

  /** A Remove's walk ends at a node exactly if the key is in the map. */
  lemma RemoveFinds(s: State, op: Op)
    requires Core(s) && op.RemWalk? && WriterOk(s, op)
    ensures IsPtr(s.mem.nodes, op.cur)
    ensures op.cur == 0 ==> op.k !in Last(s.log)
    ensures op.cur != 0 && s.mem.nodes[op.cur].key == op.k ==> op.k in Last(s.log)
  {
    assert Get(s.mem, Gone(s), s.table, op.k) == Entry(Last(s.log), op.k);
  }

  lemma WalkEnds(s: State, t: nat, c: Call)
    requires Enabled(s, t, Go) && (s.ops[t].PutWalk? || s.ops[t].RemWalk?) && Before(s.ops[t], c)
    requires s.ops[t].RemWalk? && s.ops[t].cur == 0 ==> c.k !in Last(s.log)
    requires s.ops[t].RemWalk? && s.ops[t].cur != 0 && s.mem.nodes[s.ops[t].cur].key == c.k ==> c.k in Last(s.log)
    ensures var s' := Apply(s, t, Go);
            || (Before(s'.ops[t], c) && s'.log == s.log)
            || (TakesEffect(s, s', c) && After(s'.ops[t], c, c.k in Last(s.log)))
  {
    if s.ops[t].PutWalk? { PutEnds(s, t, c); } else { RemoveEnds(s, t, c); }
  }

  lemma PutEnds(s: State, t: nat, c: Call)
    requires Enabled(s, t, Go) && s.ops[t].PutWalk? && Before(s.ops[t], c)
    ensures var s' := WalkStep(s, t);
            || (Before(s'.ops[t], c) && s'.log == s.log)
            || (TakesEffect(s, s', c) && After(s'.ops[t], c, c.k in Last(s.log)))
  {
  }

  lemma RemoveEnds(s: State, t: nat, c: Call)
    requires Enabled(s, t, Go) && s.ops[t].RemWalk? && Before(s.ops[t], c)
    requires s.ops[t].cur == 0 ==> c.k !in Last(s.log)
    requires s.ops[t].cur != 0 && s.mem.nodes[s.ops[t].cur].key == c.k ==> c.k in Last(s.log)
    ensures var s' := WalkStep(s, t);
            || (Before(s'.ops[t], c) && s'.log == s.log)
            || (TakesEffect(s, s', c) && After(s'.ops[t], c, c.k in Last(s.log)))
  {
    if s.ops[t].cur == 0 { assert Last(s.log) - {c.k} == Last(s.log); }
  }

  lemma AfterStep(s: State, t: nat, a: Act, c: Call, found: bool)
    requires Enabled(s, t, a) && After(s.ops[t], c, found) && !(a == Go && s.ops[t].Unlocking?)
    ensures After(Apply(s, t, a).ops[t], c, found) && Apply(s, t, a).log == s.log
  {
  }

  /** Thread `t`'s call does not return in the events from `i`+1 up to `j`. */
  ghost predicate Unreturned(r: Run, i: nat, j: nat, t: nat) {
    forall m :: i < m < j && m < |r.events| && m < |r.states| && r.events[m] == Event(t, Go) ==>
      t < |r.states[m].ops| ==> !r.states[m].ops[t].Unlocking?
  }

  /** No event of thread `t` from `i` up to `j`, except event `m`, changes the map. */
  ghost predicate OnlyAt(r: Run, i: nat, j: nat, t: nat, m: nat) {
    forall n :: i <= n < j && n != m && n < |r.events| && n + 1 < |r.states| && r.events[n].t == t ==>
      r.states[n + 1].log == r.states[n].log
  }

  /** Event `m` is the moment of the call that event `i` made. */
  ghost predicate EffectAt(r: Run, i: nat, j: nat, t: nat, c: Call, m: nat) {
    && i < m < j && j < |r.states| && m < |r.events| && r.events[m] == Event(t, Go)
    && TakesEffect(r.states[m], r.states[m + 1], c) && OnlyAt(r, i, j, t, m)
    && t < |r.states[j].ops| && After(r.states[j].ops[t], c, c.k in Last(r.states[m].log))
  }

  ghost predicate Progress(r: Run, i: nat, j: nat, t: nat, c: Call)
    requires j < |r.states|
  {
    || (t < |r.states[j].ops| && Before(r.states[j].ops[t], c) && OnlyAt(r, i, j, t, j))
    || exists m: nat :: EffectAt(r, i, j, t, c, m)
  }

  lemma CallStarts(s: State, t: nat, c: Call)
    requires Enabled(s, t, CallOf(c))
    ensures var s' := Apply(s, t, CallOf(c)); Before(s'.ops[t], c) && s'.log == s.log
  {
  }

  lemma {:induction false} UpdateProgress(r: Run, i: nat, j: nat, t: nat, c: Call)
    requires Runs(r) && i < j < |r.states| && r.events[i] == Event(t, CallOf(c)) && Unreturned(r, i, j, t)
    ensures Progress(r, i, j, t, c)
  {
    if j == i + 1 {
      assert Steps(r, i);
      CallStarts(r.states[i], t, c);
    } else {
      UpdateProgress(r, i, j - 1, t, c);
      ProgressAt(r, i, j - 1, t, c);
    }
  }

  lemma ProgressAt(r: Run, i: nat, j: nat, t: nat, c: Call)
    requires Runs(r) && i < j < |r.events| && Progress(r, i, j, t, c) && Unreturned(r, i, j + 1, t)
    ensures Progress(r, i, j + 1, t, c)
  {
    StepAt(r, j);
    ProgressStep(r, i, j, t, c);
  }

  lemma StepAt(r: Run, i: nat)
    requires Runs(r) && i < |r.events|
    ensures Steps(r, i) && Inv(r.states[i])
  {
    RunInv(r, i);
  }

  lemma ProgressStep(r: Run, i: nat, j: nat, t: nat, c: Call)
    requires |r.states| == |r.events| + 1 && i < j < |r.events| && Steps(r, j) && Inv(r.states[j])
             && Progress(r, i, j, t, c)
    requires Unreturned(r, i, j + 1, t)
    ensures Progress(r, i, j + 1, t, c)
  {
    if m: nat :| EffectAt(r, i, j, t, c, m) {
      EffectStays(r, i, j, t, c, m);
    } else if r.events[j].t == t {
      BeforeStep(r.states[j], t, r.events[j].a, c);
      BeforeOrNow(r, i, j, t, c);
    } else {
      OthersOps(r.states[j], r.events[j].t, r.events[j].a, t);
    }
  }

  lemma EffectStays(r: Run, i: nat, j: nat, t: nat, c: Call, m: nat)
    requires |r.states| == |r.events| + 1 && i < j < |r.events| && Steps(r, j) && EffectAt(r, i, j, t, c, m)
    requires Unreturned(r, i, j + 1, t)
    ensures EffectAt(r, i, j + 1, t, c, m)
  {
    var s, u, a := r.states[j], r.events[j].t, r.events[j].a;
    if u == t { AfterStep(s, t, a, c, c.k in Last(r.states[m].log)); } else { OthersOps(s, u, a, t); }
  }

  lemma BeforeOrNow(r: Run, i: nat, j: nat, t: nat, c: Call)
    requires |r.states| == |r.events| + 1 && i < j < |r.events| && r.events[j].t == t && OnlyAt(r, i, j, t, j)
    requires var s, s', a := r.states[j], r.states[j + 1], r.events[j].a;
             && t < |s'.ops| && s.log != []
             && (|| (Before(s'.ops[t], c) && s'.log == s.log)
                 || (a == Go && TakesEffect(s, s', c) && After(s'.ops[t], c, c.k in Last(s.log))))
    ensures Progress(r, i, j + 1, t, c)
  {
    var s' := r.states[j + 1];
    if !(Before(s'.ops[t], c) && s'.log == r.states[j].log) { assert EffectAt(r, i, j + 1, t, c, j); }
  }

  /**
   Put and Remove are linearizable: in every run, when the call made by event `i` is about to return in event `j`,
   exactly one event of its own in between has updated the map, as the call says; and what Remove returns is
   whether its key was in the map at that moment.
   */
  lemma UpdateLinearizable(r: Run, i: nat, j: nat, t: nat, c: Call) returns (m: nat)
    requires Runs(r) && i < j < |r.events| && r.events[i] == Event(t, CallOf(c)) && Unreturned(r, i, j, t)
    requires t < |r.states[j].ops| && r.states[j].ops[t].Unlocking?
    ensures i < m < j && r.events[m] == Event(t, Go) && Now(r, m + 1) == Updated(Now(r, m), c)
    ensures OnlyAt(r, i, j, t, m)
    ensures c.Removes? ==> (r.states[j].ops[t].removed <==> c.k in Now(r, m))
  {
    UpdateProgress(r, i, j, t, c);
    m :| EffectAt(r, i, j, t, c, m);
  }

  // ---------------------------------------------------------------- wait-free reads

  /** A reader that is pinned can always take its next step, whatever the writers do. */
  lemma ReaderNeverBlocked(s: State, t: nat)
    requires Inv(s) && t < |s.ops| && s.ops[t].Reads()
    ensures Enabled(s, t, Go)
  {
    assert ReaderOk(s, t) && E.ThreadShape(s.ebr, t);
    if s.ops[t].GetTable? { assert TableOk(s.mem, Gone(s), s.ops[t].t); }
  }

  /** Neither can a writer that holds the lock ever be held up, and whatever it unlinks has not been unlinked before:
      the tests that guard its steps always succeed.  It waits only for its own calls of Retire. */
  lemma WriterNeverBlocked(s: State, t: nat)
    requires Inv(s) && t < |s.ops| && s.ops[t].Locked() && EbrIdle(s, t)
    requires s.ops[t].PutRetireTable? || s.ops[t].Retiring? ==> s.ebr.threads[t].pending == None
    ensures Enabled(s, t, Go)
    ensures Victim(s, t) != 0 ==> Victim(s, t) !in s.ebr.unlinked
  {
    assert WriterOk(s, s.ops[t]) && TableOk(s.mem, Gone(s), s.table);
    RS.NullIsNothing(s.mem, Gone(s));
    if !s.ops[t].Owes() { RS.NothingOwed(s, t); }
  }

  /** At the two places where the writer waits for Retire, the call it waits for is possible. */
  lemma RetirePossible(s: State, t: nat)
    requires Inv(s) && t < |s.ops| && EbrIdle(s, t) && (s.ops[t].PutRetireTable? || s.ops[t].Retiring?)
    requires s.ebr.threads[t].pending != None
    ensures Enabled(s, t, Ebr(E.Retire))
  {
  }

  /** No step of any thread puts more nodes behind any node, linked or not. */
  lemma NodesNotLengthened(s: State, u: nat, a: Act)
    requires Inv(s) && Enabled(s, u, a)
    ensures NoLonger(s.mem.nodes, Apply(s, u, a).mem.nodes)
  {
    if a == Go && (s.ops[u].PutWalk? || s.ops[u].RemWalk?) { SplicesNotLonger(s, u); }
    else if a == Go && s.ops[u].Copying? { CopiesNotLonger(s, u); }
    else { SameNodes(s, u, a); }
  }

  lemma SameNodes(s: State, u: nat, a: Act)
    requires Enabled(s, u, a) && (a == Go ==> !s.ops[u].PutWalk? && !s.ops[u].RemWalk? && !s.ops[u].Copying?)
    ensures Apply(s, u, a).mem.nodes == s.mem.nodes
  {
  }

  lemma CopiesNotLonger(s: State, u: nat)
    requires Core(s) && Enabled(s, u, Go) && s.ops[u].Copying?
    ensures NoLonger(s.mem.nodes, ResizeStep(s, u).mem.nodes)
  {
    var Copying(_, _, into, _, cur) := s.ops[u];
    if cur != 0 { InsertLength(s.mem, Gone(s), into, s.mem.nodes[cur].key, s.mem.nodes[cur].value); }
  }

  lemma SplicesNotLonger(s: State, u: nat)
    requires Core(s) && Writers(s) && Enabled(s, u, Go) && (s.ops[u].PutWalk? || s.ops[u].RemWalk?)
    ensures NoLonger(s.mem.nodes, WalkStep(s, u).mem.nodes)
  {
    var op, m := s.ops[u], s.mem;
    assert WriterOk(s, op);
    if op.cur != 0 && m.nodes[op.cur].key == op.k {
      RS.FoundLink(s, op);
      var i := Bucket(m, s.table, op.k);
      if op.PutWalk? { ReplaceLength(m, Gone(s), s.table, i, op.prev, op.cur, op.v); }
      else { UnlinkLength(m, Gone(s), s.table, i, op.prev, op.cur); }
    } else if op.PutWalk? && op.cur == 0 {
      InsertLength(m, Gone(s), s.table, op.k, op.v);
    }
  }

  ghost predicate Walks(s: State, t: nat) {
    t < |s.ops| && s.ops[t].GetWalk? && Ranked(s.mem.nodes) && IsPtr(s.mem.nodes, s.ops[t].cur)
  }

  /** The nodes that a walking reader has still to visit if nothing changes: those from its own on. */
  ghost function Togo(s: State, t: nat): nat
    requires Walks(s, t)
  {
    Length(s.mem.nodes, s.ops[t].cur)
  }

  /** No step of another thread gives a walking reader more nodes to visit. */
  lemma WalkNotLengthened(s: State, u: nat, a: Act, t: nat)
    requires Inv(s) && Enabled(s, u, a) && t < |s.ops| && s.ops[t].GetWalk? && u != t
    ensures var s' := Apply(s, u, a);
            && |s'.ops| == |s.ops| && s'.ops[t] == s.ops[t]
            && Walks(s, t) && Walks(s', t) && Togo(s', t) <= Togo(s, t)
  {
    assert ReaderOk(s, t);
    OthersOps(s, u, a, t);
    NodesNotLengthened(s, u, a);
  }

  /** Each step of a walk that goes on leaves exactly one node fewer; with no node left, or at a node for its key, it
      ends. */
  lemma WalkDescends(s: State, t: nat)
    requires Core(s) && Enabled(s, t, Go) && t < |s.ops| && s.ops[t].GetWalk?
    ensures var s' := Apply(s, t, Go);
            && s'.mem == s.mem && Walks(s, t)
            && (if Togo(s, t) == 0 || s.mem.nodes[s.ops[t].cur].key == s.ops[t].k then s'.ops[t].GetLeave?
                else Walks(s', t) && Togo(s', t) == Togo(s, t) - 1)
  {
  }

  /** The steps that thread `t` itself takes from state `i` to state `j`. */
  ghost function OwnSteps(r: Run, i: nat, j: nat, t: nat): nat
    requires i <= j <= |r.events|
  {
    if i == j then 0 else OwnSteps(r, i, j - 1, t) + if r.events[j - 1].t == t then 1 else 0
  }

  lemma {:induction false} OwnStepsAdd(r: Run, i: nat, h: nat, j: nat, t: nat)
    requires i <= h <= j <= |r.events|
    ensures OwnSteps(r, i, j, t) == OwnSteps(r, i, h, t) + OwnSteps(r, h, j, t)
    decreases j - h
  {
    if h < j { OwnStepsAdd(r, i, h, j - 1, t); }
  }

  ghost predicate HasResult(s: State, t: nat) { t < |s.ops| && s.ops[t].GetLeave? }

  /** A reader in its walk makes no calls of its own, so each of its steps takes the walk on. */
  lemma ReaderOnlyGoes(s: State, t: nat, a: Act)
    requires Inv(s) && Enabled(s, t, a) && s.ops[t].Reads()
    ensures a == Go
  {
    assert ReaderOk(s, t);
  }

  /** Whoever moves, a walk either ends with a result or goes on, nearer to its end if the step was its own. */
  lemma WalkStepDown(s: State, u: nat, a: Act, t: nat)
    requires Inv(s) && Enabled(s, u, a) && Walks(s, t)
    ensures var s' := Apply(s, u, a);
            || HasResult(s', t)
            || (Walks(s', t) && Togo(s', t) + (if u == t then 1 else 0) <= Togo(s, t))
  {
    if u != t {
      WalkNotLengthened(s, u, a, t);
    } else {
      ReaderOnlyGoes(s, t, a);
      WalkDescends(s, t);
    }
  }

  /** Between states `i` and `j` the walk has come to a result. */
  ghost predicate Ended(r: Run, i: nat, j: nat, t: nat) {
    exists m :: i < m <= j && m < |r.states| && HasResult(r.states[m], t)
  }

  ghost predicate Shrunk(r: Run, i: nat, j: nat, t: nat)
    requires i <= j <= |r.events| && |r.states| == |r.events| + 1 && Walks(r.states[i], t)
  {
    || Ended(r, i, j, t)
    || (Walks(r.states[j], t) && OwnSteps(r, i, j, t) + Togo(r.states[j], t) <= Togo(r.states[i], t))
  }

  lemma {:induction false} WalkShrinks(r: Run, i: nat, j: nat, t: nat)
    requires Runs(r) && i <= j < |r.states| && Walks(r.states[i], t)
    ensures Shrunk(r, i, j, t)
    decreases j - i
  {
    if i < j {
      WalkShrinks(r, i, j - 1, t);
      ShrinksAt(r, i, j - 1, t);
    }
  }

  lemma ShrinksAt(r: Run, i: nat, j: nat, t: nat)
    requires Runs(r) && i <= j < |r.events| && Walks(r.states[i], t) && Shrunk(r, i, j, t)
    ensures Shrunk(r, i, j + 1, t)
  {
    StepAt(r, j);
    ShrinksOn(r, i, j, t);
  }

  lemma ShrinksOn(r: Run, i: nat, j: nat, t: nat)
    requires i <= j < |r.events| && |r.states| == |r.events| + 1 && Walks(r.states[i], t) && Shrunk(r, i, j, t)
    requires Steps(r, j) && Inv(r.states[j])
    ensures Shrunk(r, i, j + 1, t)
  {
    if m :| i < m <= j && m < |r.states| && HasResult(r.states[m], t) {
      assert Ended(r, i, j + 1, t);
    } else {
      WalkStepDown(r.states[j], r.events[j].t, r.events[j].a, t);
      if HasResult(r.states[j + 1], t) { assert Ended(r, i, j + 1, t); }
    }
  }

  /**
   A walk is wait-free: in every run it has its result after at most one own step for each node that was on the chain
   from the head it loaded, and one more for the end of the chain, whatever the other threads do meanwhile; and until
   then its next step is always possible.
   */
  lemma GetWaitFree(r: Run, i: nat, j: nat, t: nat)
    requires Runs(r) && i <= j < |r.states| && t < |r.states[i].ops| && r.states[i].ops[t].GetWalk?
    ensures Walks(r.states[i], t)
    ensures OwnSteps(r, i, j, t) >= Length(r.states[i].mem.nodes, r.states[i].ops[t].cur) + 1 ==> Ended(r, i, j, t)
    ensures !Ended(r, i, j, t) ==> Enabled(r.states[j], t, Go)
  {
    RunInv(r, i);
    RunInv(r, j);
    assert ReaderOk(r.states[i], t);
    WalkShrinks(r, i, j, t);
    if !Ended(r, i, j, t) { ReaderNeverBlocked(r.states[j], t); }
  }

  // ---------------------------------------------------------------- a whole Get

  /** The call has not loaded its bucket's head yet. */
  ghost predicate Heading(s: State, t: nat) {
    && t < |s.ops| && t < |s.ebr.threads| && (s.ops[t].GetEntered? || s.ops[t].GetTable?)
    && var pc := s.ebr.threads[t].pc; pc.Entering? || pc.Pinning? || pc.Idle?
  }

  /** The steps to the head at most: count the depth, store the pin, load the table, load the head. */
  ghost function Ahead(s: State, t: nat): nat
    requires Heading(s, t)
  {
    var pc := s.ebr.threads[t].pc;
    if s.ops[t].GetTable? then 1 else 2 + if pc.Entering? then 2 else if pc.Pinning? then 1 else 0
  }

  lemma CallHeads(s: State, t: nat, k: Key)
    requires Enabled(s, t, CallGet(k)) && Locks(s)
    ensures Heading(Apply(s, t, CallGet(k)), t) && Ahead(Apply(s, t, CallGet(k)), t) <= 4
  {
  }

  lemma HeadStepDown(s: State, u: nat, a: Act, t: nat)
    requires Inv(s) && Enabled(s, u, a) && Heading(s, t)
    ensures var s' := Apply(s, u, a);
            || (Heading(s', t) && Ahead(s', t) + (if u == t then 1 else 0) <= Ahead(s, t))
            || Walks(s', t)
  {
    if u == t { OwnHeadStep(s, t, a); } else { OthersHead(s, u, a, t); }
  }

  lemma OthersHead(s: State, u: nat, a: Act, t: nat)
    requires Locks(s) && Enabled(s, u, a) && Heading(s, t) && u != t
    ensures Heading(Apply(s, u, a), t) && Ahead(Apply(s, u, a), t) == Ahead(s, t)
  {
    OthersOps(s, u, a, t);
    match a
    case Ebr(e) => RS.EbrFrame(s.ebr, u, e);
    case CallGet(_) => RS.EbrFrame(s.ebr, u, E.Enter);
    case Go =>
      if s.ops[u].GetLeave? { RS.EbrFrame(s.ebr, u, E.Exit); }
      if Victim(s, u) != 0 { RS.EbrFrame(s.ebr, u, E.Unlink(Victim(s, u))); }
    case _ =>
  }

  lemma OwnHeadStep(s: State, t: nat, a: Act)
    requires Inv(s) && Enabled(s, t, a) && Heading(s, t)
    ensures var s' := Apply(s, t, a);
            (Heading(s', t) && Ahead(s', t) + 1 <= Ahead(s, t)) || Walks(s', t)
  {
    assert ReaderOk(s, t);
    if a.Ebr? { PinStep(s, t, a.a); }
    else if s.ops[t].GetTable? { HeadLoads(s, t); }
  }

  lemma PinStep(s: State, t: nat, e: E.Act)
    requires Locks(s) && Enabled(s, t, Ebr(e)) && Heading(s, t) && ReaderOnEntry(s, t)
    ensures Heading(Apply(s, t, Ebr(e)), t) && Ahead(Apply(s, t, Ebr(e)), t) + 1 <= Ahead(s, t)
  {
  }

  /** A reader with its table loaded is past its pin. */
  ghost predicate ReaderOnEntry(s: State, t: nat)
    requires Heading(s, t)
  {
    s.ops[t].GetTable? ==> s.ebr.threads[t].pc.Idle?
  }

  lemma HeadLoads(s: State, t: nat)
    requires Core(s) && Enabled(s, t, Go) && t < |s.ebr.threads| && s.ops[t].GetTable? && ReaderOk(s, t)
    ensures Walks(ReadStep(s, t), t)
  {
    var tab := s.ops[t].t;
    RS.NullIsNothing(s.mem, Gone(s));
    assert TableOk(s.mem, Gone(s), tab) && BucketOk(s.mem, Gone(s), tab, Bucket(s.mem, tab, s.ops[t].k));
  }

  ghost predicate Finishing(s: State, t: nat) { Walks(s, t) || HasResult(s, t) }

  /** The steps left of a call that has loaded its head: the walk, and leaving the critical section. */
  ghost function Left(s: State, t: nat): nat
    requires Finishing(s, t)
  {
    if Walks(s, t) then Togo(s, t) + 2 else 1
  }

  ghost predicate Returned(s: State, t: nat) { t < |s.ops| && s.ops[t].GetDone? }

  lemma FinishStepDown(s: State, u: nat, a: Act, t: nat)
    requires Inv(s) && Enabled(s, u, a) && Finishing(s, t)
    ensures var s' := Apply(s, u, a);
            || Returned(s', t)
            || (Finishing(s', t) && Left(s', t) + (if u == t then 1 else 0) <= Left(s, t))
  {
    if Walks(s, t) { WalkStepDown(s, u, a, t); }
    else if u != t { OthersOps(s, u, a, t); }
    else { ReaderOnlyGoes(s, t, a); }
  }

  ghost predicate DoneBy(r: Run, i: nat, j: nat, t: nat) {
    exists m :: i < m <= j && m < |r.states| && Returned(r.states[m], t)
  }

  /** The call of event `i` has its head in state `h`, and has kept to its steps up to state `j`. */
  ghost predicate LoadedAt(r: Run, i: nat, h: nat, j: nat, t: nat) {
    && i < h <= j <= |r.events| && |r.states| == |r.events| + 1
    && Walks(r.states[h], t) && OwnSteps(r, i + 1, h, t) <= 4
    && Finishing(r.states[j], t) && OwnSteps(r, h, j, t) + Left(r.states[j], t) <= Togo(r.states[h], t) + 2
  }

  ghost predicate CallProgress(r: Run, i: nat, j: nat, t: nat)
    requires i < j <= |r.events| && |r.states| == |r.events| + 1
  {
    || DoneBy(r, i, j, t)
    || (Heading(r.states[j], t) && OwnSteps(r, i + 1, j, t) + Ahead(r.states[j], t) <= 4)
    || exists h: nat :: LoadedAt(r, i, h, j, t)
  }

  lemma {:induction false} CallProgresses(r: Run, i: nat, j: nat, t: nat, k: Key)
    requires Runs(r) && i < j < |r.states| && r.events[i] == Event(t, CallGet(k))
    ensures CallProgress(r, i, j, t)
  {
    if j == i + 1 {
      StepAt(r, i);
      CallHeads(r.states[i], t, k);
    } else {
      CallProgresses(r, i, j - 1, t, k);
      CallGoesOnAt(r, i, j - 1, t);
    }
  }

  lemma CallGoesOnAt(r: Run, i: nat, j: nat, t: nat)
    requires Runs(r) && i < j < |r.events| && CallProgress(r, i, j, t)
    ensures CallProgress(r, i, j + 1, t)
  {
    StepAt(r, j);
    if m :| i < m <= j && m < |r.states| && Returned(r.states[m], t) {
      assert DoneBy(r, i, j + 1, t);
    } else if h: nat :| LoadedAt(r, i, h, j, t) {
      LoadedGoesOn(r, i, h, j, t);
    } else {
      HeadGoesOn(r, i, j, t);
    }
  }

  lemma HeadGoesOn(r: Run, i: nat, j: nat, t: nat)
    requires i < j < |r.events| && |r.states| == |r.events| + 1 && Steps(r, j) && Inv(r.states[j])
    requires Heading(r.states[j], t) && OwnSteps(r, i + 1, j, t) + Ahead(r.states[j], t) <= 4
    ensures CallProgress(r, i, j + 1, t)
  {
    HeadStepDown(r.states[j], r.events[j].t, r.events[j].a, t);
    if Walks(r.states[j + 1], t) { assert LoadedAt(r, i, j + 1, j + 1, t); }
  }

  lemma LoadedGoesOn(r: Run, i: nat, h: nat, j: nat, t: nat)
    requires i < j < |r.events| && LoadedAt(r, i, h, j, t) && Steps(r, j) && Inv(r.states[j])
    ensures CallProgress(r, i, j + 1, t)
  {
    FinishStepDown(r.states[j], r.events[j].t, r.events[j].a, t);
    if Returned(r.states[j + 1], t) { assert DoneBy(r, i, j + 1, t); } else { assert LoadedAt(r, i, h, j + 1, t); }
  }

  /**
   Get is wait-free as a whole: in every run, a call that is not done has either taken fewer than four own steps, or
   loaded its head and taken at most five more than there were nodes on the chain at that moment; and its next own step
   is possible.  So with n nodes it is done after n + 6 own steps, whatever the other threads do.
   */
  lemma GetCallWaitFree(r: Run, i: nat, j: nat, t: nat, k: Key)
    requires Runs(r) && i < j < |r.states| && r.events[i] == Event(t, CallGet(k))
    ensures
      || DoneBy(r, i, j, t)
      || OwnSteps(r, i + 1, j, t) <= 3
      || exists h :: i < h <= j && Walks(r.states[h], t) && OwnSteps(r, i + 1, j, t) <= Togo(r.states[h], t) + 5
    ensures !DoneBy(r, i, j, t) ==> Enabled(r.states[j], t, Go) || Enabled(r.states[j], t, Ebr(E.Continue))
  {
    CallProgresses(r, i, j, t, k);
    if h: nat :| LoadedAt(r, i, h, j, t) { OwnStepsAdd(r, i + 1, h, j, t); }
    if !DoneBy(r, i, j, t) { CallNeverBlocked(r, j, t); }
  }

  lemma CallNeverBlocked(r: Run, j: nat, t: nat)
    requires Runs(r) && j < |r.states| && (Heading(r.states[j], t) || Finishing(r.states[j], t))
    ensures Enabled(r.states[j], t, Go) || Enabled(r.states[j], t, Ebr(E.Continue))
  {
    RunInv(r, j);
    if Heading(r.states[j], t) { EntryNeverBlocked(r.states[j], t); } else { ReaderNeverBlocked(r.states[j], t); }
  }

  lemma EntryNeverBlocked(s: State, t: nat)
    requires Inv(s) && Heading(s, t)
    ensures Enabled(s, t, Go) || Enabled(s, t, Ebr(E.Continue))
  {
    assert E.ThreadShape(s.ebr, t);
    if s.ops[t].GetTable? { ReaderNeverBlocked(s, t); }
  }

  // ---------------------------------------------------------------- the element count

  /** `count_` is the number of entries whenever no writer is between its splice and its count update. */
  lemma CountIsSize(r: Run, i: nat)
    requires Runs(r) && i < |r.states|
    ensures r.states[i].count + Owed(r.states[i]) == |Now(r, i)|
    ensures r.states[i].lock == None ==> r.states[i].count == |Now(r, i)|
  {
    RunInv(r, i);
  }
}
