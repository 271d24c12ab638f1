/**
 The memory of RcuHashMap (common/concurrency/rcu_hash_map.h): nodes linked through `next`, and tables
 of bucket heads.  Pointers are numbers, 0 is null, and addresses are never reused.

 `rank` and `home` are history fields: `home` is the table a node was created for, and `rank` is fixed at
 creation so that it falls along every `next` pointer for ever, also through nodes already unlinked.
 */
module RcuMemory {
  import opened Prelude

  type Key(==,!new)
  type Value(!new)
  type Ptr = nat

  datatype Node = Node(key: Key, value: Value, next: Ptr, rank: nat, home: Ptr)
  type Nodes = map<Ptr, Node>

  datatype Mem = Mem(hash: Key -> nat, nodes: Nodes, tables: map<Ptr, seq<Ptr>>, top: Ptr)

  // ---------------------------------------------------------------- chains

  ghost predicate Ranked(ns: Nodes) {
    forall c {:trigger ns[c].next} :: c in ns && ns[c].next != 0 ==>
      ns[c].next in ns && ns[ns[c].next].rank < ns[c].rank
  }

  ghost predicate IsPtr(ns: Nodes, c: Ptr) { c == 0 || c in ns }

  ghost function Height(ns: Nodes, c: Ptr): nat
    requires IsPtr(ns, c)
  {
    if c == 0 then 0 else ns[c].rank + 1
  }

  /** Node `d` is reached from `c` by following `next`. */
  ghost predicate OnChain(ns: Nodes, c: Ptr, d: Ptr)
    requires Ranked(ns) && IsPtr(ns, c)
    decreases Height(ns, c)
  {
    c != 0 && (c == d || OnChain(ns, ns[c].next, d))
  }

  /** The number of nodes from `c` on. */
  ghost function Length(ns: Nodes, c: Ptr): nat
    requires Ranked(ns) && IsPtr(ns, c)
    decreases Height(ns, c)
  {
    if c == 0 then 0 else 1 + Length(ns, ns[c].next)
  }

  /** What a walk from `c` finds for key `k` if nothing changes under it. */
  ghost function Lookup(ns: Nodes, c: Ptr, k: Key): Option<Value>
    requires Ranked(ns) && IsPtr(ns, c)
    decreases Height(ns, c)
  {
    if c == 0 then None
    else if ns[c].key == k then Some(ns[c].value)
    else Lookup(ns, ns[c].next, k)
  }

  // ---------------------------------------------------------------- the writer's stores

  /** Stores `y` into the link that leads to a node: the predecessor's `next`, or the bucket head. */
  function SetLink(m: Mem, t: Ptr, i: nat, prev: Ptr, y: Ptr): Mem
    requires t in m.tables && i < |m.tables[t]| && (prev == 0 || prev in m.nodes)
  {
    if prev == 0 then
      var bs: seq<Ptr> := m.tables[t][i := y];
      m.(tables := m.tables[t := bs])
    else m.(nodes := m.nodes[prev := m.nodes[prev].(next := y)])
  }

  function Alloc(m: Mem, n: Node): Mem {
    m.(nodes := m.nodes[m.top := n], top := m.top + 1)
  }

  function Bucket(m: Mem, t: Ptr, k: Key): nat
    requires t in m.tables && |m.tables[t]| > 0
  {
    m.hash(k) % |m.tables[t]|
  }

  function Head(m: Mem, t: Ptr, k: Key): Ptr
    requires t in m.tables && |m.tables[t]| > 0
  {
    m.tables[t][Bucket(m, t, k)]
  }

  /** A new node for a key that is absent goes to the front of its bucket. */
  function Insert(m: Mem, t: Ptr, k: Key, v: Value): Mem
    requires t in m.tables && |m.tables[t]| > 0
  {
    SetLink(Alloc(m, Node(k, v, Head(m, t, k), m.top, t)), t, Bucket(m, t, k), 0, m.top)
  }

  /** A node is replaced by a fresh copy with another value. */
  function Replace(m: Mem, t: Ptr, i: nat, prev: Ptr, x: Ptr, v: Value): Mem
    requires t in m.tables && i < |m.tables[t]| && (prev == 0 || prev in m.nodes) && x in m.nodes
  {
    SetLink(Alloc(m, m.nodes[x].(value := v)), t, i, prev, m.top)
  }

  function Unlink(m: Mem, t: Ptr, i: nat, prev: Ptr, x: Ptr): Mem
    requires t in m.tables && i < |m.tables[t]| && (prev == 0 || prev in m.nodes) && x in m.nodes
  {
    SetLink(m, t, i, prev, m.nodes[x].next)
  }

  function NewTable(m: Mem, size: nat): Mem {
    m.(tables := m.tables[m.top := seq(size, _ => 0)], top := m.top + 1)
  }

  // ---------------------------------------------------------------- invariant

  // `gone` holds the nodes and tables that have been unlinked.

  ghost predicate TableOk(m: Mem, gone: set<Ptr>, t: Ptr)
    requires t in m.tables
  {
    && 0 < t < m.top && |m.tables[t]| > 0
    && forall i :: 0 <= i < |m.tables[t]| ==> BucketOk(m, gone, t, i)
  }

  ghost predicate BucketOk(m: Mem, gone: set<Ptr>, t: Ptr, i: int)
    requires t in m.tables && 0 <= i < |m.tables[t]|
  {
    var p := m.tables[t][i];
    p != 0 ==>
      && p in m.nodes && p !in gone && m.nodes[p].home == t
      && |m.tables[t]| > 0 && Bucket(m, t, m.nodes[p].key) == i
  }

  ghost predicate NodeOk(m: Mem, gone: set<Ptr>, c: Ptr)
    requires c in m.nodes
  {
    var n := m.nodes[c];
    && 0 < c < m.top && n.rank < m.top && c !in m.tables
    && n.home in m.tables && |m.tables[n.home]| > 0
    && (n.next != 0 ==>
          && n.next in m.nodes && m.nodes[n.next].home == n.home
          && Bucket(m, n.home, m.nodes[n.next].key) == Bucket(m, n.home, n.key)
          && (n.next in gone ==> c in gone))
  }

  /** Every node that is not unlinked is on the chain of its own bucket of its own table. */
  ghost predicate Attached(m: Mem, gone: set<Ptr>, c: Ptr)
    requires c in m.nodes && Ranked(m.nodes)
  {
    var n := m.nodes[c];
    c !in gone ==>
      && n.home in m.tables && |m.tables[n.home]| > 0
      && IsPtr(m.nodes, Head(m, n.home, n.key)) && OnChain(m.nodes, Head(m, n.home, n.key), c)
  }

  ghost predicate UniqueKeys(m: Mem, gone: set<Ptr>) {
    forall c, d ::
      (&& c in m.nodes && d in m.nodes && c !in gone && d !in gone
       && m.nodes[c].home == m.nodes[d].home && m.nodes[c].key == m.nodes[d].key) ==> c == d
  }

  ghost predicate MemOk(m: Mem, gone: set<Ptr>) {
    && m.top > 0
    && Ranked(m.nodes)
    && (forall t {:trigger TableOk(m, gone, t)} :: t in m.tables ==> TableOk(m, gone, t))
    && (forall c {:trigger NodeOk(m, gone, c)} :: c in m.nodes ==> NodeOk(m, gone, c))
    && (forall c {:trigger Attached(m, gone, c)} :: c in m.nodes ==> Attached(m, gone, c))
    && UniqueKeys(m, gone)
    && (forall c :: c in gone ==> c in m.nodes || c in m.tables)
  }

  /** What the table holds for `k`. */
  ghost function Get(m: Mem, gone: set<Ptr>, t: Ptr, k: Key): Option<Value>
    requires MemOk(m, gone) && t in m.tables
  {
    assert TableOk(m, gone, t);
    assert BucketOk(m, gone, t, Bucket(m, t, k));
    Lookup(m.nodes, Head(m, t, k), k)
  }

  // ---------------------------------------------------------------- frames

  /** Old nodes do not see a node added beside them. */
  lemma {:induction false} LookupAlloc(ns: Nodes, a: Ptr, n: Node, c: Ptr, k: Key)
    requires Ranked(ns) && a !in ns && Ranked(ns[a := n]) && IsPtr(ns, c)
    ensures Lookup(ns[a := n], c, k) == Lookup(ns, c, k)
    decreases Height(ns, c)
  {
    if c != 0 { LookupAlloc(ns, a, n, ns[c].next, k); }
  }

  lemma {:induction false} OnChainAlloc(ns: Nodes, a: Ptr, n: Node, c: Ptr, d: Ptr)
    requires Ranked(ns) && a !in ns && Ranked(ns[a := n]) && IsPtr(ns, c)
    ensures OnChain(ns[a := n], c, d) == OnChain(ns, c, d)
    decreases Height(ns, c)
  {
    if c != 0 { OnChainAlloc(ns, a, n, ns[c].next, d); }
  }

  /** Nodes below the stored link do not see the store. */
  lemma {:induction false} LookupBelow(ns: Nodes, p: Ptr, n: Node, c: Ptr, k: Key)
    requires Ranked(ns) && p in ns && n.rank == ns[p].rank && Ranked(ns[p := n])
    requires IsPtr(ns, c) && Height(ns, c) <= ns[p].rank
    ensures Lookup(ns[p := n], c, k) == Lookup(ns, c, k)
    decreases Height(ns, c)
  {
    if c != 0 { LookupBelow(ns, p, n, ns[c].next, k); }
  }

  lemma {:induction false} OnChainBelow(ns: Nodes, p: Ptr, n: Node, c: Ptr, d: Ptr)
    requires Ranked(ns) && p in ns && n.rank == ns[p].rank && Ranked(ns[p := n])
    requires IsPtr(ns, c) && Height(ns, c) <= ns[p].rank
    ensures OnChain(ns[p := n], c, d) == OnChain(ns, c, d)
    decreases Height(ns, c)
  {
    if c != 0 { OnChainBelow(ns, p, n, ns[c].next, d); }
  }

  // ---------------------------------------------------------------- splicing

  /** `y` may take the place of node `x` behind `p`: it continues where `x` continues. */
  ghost predicate Splice(ns: Nodes, p: Ptr, x: Ptr, y: Ptr) {
    && Ranked(ns) && p in ns && x in ns && ns[p].next == x && x != 0
    && (y == ns[x].next ||
        (y != 0 && y in ns && ns[y].key == ns[x].key && ns[y].next == ns[x].next && ns[y].rank == ns[x].rank))
  }

  function Spliced(ns: Nodes, p: Ptr, y: Ptr): Nodes
    requires p in ns
  {
    ns[p := ns[p].(next := y)]
  }

  /**
   The store that splices out or replaces `x` never changes what a walk for another key finds, from
   any node, linked or not; a walk for `x`'s key finds what it found before or what `y` now gives.
   */
  lemma {:induction false} LookupSpliced(ns: Nodes, p: Ptr, x: Ptr, y: Ptr, c: Ptr, k: Key)
    requires Splice(ns, p, x, y) && IsPtr(ns, c)
    requires Ranked(Spliced(ns, p, y)) && IsPtr(ns, y)
    ensures Lookup(Spliced(ns, p, y), c, k) == Lookup(ns, c, k)
         || (k == ns[x].key && Lookup(Spliced(ns, p, y), c, k) == Lookup(ns, y, k))
    decreases Height(ns, c)
  {
    if c == p {
      LookupBelow(ns, p, ns[p].(next := y), y, k);
    } else if c != 0 {
      LookupSpliced(ns, p, x, y, ns[c].next, k);
    }
  }

  /** Every node but `x` stays on the chains it was on. */
  lemma {:induction false} OnChainSpliced(ns: Nodes, p: Ptr, x: Ptr, y: Ptr, c: Ptr, d: Ptr)
    requires Splice(ns, p, x, y) && IsPtr(ns, c) && d != x && OnChain(ns, c, d)
    requires Ranked(Spliced(ns, p, y)) && IsPtr(ns, y)
    ensures OnChain(Spliced(ns, p, y), c, d)
    decreases Height(ns, c)
  {
    if c == p {
      if c != d { OnChainBelow(ns, p, ns[p].(next := y), y, d); }
    } else if c != d {
      OnChainSpliced(ns, p, x, y, ns[c].next, d);
    }
  }

  // ---------------------------------------------------------------- what a table holds

  /** The node that makes `k` present in table `t`. */
  ghost predicate Carries(m: Mem, gone: set<Ptr>, t: Ptr, k: Key, c: Ptr) {
    c in m.nodes && c !in gone && m.nodes[c].home == t && m.nodes[c].key == k
  }

  /** The first node for `k` on the chain from `c`, or null. */
  ghost function Find(ns: Nodes, c: Ptr, k: Key): (d: Ptr)
    requires Ranked(ns) && IsPtr(ns, c)
    ensures d != 0 ==> d in ns && ns[d].key == k && OnChain(ns, c, d)
    ensures Lookup(ns, c, k) == if d == 0 then None else Some(ns[d].value)
    decreases Height(ns, c)
  {
    if c == 0 || ns[c].key == k then c else Find(ns, ns[c].next, k)
  }

  lemma {:induction false} FindNone(ns: Nodes, c: Ptr, k: Key, d: Ptr)
    requires Ranked(ns) && IsPtr(ns, c) && Find(ns, c, k) == 0 && OnChain(ns, c, d)
    ensures d in ns && ns[d].key != k
    decreases Height(ns, c)
  {
    if c != d { FindNone(ns, ns[c].next, k, d); }
  }

  /** From a linked node only linked nodes of the same table are reached. */
  lemma {:induction false} ChainLive(m: Mem, gone: set<Ptr>, c: Ptr, d: Ptr)
    requires Ranked(m.nodes) && (forall c {:trigger NodeOk(m, gone, c)} :: c in m.nodes ==> NodeOk(m, gone, c))
    requires c in m.nodes && c !in gone && OnChain(m.nodes, c, d)
    ensures d in m.nodes && d !in gone && m.nodes[d].home == m.nodes[c].home
    decreases Height(m.nodes, c)
  {
    assert NodeOk(m, gone, c);
    if c != d { ChainLive(m, gone, m.nodes[c].next, d); }
  }

  /** A chain stays in one bucket. */
  lemma {:induction false} ChainBucket(m: Mem, gone: set<Ptr>, c: Ptr, d: Ptr)
    requires Ranked(m.nodes) && (forall c {:trigger NodeOk(m, gone, c)} :: c in m.nodes ==> NodeOk(m, gone, c))
    requires c in m.nodes && OnChain(m.nodes, c, d) && m.nodes[c].home in m.tables && |m.tables[m.nodes[c].home]| > 0
    ensures d in m.nodes && m.nodes[d].home == m.nodes[c].home
    ensures Bucket(m, m.nodes[c].home, m.nodes[d].key) == Bucket(m, m.nodes[c].home, m.nodes[c].key)
    decreases Height(m.nodes, c)
  {
    assert NodeOk(m, gone, c);
    if c != d { ChainBucket(m, gone, m.nodes[c].next, d); }
  }

  lemma GetAbsent(m: Mem, gone: set<Ptr>, t: Ptr, k: Key)
    requires MemOk(m, gone) && t in m.tables && Get(m, gone, t, k) == None
    ensures forall c :: !Carries(m, gone, t, k, c)
  {
    forall c | Carries(m, gone, t, k, c) ensures false {
      assert TableOk(m, gone, t) && BucketOk(m, gone, t, Bucket(m, t, k)) && Attached(m, gone, c);
      FindNone(m.nodes, Head(m, t, k), k, c);
    }
  }

  lemma GetPresent(m: Mem, gone: set<Ptr>, t: Ptr, k: Key, c: Ptr)
    requires MemOk(m, gone) && t in m.tables && Carries(m, gone, t, k, c)
    ensures Get(m, gone, t, k) == Some(m.nodes[c].value)
  {
    assert TableOk(m, gone, t) && BucketOk(m, gone, t, Bucket(m, t, k)) && Attached(m, gone, c);
    var h := Head(m, t, k);
    var d := Find(m.nodes, h, k);
    if d == 0 { FindNone(m.nodes, h, k, c); } else { ChainLive(m, gone, h, d); }
  }

  // ---------------------------------------------------------------- chains are linear

  lemma {:induction false} ChainRank(ns: Nodes, c: Ptr, d: Ptr)
    requires Ranked(ns) && c in ns && OnChain(ns, c, d)
    ensures d in ns && ns[d].rank <= ns[c].rank && (d != c ==> ns[d].rank < ns[c].rank)
    decreases Height(ns, c)
  {
    if c != d { ChainRank(ns, ns[c].next, d); }
  }

  lemma {:induction false} ChainStep(ns: Nodes, h: Ptr, c: Ptr)
    requires Ranked(ns) && IsPtr(ns, h) && OnChain(ns, h, c) && c in ns && ns[c].next != 0
    ensures OnChain(ns, h, ns[c].next)
    decreases Height(ns, h)
  {
    if h != c { ChainStep(ns, ns[h].next, c); }
  }

  /** Two nodes of one chain that share a successor are the same node. */
  lemma {:induction false} OnePredecessor(ns: Nodes, h: Ptr, c: Ptr, d: Ptr)
    requires Ranked(ns) && IsPtr(ns, h) && OnChain(ns, h, c) && OnChain(ns, h, d)
    requires c in ns && d in ns && ns[c].next == ns[d].next != 0
    ensures c == d
    decreases Height(ns, h)
  {
    if h == c {
      if c != d { ChainRank(ns, ns[c].next, d); }
    } else if h == d {
      ChainRank(ns, ns[d].next, c);
    } else {
      OnePredecessor(ns, ns[h].next, c, d);
    }
  }

  /** The only linked node, or bucket, that leads to `x` is the one given. */
  lemma NoOtherLink(m: Mem, gone: set<Ptr>, t: Ptr, i: nat, prev: Ptr, x: Ptr, c: Ptr)
    requires MemOk(m, gone) && LinkTo(m, gone, t, i, prev, x)
    requires c in m.nodes && c !in gone && m.nodes[c].next == x
    ensures c == prev
  {
    assert NodeOk(m, gone, c) && Attached(m, gone, c) && TableOk(m, gone, t) && BucketOk(m, gone, t, i);
    if prev == 0 {
      ChainRank(m.nodes, x, c);
    } else {
      assert NodeOk(m, gone, prev) && Attached(m, gone, prev);
      OnePredecessor(m.nodes, m.tables[t][i], c, prev);
    }
  }

  // ---------------------------------------------------------------- the stores keep the invariant

  /** Node `x` of bucket `i` of table `t` is linked; the link to it is `prev`'s, or the bucket's if `prev` is null. */
  ghost predicate LinkTo(m: Mem, gone: set<Ptr>, t: Ptr, i: nat, prev: Ptr, x: Ptr) {
    && t in m.tables && |m.tables[t]| > 0 && i < |m.tables[t]|
    && x in m.nodes && x != 0 && x !in gone && m.nodes[x].home == t && Bucket(m, t, m.nodes[x].key) == i
    && if prev == 0 then m.tables[t][i] == x
       else prev in m.nodes && prev !in gone && m.nodes[prev].home == t && m.nodes[prev].next == x
  }

  /** A node `AllocOk` can take into memory. */
  ghost predicate Fresh(m: Mem, n: Node) {
    && n.home in m.tables && |m.tables[n.home]| > 0 && n.rank <= m.top
    && (n.next != 0 ==>
          && n.next in m.nodes && m.nodes[n.next].home == n.home && m.nodes[n.next].rank < n.rank
          && Bucket(m, n.home, m.nodes[n.next].key) == Bucket(m, n.home, n.key))
  }

  lemma TopIsNew(m: Mem, gone: set<Ptr>)
    requires MemOk(m, gone)
    ensures m.top !in m.nodes && m.top !in m.tables && m.top !in gone
  {
    forall c | c in m.nodes ensures c < m.top { assert NodeOk(m, gone, c); }
    forall t | t in m.tables ensures t < m.top { assert TableOk(m, gone, t); }
  }

  /** A fresh node is private: it counts as not linked until a store publishes it. */
  lemma AllocOk(m: Mem, gone: set<Ptr>, n: Node)
    requires MemOk(m, gone) && Fresh(m, n)
    ensures MemOk(Alloc(m, n), gone + {m.top})
    ensures SameWalks(m.nodes, Alloc(m, n).nodes)
  {
    var m', g := Alloc(m, n), gone + {m.top};
    TopIsNew(m, gone);
    AllocNodes(m, gone, n);
    forall t | t in m'.tables ensures TableOk(m', g, t) {
      assert TableOk(m, gone, t);
      forall i | 0 <= i < |m'.tables[t]| ensures BucketOk(m', g, t, i) { assert BucketOk(m, gone, t, i); }
    }
    forall c | c in m'.nodes ensures Attached(m', g, c) {
      if c != m.top {
        assert Attached(m, gone, c) && NodeOk(m, gone, c);
        if c !in gone { OnChainAlloc(m.nodes, m.top, n, Head(m, m.nodes[c].home, m.nodes[c].key), c); }
      }
    }
    forall c, k | IsPtr(m.nodes, c) ensures Lookup(m'.nodes, c, k) == Lookup(m.nodes, c, k) {
      LookupAlloc(m.nodes, m.top, n, c, k);
    }
  }

  lemma AllocNodes(m: Mem, gone: set<Ptr>, n: Node)
    requires MemOk(m, gone) && Fresh(m, n) && m.top !in m.nodes && m.top !in m.tables && m.top !in gone
    ensures Ranked(Alloc(m, n).nodes)
    ensures forall c :: c in Alloc(m, n).nodes ==> NodeOk(Alloc(m, n), gone + {m.top}, c)
  {
    var m', g := Alloc(m, n), gone + {m.top};
    forall c | c in m'.nodes ensures NodeOk(m', g, c) {
      if c != m.top { assert NodeOk(m, gone, c); }
    }
  }

  /** A private node may take `x`'s place, or `x`'s successor may. */
  ghost predicate Successor(m: Mem, gone: set<Ptr>, x: Ptr, y: Ptr)
    requires x in m.nodes
  {
    || y == m.nodes[x].next
    || (y in m.nodes && y != 0 && y in gone && m.nodes[y] == m.nodes[x].(value := m.nodes[y].value))
  }

  lemma RelinkRanked(m: Mem, gone: set<Ptr>, t: Ptr, i: nat, prev: Ptr, x: Ptr, y: Ptr)
    requires MemOk(m, gone) && LinkTo(m, gone, t, i, prev, x) && Successor(m, gone, x, y)
    ensures Ranked(SetLink(m, t, i, prev, y).nodes) && IsPtr(m.nodes, y)
    ensures prev != 0 ==> Splice(m.nodes, prev, x, y) && SetLink(m, t, i, prev, y).nodes == Spliced(m.nodes, prev, y)
    ensures y != x
  {
    assert NodeOk(m, gone, x);
  }

  lemma RelinkTables(m: Mem, gone: set<Ptr>, t: Ptr, i: nat, prev: Ptr, x: Ptr, y: Ptr)
    requires MemOk(m, gone) && LinkTo(m, gone, t, i, prev, x) && Successor(m, gone, x, y)
    ensures forall u :: u in SetLink(m, t, i, prev, y).tables ==>
            TableOk(SetLink(m, t, i, prev, y), gone + {x} - {y}, u)
  {
    var m', g := SetLink(m, t, i, prev, y), gone + {x} - {y};
    assert NodeOk(m, gone, x);
    forall u | u in m'.tables ensures TableOk(m', g, u) {
      assert TableOk(m, gone, u);
      forall j | 0 <= j < |m'.tables[u]| ensures BucketOk(m', g, u, j) {
        assert BucketOk(m, gone, u, j);
        if prev != 0 && m.tables[u][j] == x { HeadIsNotNext(m, gone, t, i, prev, x); }
      }
    }
  }

  /** A node behind another linked node is not a bucket head. */
  lemma HeadIsNotNext(m: Mem, gone: set<Ptr>, t: Ptr, i: nat, prev: Ptr, x: Ptr)
    requires MemOk(m, gone) && LinkTo(m, gone, t, i, prev, x) && prev != 0
    ensures m.tables[t][i] != x
  {
    assert NodeOk(m, gone, prev) && Attached(m, gone, prev) && TableOk(m, gone, t) && BucketOk(m, gone, t, i);
    if m.tables[t][i] == x { ChainRank(m.nodes, x, prev); }
  }

  lemma RelinkNodes(m: Mem, gone: set<Ptr>, t: Ptr, i: nat, prev: Ptr, x: Ptr, y: Ptr)
    requires MemOk(m, gone) && LinkTo(m, gone, t, i, prev, x) && Successor(m, gone, x, y)
    ensures forall c :: c in SetLink(m, t, i, prev, y).nodes ==> NodeOk(SetLink(m, t, i, prev, y), gone + {x} - {y}, c)
  {
    var m', g := SetLink(m, t, i, prev, y), gone + {x} - {y};
    assert NodeOk(m, gone, x);
    if y != 0 { assert NodeOk(m, gone, y); }
    forall c | c in m'.nodes ensures NodeOk(m', g, c) {
      assert NodeOk(m, gone, c);
      if c !in gone && c != prev && m.nodes[c].next == x { NoOtherLink(m, gone, t, i, prev, x, c); }
    }
  }

  lemma RelinkAttached(m: Mem, gone: set<Ptr>, t: Ptr, i: nat, prev: Ptr, x: Ptr, y: Ptr, c: Ptr)
    requires MemOk(m, gone) && LinkTo(m, gone, t, i, prev, x) && Successor(m, gone, x, y) && c in m.nodes
    requires Ranked(SetLink(m, t, i, prev, y).nodes)
    ensures Attached(SetLink(m, t, i, prev, y), gone + {x} - {y}, c)
  {
    var ns := m.nodes;
    assert NodeOk(m, gone, c) && NodeOk(m, gone, x) && Attached(m, gone, c) && Attached(m, gone, x);
    RelinkRanked(m, gone, t, i, prev, x, y);
    var h := Head(m, ns[c].home, ns[c].key);
    if c !in gone && c != x {
      if prev != 0 { OnChainSpliced(ns, prev, x, y, h, c); }
    } else if c == y && prev != 0 {
      assert NodeOk(m, gone, prev) && Attached(m, gone, prev);
      OnChainSpliced(ns, prev, x, y, h, prev);
      ChainStep(Spliced(ns, prev, y), h, prev);
    }
  }

  /** The store that unlinks `x`, publishing `y` in its place, keeps the memory well formed. */
  lemma RelinkOk(m: Mem, gone: set<Ptr>, t: Ptr, i: nat, prev: Ptr, x: Ptr, y: Ptr)
    requires MemOk(m, gone) && LinkTo(m, gone, t, i, prev, x) && Successor(m, gone, x, y)
    ensures MemOk(SetLink(m, t, i, prev, y), gone + {x} - {y})
  {
    var m', g := SetLink(m, t, i, prev, y), gone + {x} - {y};
    RelinkRanked(m, gone, t, i, prev, x, y);
    RelinkTables(m, gone, t, i, prev, x, y);
    RelinkNodes(m, gone, t, i, prev, x, y);
    forall c | c in m'.nodes ensures Attached(m', g, c) { RelinkAttached(m, gone, t, i, prev, x, y, c); }
    forall c | c in m.nodes ensures NodeOk(m, gone, c) && c != 0 {}
    RelinkUnique(m, gone, t, i, prev, x, y);
  }

  lemma RelinkUnique(m: Mem, gone: set<Ptr>, t: Ptr, i: nat, prev: Ptr, x: Ptr, y: Ptr)
    requires UniqueKeys(m, gone) && LinkTo(m, gone, t, i, prev, x) && Successor(m, gone, x, y) && x != y
    requires NodeOk(m, gone, x) && 0 !in m.nodes
    ensures UniqueKeys(SetLink(m, t, i, prev, y), gone + {x} - {y})
  {
    var m', g := SetLink(m, t, i, prev, y), gone + {x} - {y};
    forall c | c in m'.nodes
      ensures c in m.nodes && m'.nodes[c].home == m.nodes[c].home && m'.nodes[c].key == m.nodes[c].key
      ensures c !in g ==>
        c != x && (c !in gone || (c == y && y in gone && m.nodes[y].home == t && m.nodes[y].key == m.nodes[x].key))
    {
    }
  }

  /** A private node ready to become the head of its bucket. */
  ghost predicate Front(m: Mem, gone: set<Ptr>, t: Ptr, a: Ptr) {
    && a in m.nodes && a in gone && m.nodes[a].home == t && t in m.tables && |m.tables[t]| > 0
    && m.nodes[a].next == Head(m, t, m.nodes[a].key)
    && forall c :: !Carries(m, gone, t, m.nodes[a].key, c)
  }

  lemma FrontTables(m: Mem, gone: set<Ptr>, t: Ptr, a: Ptr)
    requires MemOk(m, gone) && Front(m, gone, t, a)
    ensures
      var m' := SetLink(m, t, Bucket(m, t, m.nodes[a].key), 0, a);
      forall u :: u in m'.tables ==> TableOk(m', gone - {a}, u)
  {
    var m' := SetLink(m, t, Bucket(m, t, m.nodes[a].key), 0, a);
    forall u | u in m'.tables ensures TableOk(m', gone - {a}, u) {
      assert TableOk(m, gone, u) && NodeOk(m, gone, a);
      forall j | 0 <= j < |m'.tables[u]| ensures BucketOk(m', gone - {a}, u, j) { assert BucketOk(m, gone, u, j); }
    }
  }

  /** Publishing a private node at the front of its bucket. */
  lemma FrontOk(m: Mem, gone: set<Ptr>, t: Ptr, a: Ptr)
    requires MemOk(m, gone) && Front(m, gone, t, a)
    ensures MemOk(SetLink(m, t, Bucket(m, t, m.nodes[a].key), 0, a), gone - {a})
  {
    var i := Bucket(m, t, m.nodes[a].key);
    var m', g := SetLink(m, t, i, 0, a), gone - {a};
    FrontTables(m, gone, t, a);
    assert TableOk(m, gone, t) && BucketOk(m, gone, t, i) && NodeOk(m, gone, a);
    forall c | c in m'.nodes ensures NodeOk(m', g, c) { assert NodeOk(m, gone, c); }
    forall c | c in m'.nodes ensures Attached(m', g, c) { assert NodeOk(m, gone, c) && Attached(m, gone, c); }
    FrontUnique(m, gone, t, a);
  }

  lemma FrontUnique(m: Mem, gone: set<Ptr>, t: Ptr, a: Ptr)
    requires UniqueKeys(m, gone) && Front(m, gone, t, a)
    ensures UniqueKeys(SetLink(m, t, Bucket(m, t, m.nodes[a].key), 0, a), gone - {a})
  {
    forall c | c in m.nodes && c !in gone && m.nodes[c].home == t ensures m.nodes[c].key != m.nodes[a].key {
      assert !Carries(m, gone, t, m.nodes[a].key, c);
    }
  }

  lemma NewTableOk(m: Mem, gone: set<Ptr>, size: nat)
    requires MemOk(m, gone) && size > 0
    ensures MemOk(NewTable(m, size), gone)
    ensures m.top !in gone && m.top !in m.nodes && m.top !in m.tables
    ensures forall k :: Get(NewTable(m, size), gone, m.top, k) == None
    ensures forall u, k :: u in m.tables ==> Get(NewTable(m, size), gone, u, k) == Get(m, gone, u, k)
  {
    var m' := NewTable(m, size);
    TopIsNew(m, gone);
    forall u | u in m'.tables ensures TableOk(m', gone, u) {
      if u != m.top { assert TableOk(m, gone, u); }
      forall j | 0 <= j < |m'.tables[u]| ensures BucketOk(m', gone, u, j) {
        if u != m.top { assert BucketOk(m, gone, u, j); }
      }
    }
    forall c | c in m'.nodes ensures NodeOk(m', gone, c) && Attached(m', gone, c) {
      assert NodeOk(m, gone, c) && Attached(m, gone, c);
    }
    forall u | u in m.tables ensures m.tables[u] == m'.tables[u] && |m.tables[u]| > 0 { assert TableOk(m, gone, u); }
  }

  /** A whole table leaves: its nodes stay as they are. */
  lemma GoneTableOk(m: Mem, gone: set<Ptr>, t: Ptr)
    requires MemOk(m, gone) && t in m.tables
    ensures MemOk(m, gone + {t})
  {
    var g := gone + {t};
    forall c | c in m.nodes ensures NodeOk(m, gone, c) && Attached(m, gone, c) && c != t {}
    forall u | u in m.tables ensures TableOk(m, g, u) {
      assert TableOk(m, gone, u);
      forall j | 0 <= j < |m.tables[u]| ensures BucketOk(m, g, u, j) { assert BucketOk(m, gone, u, j); }
    }
  }

  // ---------------------------------------------------------------- what the stores do to the map

  lemma GetNone(m: Mem, gone: set<Ptr>, t: Ptr, k: Key)
    requires MemOk(m, gone) && t in m.tables && forall c :: !Carries(m, gone, t, k, c)
    ensures Get(m, gone, t, k) == None
  {
    assert TableOk(m, gone, t) && BucketOk(m, gone, t, Bucket(m, t, k));
    var d := Find(m.nodes, Head(m, t, k), k);
    if d != 0 {
      ChainLive(m, gone, Head(m, t, k), d);
      assert Carries(m, gone, t, k, d);
    }
  }

  /** Equal carriers give equal lookups. */
  lemma GetSame(m: Mem, gone: set<Ptr>, m': Mem, gone': set<Ptr>, t: Ptr, k: Key)
    requires MemOk(m, gone) && MemOk(m', gone') && t in m.tables && t in m'.tables
    requires forall c :: Carries(m, gone, t, k, c) ==>
             Carries(m', gone', t, k, c) && m'.nodes[c].value == m.nodes[c].value
    requires forall c :: Carries(m', gone', t, k, c) ==> Carries(m, gone, t, k, c)
    ensures Get(m', gone', t, k) == Get(m, gone, t, k)
  {
    if c :| Carries(m, gone, t, k, c) {
      GetPresent(m, gone, t, k, c);
      GetPresent(m', gone', t, k, c);
    } else {
      GetNone(m, gone, t, k);
      GetNone(m', gone', t, k);
    }
  }

  /** Every table holds what it held, except that `t` now holds `r` for `k`. */
  ghost predicate MapEffect(m: Mem, gone: set<Ptr>, m': Mem, gone': set<Ptr>, t: Ptr, k: Key, r: Option<Value>)
    requires MemOk(m, gone) && MemOk(m', gone')
  {
    && m'.tables.Keys == m.tables.Keys
    && forall u, j :: u in m.tables ==> Get(m', gone', u, j) == if u == t && j == k then r else Get(m, gone, u, j)
  }

  /** A walk under way at any node finds what it would have found or, if it is for `k`, `r`. */
  ghost predicate WalkEffect(ns: Nodes, ns': Nodes, k: Key, r: Option<Value>)
    requires Ranked(ns) && Ranked(ns')
  {
    && ns.Keys <= ns'.Keys
    && forall c, j :: IsPtr(ns, c) ==> Lookup(ns', c, j) == Lookup(ns, c, j) || (j == k && Lookup(ns', c, j) == r)
  }

  /** No walk notices the difference. */
  ghost predicate SameWalks(ns: Nodes, ns': Nodes)
    requires Ranked(ns) && Ranked(ns')
  {
    ns.Keys <= ns'.Keys && forall c, j :: IsPtr(ns, c) ==> Lookup(ns', c, j) == Lookup(ns, c, j)
  }

  /** The effect of publishing one update of `k` in table `t`, with `r` the new entry. */
  ghost predicate Effect(m: Mem, gone: set<Ptr>, m': Mem, gone': set<Ptr>, t: Ptr, k: Key, r: Option<Value>) {
    && MemOk(m, gone) && MemOk(m', gone')
    && MapEffect(m, gone, m', gone', t, k, r) && WalkEffect(m.nodes, m'.nodes, k, r)
  }

  lemma InsertOk(m: Mem, gone: set<Ptr>, t: Ptr, k: Key, v: Value)
    requires MemOk(m, gone) && t in m.tables && |m.tables[t]| > 0 && Get(m, gone, t, k) == None
    ensures MemOk(Insert(m, t, k, v), gone) && m.top !in m.nodes && m.top !in gone
    ensures SameWalks(m.nodes, Insert(m, t, k, v).nodes)
  {
    var a, n := m.top, Node(k, v, Head(m, t, k), m.top, t);
    var m1 := Alloc(m, n);
    assert TableOk(m, gone, t) && BucketOk(m, gone, t, Bucket(m, t, k));
    if n.next != 0 { assert NodeOk(m, gone, n.next); }
    AllocOk(m, gone, n);
    TopIsNew(m, gone);
    GetAbsent(m, gone, t, k);
    forall c ensures !Carries(m1, gone + {a}, t, k, c) { assert !Carries(m, gone, t, k, c); }
    FrontOk(m1, gone + {a}, t, a);
    assert gone + {a} - {a} == gone;
  }

  lemma InsertGet(m: Mem, gone: set<Ptr>, t: Ptr, k: Key, v: Value, u: Ptr, j: Key)
    requires MemOk(m, gone) && t in m.tables && |m.tables[t]| > 0 && u in m.tables && m.top !in m.nodes
             && m.top !in gone
    requires MemOk(Insert(m, t, k, v), gone)
    ensures Get(Insert(m, t, k, v), gone, u, j) == if u == t && j == k then Some(v) else Get(m, gone, u, j)
  {
    var m' := Insert(m, t, k, v);
    forall c | c in m.nodes ensures m'.nodes[c] == m.nodes[c] {}
    if u == t && j == k { GetPresent(m', gone, t, k, m.top); } else { GetSame(m, gone, m', gone, u, j); }
  }

  lemma InsertEffect(m: Mem, gone: set<Ptr>, t: Ptr, k: Key, v: Value)
    requires MemOk(m, gone) && t in m.tables && |m.tables[t]| > 0 && Get(m, gone, t, k) == None
    ensures Effect(m, gone, Insert(m, t, k, v), gone, t, k, Some(v))
    ensures SameWalks(m.nodes, Insert(m, t, k, v).nodes)
  {
    InsertOk(m, gone, t, k, v);
    forall u, j | u in m.tables
      ensures Get(Insert(m, t, k, v), gone, u, j) == if u == t && j == k then Some(v) else Get(m, gone, u, j)
    {
      InsertGet(m, gone, t, k, v, u, j);
    }
  }

  lemma RelinkEffect(m: Mem, gone: set<Ptr>, t: Ptr, i: nat, prev: Ptr, x: Ptr, y: Ptr, r: Option<Value>)
    requires MemOk(m, gone) && LinkTo(m, gone, t, i, prev, x) && Successor(m, gone, x, y)
    requires r == if y == m.nodes[x].next then None else Some(m.nodes[y].value)
    ensures Effect(m, gone, SetLink(m, t, i, prev, y), gone + {x} - {y}, t, m.nodes[x].key, r)
  {
    var m', g, k := SetLink(m, t, i, prev, y), gone + {x} - {y}, m.nodes[x].key;
    RelinkOk(m, gone, t, i, prev, x, y);
    assert MapEffect(m, gone, m', g, t, k, r) by {
      forall u, j | u in m.tables ensures Get(m', g, u, j) == if u == t && j == k then r else Get(m, gone, u, j) {
        RelinkGet(m, gone, t, i, prev, x, y, r, u, j);
      }
    }
    RelinkWalks(m, gone, t, i, prev, x, y, r);
  }

  lemma RelinkWalks(m: Mem, gone: set<Ptr>, t: Ptr, i: nat, prev: Ptr, x: Ptr, y: Ptr, r: Option<Value>)
    requires MemOk(m, gone) && LinkTo(m, gone, t, i, prev, x) && Successor(m, gone, x, y)
    requires r == if y == m.nodes[x].next then None else Some(m.nodes[y].value)
    ensures Ranked(SetLink(m, t, i, prev, y).nodes)
    ensures WalkEffect(m.nodes, SetLink(m, t, i, prev, y).nodes, m.nodes[x].key, r)
  {
    var m', k := SetLink(m, t, i, prev, y), m.nodes[x].key;
    RelinkRanked(m, gone, t, i, prev, x, y);
    forall c, j | IsPtr(m.nodes, c)
      ensures Lookup(m'.nodes, c, j) == Lookup(m.nodes, c, j) || (j == k && Lookup(m'.nodes, c, j) == r)
    {
      RelinkLookup(m, gone, t, i, prev, x, y, r, c, j);
    }
  }

  lemma RelinkLookup(m: Mem, gone: set<Ptr>, t: Ptr, i: nat, prev: Ptr, x: Ptr, y: Ptr, r: Option<Value>,
                     c: Ptr, j: Key)
    requires MemOk(m, gone) && LinkTo(m, gone, t, i, prev, x) && Successor(m, gone, x, y) && IsPtr(m.nodes, c)
    requires r == if y == m.nodes[x].next then None else Some(m.nodes[y].value)
    ensures Ranked(SetLink(m, t, i, prev, y).nodes) && IsPtr(SetLink(m, t, i, prev, y).nodes, c)
    ensures
      var found := Lookup(SetLink(m, t, i, prev, y).nodes, c, j);
      found == Lookup(m.nodes, c, j) || (j == m.nodes[x].key && found == r)
  {
    RelinkRanked(m, gone, t, i, prev, x, y);
    SuccessorFinds(m, gone, t, i, prev, x, y, r);
    if prev != 0 { LookupSpliced(m.nodes, prev, x, y, c, j); }
  }

  lemma SuccessorFinds(m: Mem, gone: set<Ptr>, t: Ptr, i: nat, prev: Ptr, x: Ptr, y: Ptr, r: Option<Value>)
    requires MemOk(m, gone) && LinkTo(m, gone, t, i, prev, x) && Successor(m, gone, x, y)
    requires r == if y == m.nodes[x].next then None else Some(m.nodes[y].value)
    ensures IsPtr(m.nodes, y) && Lookup(m.nodes, y, m.nodes[x].key) == r
  {
    assert NodeOk(m, gone, x);
    if y == m.nodes[x].next && y != 0 {
      var d := Find(m.nodes, y, m.nodes[x].key);
      if d != 0 {
        ChainLive(m, gone, y, d);
        ChainRank(m.nodes, y, d);
      }
    }
  }

  lemma RelinkCarries(m: Mem, gone: set<Ptr>, t: Ptr, i: nat, prev: Ptr, x: Ptr, y: Ptr, u: Ptr, j: Key, c: Ptr)
    requires LinkTo(m, gone, t, i, prev, x) && Successor(m, gone, x, y) && y != x
    requires NodeOk(m, gone, x) && 0 !in m.nodes
    ensures Carries(SetLink(m, t, i, prev, y), gone + {x} - {y}, u, j, c)
       <==> (c != x && Carries(m, gone, u, j, c)) || (c == y && c in gone && c != 0 && u == t && j == m.nodes[x].key)
    ensures c in m.nodes ==> SetLink(m, t, i, prev, y).nodes[c].value == m.nodes[c].value
  {
  }

  lemma RelinkGet(m: Mem, gone: set<Ptr>, t: Ptr, i: nat, prev: Ptr, x: Ptr, y: Ptr, r: Option<Value>, u: Ptr, j: Key)
    requires MemOk(m, gone) && LinkTo(m, gone, t, i, prev, x) && Successor(m, gone, x, y)
    requires r == if y == m.nodes[x].next then None else Some(m.nodes[y].value)
    requires MemOk(SetLink(m, t, i, prev, y), gone + {x} - {y}) && u in m.tables
    ensures Get(SetLink(m, t, i, prev, y), gone + {x} - {y}, u, j)
         == if u == t && j == m.nodes[x].key then r else Get(m, gone, u, j)
  {
    var m', g := SetLink(m, t, i, prev, y), gone + {x} - {y};
    forall c | c in m.nodes ensures NodeOk(m, gone, c) && c != 0 {}
    RelinkRanked(m, gone, t, i, prev, x, y);
    assert Carries(m, gone, t, m.nodes[x].key, x);
    forall c ensures
      Carries(m', g, u, j, c)
      <==> (c != x && Carries(m, gone, u, j, c)) || (c == y && c in gone && c != 0 && u == t && j == m.nodes[x].key)
    {
      RelinkCarries(m, gone, t, i, prev, x, y, u, j, c);
    }
    RelinkValue(m, gone, m', g, t, x, y, r, u, j);
  }

  lemma RelinkValue(m: Mem, gone: set<Ptr>, m': Mem, g: set<Ptr>, t: Ptr, x: Ptr, y: Ptr, r: Option<Value>,
                    u: Ptr, j: Key)
    requires MemOk(m, gone) && MemOk(m', g) && u in m.tables && u in m'.tables
    requires x in m.nodes && Carries(m, gone, t, m.nodes[x].key, x) && Successor(m, gone, x, y)
    requires r == if y == m.nodes[x].next then None else Some(m.nodes[y].value)
    requires forall c :: c in m.nodes ==> c in m'.nodes && m'.nodes[c].value == m.nodes[c].value
    requires forall c ::
      Carries(m', g, u, j, c)
      <==> (c != x && Carries(m, gone, u, j, c)) || (c == y && c in gone && c != 0 && u == t && j == m.nodes[x].key)
    ensures Get(m', g, u, j) == if u == t && j == m.nodes[x].key then r else Get(m, gone, u, j)
  {
    assert NodeOk(m, gone, x);
    if u == t && j == m.nodes[x].key {
      if r == None { GetNone(m', g, t, j); } else { GetPresent(m', g, t, j, y); }
    } else {
      GetSame(m, gone, m', g, u, j);
    }
  }

  lemma UnlinkEffect(m: Mem, gone: set<Ptr>, t: Ptr, i: nat, prev: Ptr, x: Ptr)
    requires MemOk(m, gone) && LinkTo(m, gone, t, i, prev, x)
    ensures Effect(m, gone, Unlink(m, t, i, prev, x), gone + {x}, t, m.nodes[x].key, None)
  {
    var y := m.nodes[x].next;
    assert NodeOk(m, gone, x);
    forall c | c in m.nodes ensures NodeOk(m, gone, c) && c != 0 {}
    forall u | u in m.tables ensures TableOk(m, gone, u) && u != 0 {}
    RelinkEffect(m, gone, t, i, prev, x, y, None);
    RelinkRanked(m, gone, t, i, prev, x, y);
    assert gone + {x} - {y} == gone + {x};
  }

  lemma CopyEffect(m: Mem, gone: set<Ptr>, x: Ptr, v: Value, u: Ptr, j: Key)
    requires MemOk(m, gone) && x in m.nodes && u in m.tables
    requires MemOk(Alloc(m, m.nodes[x].(value := v)), gone + {m.top}) && m.top !in m.nodes
    ensures Get(Alloc(m, m.nodes[x].(value := v)), gone + {m.top}, u, j) == Get(m, gone, u, j)
  {
    GetSame(m, gone, Alloc(m, m.nodes[x].(value := v)), gone + {m.top}, u, j);
  }

  lemma ReplaceEffect(m: Mem, gone: set<Ptr>, t: Ptr, i: nat, prev: Ptr, x: Ptr, v: Value)
    requires MemOk(m, gone) && LinkTo(m, gone, t, i, prev, x)
    ensures Effect(m, gone, Replace(m, t, i, prev, x, v), gone + {x}, t, m.nodes[x].key, Some(v))
    ensures m.top !in m.nodes && m.top !in m.tables && m.top !in gone
  {
    var n, a := m.nodes[x].(value := v), m.top;
    var m1, g1, m', k := Alloc(m, n), gone + {a}, Replace(m, t, i, prev, x, v), m.nodes[x].key;
    CopyReady(m, gone, t, i, prev, x, v);
    RelinkEffect(m1, g1, t, i, prev, x, a, Some(v));
    assert g1 + {x} - {a} == gone + {x};
    forall u, j | u in m.tables
      ensures Get(m', gone + {x}, u, j) == if u == t && j == k then Some(v) else Get(m, gone, u, j)
    {
      CopyEffect(m, gone, x, v, u, j);
    }
    WalkCompose(m.nodes, m1.nodes, m'.nodes, k, Some(v));
  }

  /** The copy is in memory, not linked yet, and may take the place of `x`. */
  lemma CopyReady(m: Mem, gone: set<Ptr>, t: Ptr, i: nat, prev: Ptr, x: Ptr, v: Value)
    requires MemOk(m, gone) && LinkTo(m, gone, t, i, prev, x)
    ensures var n, g1 := m.nodes[x].(value := v), gone + {m.top};
            && m.top !in m.nodes && m.top !in m.tables && m.top !in gone
            && MemOk(Alloc(m, n), g1) && SameWalks(m.nodes, Alloc(m, n).nodes)
            && LinkTo(Alloc(m, n), g1, t, i, prev, x) && Successor(Alloc(m, n), g1, x, m.top)
  {
    var n := m.nodes[x].(value := v);
    assert NodeOk(m, gone, x);
    if n.next != 0 { assert NodeOk(m, gone, n.next); }
    TopIsNew(m, gone);
    AllocOk(m, gone, n);
  }

  lemma WalkCompose(ns: Nodes, ns1: Nodes, ns': Nodes, k: Key, r: Option<Value>)
    requires Ranked(ns) && Ranked(ns1) && Ranked(ns') && SameWalks(ns, ns1) && WalkEffect(ns1, ns', k, r)
    ensures WalkEffect(ns, ns', k, r)
  {
    forall c, j | IsPtr(ns, c) ensures Lookup(ns', c, j) == Lookup(ns, c, j) || (j == k && Lookup(ns', c, j) == r) {
      assert Lookup(ns1, c, j) == Lookup(ns, c, j);
    }
  }

  // ---------------------------------------------------------------- how long walks are

  lemma {:induction false} LengthAlloc(ns: Nodes, a: Ptr, n: Node, c: Ptr)
    requires Ranked(ns) && a !in ns && Ranked(ns[a := n]) && IsPtr(ns, c)
    ensures Length(ns[a := n], c) == Length(ns, c)
    decreases Height(ns, c)
  {
    if c != 0 { LengthAlloc(ns, a, n, ns[c].next); }
  }

  lemma {:induction false} LengthBelow(ns: Nodes, p: Ptr, n: Node, c: Ptr)
    requires Ranked(ns) && p in ns && n.rank == ns[p].rank && Ranked(ns[p := n])
    requires IsPtr(ns, c) && Height(ns, c) <= ns[p].rank
    ensures Length(ns[p := n], c) == Length(ns, c)
    decreases Height(ns, c)
  {
    if c != 0 { LengthBelow(ns, p, n, ns[c].next); }
  }

  /** Splicing a node out shortens every chain through it by one node, linked or not; replacing it shortens none. */
  lemma {:induction false} LengthSpliced(ns: Nodes, p: Ptr, x: Ptr, y: Ptr, c: Ptr)
    requires Splice(ns, p, x, y) && IsPtr(ns, c)
    requires Ranked(Spliced(ns, p, y)) && IsPtr(ns, y)
    ensures Length(Spliced(ns, p, y), c)
            == Length(ns, c) - (if y == ns[x].next && OnChain(ns, c, p) then 1 else 0)
    decreases Height(ns, c)
  {
    if c == p {
      LengthBelow(ns, p, ns[p].(next := y), y);
    } else if c != 0 {
      LengthSpliced(ns, p, x, y, ns[c].next);
    }
  }

  /** From no node on are there more nodes than before. */
  ghost predicate NoLonger(ns: Nodes, ns': Nodes) {
    && Ranked(ns) && Ranked(ns')
    && forall c :: IsPtr(ns, c) ==> IsPtr(ns', c) && Length(ns', c) <= Length(ns, c)
  }

  lemma InsertLength(m: Mem, gone: set<Ptr>, t: Ptr, k: Key, v: Value)
    requires MemOk(m, gone) && t in m.tables && |m.tables[t]| > 0
    ensures NoLonger(m.nodes, Insert(m, t, k, v).nodes)
  {
    var n := Node(k, v, Head(m, t, k), m.top, t);
    TopIsNew(m, gone);
    assert TableOk(m, gone, t) && BucketOk(m, gone, t, Bucket(m, t, k));
    if n.next != 0 { assert NodeOk(m, gone, n.next); }
    assert Insert(m, t, k, v).nodes == m.nodes[m.top := n];
    forall c | IsPtr(m.nodes, c) ensures Length(m.nodes[m.top := n], c) == Length(m.nodes, c) {
      LengthAlloc(m.nodes, m.top, n, c);
    }
  }

  lemma RelinkLength(m: Mem, gone: set<Ptr>, t: Ptr, i: nat, prev: Ptr, x: Ptr, y: Ptr)
    requires MemOk(m, gone) && LinkTo(m, gone, t, i, prev, x) && Successor(m, gone, x, y)
    ensures NoLonger(m.nodes, SetLink(m, t, i, prev, y).nodes)
  {
    RelinkRanked(m, gone, t, i, prev, x, y);
    if prev != 0 {
      forall c | IsPtr(m.nodes, c) ensures Length(Spliced(m.nodes, prev, y), c) <= Length(m.nodes, c) {
        LengthSpliced(m.nodes, prev, x, y, c);
      }
    }
  }

  lemma UnlinkLength(m: Mem, gone: set<Ptr>, t: Ptr, i: nat, prev: Ptr, x: Ptr)
    requires MemOk(m, gone) && LinkTo(m, gone, t, i, prev, x)
    ensures NoLonger(m.nodes, Unlink(m, t, i, prev, x).nodes)
  {
    assert NodeOk(m, gone, x);
    RelinkLength(m, gone, t, i, prev, x, m.nodes[x].next);
  }

  lemma ReplaceLength(m: Mem, gone: set<Ptr>, t: Ptr, i: nat, prev: Ptr, x: Ptr, v: Value)
    requires MemOk(m, gone) && LinkTo(m, gone, t, i, prev, x)
    ensures NoLonger(m.nodes, Replace(m, t, i, prev, x, v).nodes)
  {
    var n := m.nodes[x].(value := v);
    CopyReady(m, gone, t, i, prev, x, v);
    RelinkLength(Alloc(m, n), gone + {m.top}, t, i, prev, x, m.top);
    forall c | IsPtr(m.nodes, c) ensures Length(Alloc(m, n).nodes, c) == Length(m.nodes, c) {
      LengthAlloc(m.nodes, m.top, n, c);
    }
  }

  // ---------------------------------------------------------------- walking to a key

  /** A writer's walk stands at a link of the bucket of `k`, with `k` not found so far. */
  ghost predicate Walking(m: Mem, gone: set<Ptr>, t: Ptr, k: Key, prev: Ptr, cur: Ptr)
    requires MemOk(m, gone)
  {
    && t in m.tables && |m.tables[t]| > 0 && IsPtr(m.nodes, cur)
    && (cur != 0 ==> LinkTo(m, gone, t, Bucket(m, t, k), prev, cur))
    && (prev != 0 ==> prev in m.nodes)
    && Lookup(m.nodes, cur, k) == Get(m, gone, t, k)
  }

  lemma WalkBegins(m: Mem, gone: set<Ptr>, t: Ptr, k: Key)
    requires MemOk(m, gone) && t in m.tables && |m.tables[t]| > 0
    ensures Walking(m, gone, t, k, 0, Head(m, t, k))
  {
    assert TableOk(m, gone, t) && BucketOk(m, gone, t, Bucket(m, t, k));
  }

  lemma WalkAdvances(m: Mem, gone: set<Ptr>, t: Ptr, k: Key, prev: Ptr, cur: Ptr)
    requires MemOk(m, gone) && Walking(m, gone, t, k, prev, cur) && cur != 0 && m.nodes[cur].key != k
    ensures Walking(m, gone, t, k, cur, m.nodes[cur].next)
    ensures Height(m.nodes, m.nodes[cur].next) < Height(m.nodes, cur)
  {
    assert NodeOk(m, gone, cur);
    if m.nodes[cur].next != 0 { assert NodeOk(m, gone, m.nodes[cur].next); }
  }

  // ---------------------------------------------------------------- copying a table

  /** Node `c` of the old table is still to be copied when `at` buckets are loaded and the copy stands at `cur`. */
  ghost predicate Ahead(m: Mem, src: Ptr, at: nat, cur: Ptr, c: Ptr) {
    && Ranked(m.nodes) && IsPtr(m.nodes, cur) && src in m.tables && |m.tables[src]| > 0
    && c in m.nodes
    && (Bucket(m, src, m.nodes[c].key) >= at || OnChain(m.nodes, cur, c))
  }

  /** Table `into` holds exactly the entries of `src` whose nodes are not ahead. */
  ghost predicate CopyOk(m: Mem, gone: set<Ptr>, src: Ptr, into: Ptr, at: nat, cur: Ptr)
    requires MemOk(m, gone)
  {
    && src in m.tables && into in m.tables && into !in gone && into != src && |m.tables[src]| > 0
    && |m.tables[into]| == 2 * |m.tables[src]| && at <= |m.tables[src]|
    && (cur != 0 ==>
          && cur in m.nodes && cur !in gone && m.nodes[cur].home == src
          && Bucket(m, src, m.nodes[cur].key) == at - 1)
    && (forall k :: Get(m, gone, into, k) == None || Get(m, gone, into, k) == Get(m, gone, src, k))
    && (forall c :: c in m.nodes && c !in gone && m.nodes[c].home == src ==>
          (Get(m, gone, into, m.nodes[c].key) == None <==> Ahead(m, src, at, cur, c)))
  }

  lemma CopyBegins(m: Mem, gone: set<Ptr>, src: Ptr)
    requires MemOk(m, gone) && src in m.tables && |m.tables[src]| > 0
    ensures MemOk(NewTable(m, 2 * |m.tables[src]|), gone)
    ensures CopyOk(NewTable(m, 2 * |m.tables[src]|), gone, src, m.top, 0, 0)
  {
    NewTableOk(m, gone, 2 * |m.tables[src]|);
  }

  /** Setting of one copy: node `cur` of the old table goes into the new one. */
  ghost predicate Copies(m: Mem, m': Mem, gone: set<Ptr>, src: Ptr, into: Ptr, at: nat, cur: Ptr) {
    && MemOk(m, gone) && MemOk(m', gone) && CopyOk(m, gone, src, into, at, cur) && cur != 0
    && m' == Insert(m, into, m.nodes[cur].key, m.nodes[cur].value)
    && MapEffect(m, gone, m', gone, into, m.nodes[cur].key, Some(m.nodes[cur].value))
  }

  lemma CopyPossible(m: Mem, gone: set<Ptr>, src: Ptr, into: Ptr, at: nat, cur: Ptr)
    requires MemOk(m, gone) && CopyOk(m, gone, src, into, at, cur) && cur != 0
    ensures Copies(m, Insert(m, into, m.nodes[cur].key, m.nodes[cur].value), gone, src, into, at, cur)
    ensures SameWalks(m.nodes, Insert(m, into, m.nodes[cur].key, m.nodes[cur].value).nodes)
  {
    assert Ahead(m, src, at, cur, cur);
    InsertEffect(m, gone, into, m.nodes[cur].key, m.nodes[cur].value);
  }

  lemma CopyAheadOf(m: Mem, m': Mem, gone: set<Ptr>, src: Ptr, into: Ptr, at: nat, cur: Ptr, c: Ptr)
    requires Copies(m, m', gone, src, into, at, cur) && c in m.nodes && m.top !in m.nodes
    ensures Ahead(m', src, at, m.nodes[cur].next, c) <==> (c != cur && Ahead(m, src, at, cur, c))
  {
    var next := m.nodes[cur].next;
    assert NodeOk(m, gone, cur);
    OnChainAlloc(m.nodes, m.top, m'.nodes[m.top], next, c);
    if c == cur && OnChain(m.nodes, next, cur) { ChainRank(m.nodes, next, cur); }
  }

  lemma CopiedOrAhead(m: Mem, m': Mem, gone: set<Ptr>, src: Ptr, into: Ptr, at: nat, cur: Ptr, c: Ptr)
    requires Copies(m, m', gone, src, into, at, cur)
    requires c in m'.nodes && c !in gone && m'.nodes[c].home == src
    ensures Get(m', gone, into, m'.nodes[c].key) == None <==> Ahead(m', src, at, m.nodes[cur].next, c)
  {
    TopIsNew(m, gone);
    assert c in m.nodes && m'.nodes[c] == m.nodes[c];
    CopyAheadOf(m, m', gone, src, into, at, cur, c);
    assert Get(m, gone, into, m.nodes[c].key) == None <==> Ahead(m, src, at, cur, c);
  }

  lemma CopiedSubset(m: Mem, m': Mem, gone: set<Ptr>, src: Ptr, into: Ptr, at: nat, cur: Ptr, k: Key)
    requires Copies(m, m', gone, src, into, at, cur)
    ensures Get(m', gone, into, k) == None || Get(m', gone, into, k) == Get(m', gone, src, k)
  {
    assert Carries(m, gone, src, m.nodes[cur].key, cur);
    GetPresent(m, gone, src, m.nodes[cur].key, cur);
  }

  lemma CopyAdvances(m: Mem, m': Mem, gone: set<Ptr>, src: Ptr, into: Ptr, at: nat, cur: Ptr)
    requires Copies(m, m', gone, src, into, at, cur)
    ensures CopyOk(m', gone, src, into, at, m.nodes[cur].next)
  {
    var x := m.nodes[cur];
    assert NodeOk(m, gone, cur);
    TopIsNew(m, gone);
    if x.next != 0 { assert NodeOk(m, gone, x.next); }
    forall k ensures Get(m', gone, into, k) == None || Get(m', gone, into, k) == Get(m', gone, src, k) {
      CopiedSubset(m, m', gone, src, into, at, cur, k);
    }
    forall c | c in m'.nodes && c !in gone && m'.nodes[c].home == src
      ensures Get(m', gone, into, m'.nodes[c].key) == None <==> Ahead(m', src, at, x.next, c)
    {
      CopiedOrAhead(m, m', gone, src, into, at, cur, c);
    }
  }

  lemma CopyLoads(m: Mem, gone: set<Ptr>, src: Ptr, into: Ptr, at: nat)
    requires MemOk(m, gone) && CopyOk(m, gone, src, into, at, 0) && at < |m.tables[src]|
    ensures CopyOk(m, gone, src, into, at + 1, m.tables[src][at])
  {
    var h := m.tables[src][at];
    assert TableOk(m, gone, src) && BucketOk(m, gone, src, at);
    forall c | c in m.nodes && c !in gone && m.nodes[c].home == src
      ensures Ahead(m, src, at + 1, h, c) <==> Ahead(m, src, at, 0, c)
    {
      assert Attached(m, gone, c);
      if h != 0 && OnChain(m.nodes, h, c) { ChainBucket(m, gone, h, c); }
    }
  }

  /** When every bucket has been copied the new table holds what the old one holds. */
  lemma CopyDone(m: Mem, gone: set<Ptr>, src: Ptr, into: Ptr, at: nat, k: Key)
    requires MemOk(m, gone) && CopyOk(m, gone, src, into, at, 0) && at >= |m.tables[src]|
    ensures Get(m, gone, into, k) == Get(m, gone, src, k)
  {
    if c :| Carries(m, gone, src, k, c) {
      assert !Ahead(m, src, at, 0, c);
    } else {
      GetNone(m, gone, src, k);
    }
  }
}
