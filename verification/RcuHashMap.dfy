/**
 RcuHashMap with one caller at a time: the chain-walking loops of Get, Put, Remove, Resize and ~Table, proved
 to implement a finite map.
 */
module RcuHashMap {
  import opened Prelude
  import opened RcuMemory
  import opened RcuMachine

  predicate Distinct(s: seq<Ptr>) { forall i, j :: 0 <= i < j < |s| ==> s[i] != s[j] }

  class HashMap {
    var mem: Mem
    var table: Ptr
    var count: nat
    var retired: seq<Ptr>        // what has been handed to Retire, in order
    ghost var contents: map<Key, Value>

    ghost function Gone(): set<Ptr>
      reads this
    {
      set p | p in retired
    }

    ghost predicate Valid()
      reads this
    {
      && MemOk(mem, Gone()) && table in mem.tables && table !in Gone() && |mem.tables[table]| > 0
      && (forall k :: Get(mem, Gone(), table, k) == Entry(contents, k))
      && count == |contents| && count <= |mem.tables[table]|
      && Distinct(retired)
    }

    /** A map with no buckets can be built, but not used: its first bucket index would be a remainder by 0. */
    constructor (hash: Key -> nat, initialBuckets: nat)
      ensures Valid() <==> initialBuckets > 0
      ensures contents == map[] && retired == [] && count == 0
      ensures table in mem.tables && |mem.tables[table]| == initialBuckets
    {
      mem := Mem(hash, map[], map[1 := seq(initialBuckets, _ => 0)], 2);
      table := 1;
      count := 0;
      retired := [];
      contents := map[];
      new;
      if initialBuckets > 0 {
        assert TableOk(mem, Gone(), 1);
        assert MemOk(mem, Gone());
      }
    }

    method Find(key: Key) returns (r: Option<Value>)
      requires Valid()
      ensures r == Entry(contents, key)
    {
      WalkBegins(mem, Gone(), table, key);
      var current := Head(mem, table, key);
      ghost var prev: Ptr := 0;
      assert Get(mem, Gone(), table, key) == Entry(contents, key);
      while current != 0
        invariant Walking(mem, Gone(), table, key, prev, current)
        decreases Height(mem.nodes, current)
      {
        if mem.nodes[current].key == key {
          return Some(mem.nodes[current].value);
        }
        WalkAdvances(mem, Gone(), table, key, prev, current);
        prev := current;
        current := mem.nodes[current].next;
      }
      return None;
    }

    /** The loop Put and Remove share: the link to the node for `key`, or null after the whole chain. */
    method Seek(key: Key) returns (prev: Ptr, current: Ptr)
      requires Valid()
      ensures Walking(mem, Gone(), table, key, prev, current)
      ensures current == 0 <==> key !in contents
      ensures current != 0 ==> mem.nodes[current].key == key
    {
      WalkBegins(mem, Gone(), table, key);
      current := Head(mem, table, key);
      prev := 0;
      assert Get(mem, Gone(), table, key) == Entry(contents, key);
      while current != 0 && mem.nodes[current].key != key
        invariant Walking(mem, Gone(), table, key, prev, current)
        decreases Height(mem.nodes, current)
      {
        WalkAdvances(mem, Gone(), table, key, prev, current);
        prev := current;
        current := mem.nodes[current].next;
      }
    }

    method Retire(p: Ptr)
      requires p !in retired
      requires Distinct(retired)
      modifies this`retired
      ensures retired == old(retired) + [p] && Gone() == old(Gone()) + {p}
      ensures Distinct(retired)
    {
      retired := retired + [p];
    }

    method Resize(newSize: nat)
      requires Valid() && newSize == 2 * |mem.tables[table]|
      modifies this
      ensures Valid() && contents == old(contents) && count == old(count)
      ensures table != old(table) && |mem.tables[table]| == newSize
      ensures retired == old(retired) + [old(table)]
    {
      var oldTable, newTable := table, mem.top;
      CopyBegins(mem, Gone(), oldTable);
      TopIsNew(mem, Gone());
      NewTableOk(mem, Gone(), newSize);
      mem := NewTable(mem, newSize);
      var i := 0;
      while i < |mem.tables[oldTable]|
        invariant MemOk(mem, Gone()) && CopyOk(mem, Gone(), oldTable, newTable, i, 0)
        invariant table == oldTable && count == old(count) && contents == old(contents) && retired == old(retired)
        invariant |mem.tables[oldTable]| == |old(mem.tables[table])|
        invariant forall k :: Get(mem, Gone(), oldTable, k) == Entry(contents, k)
        decreases |mem.tables[oldTable]| - i
      {
        CopyLoads(mem, Gone(), oldTable, newTable, i);
        var curr := mem.tables[oldTable][i];
        i := i + 1;
        CopyChain(oldTable, newTable, i, curr);
      }
      forall k ensures Get(mem, Gone(), newTable, k) == Entry(contents, k) {
        CopyDone(mem, Gone(), oldTable, newTable, i, k);
      }
      GoneTableOk(mem, Gone(), oldTable);
      ghost var g := Gone();
      table := newTable;
      Retire(oldTable);
      assert Gone() == g + {oldTable};
    }

    /** The inner loop of Resize: one chain of the old table. */
    method CopyChain(oldTable: Ptr, newTable: Ptr, at: nat, head: Ptr)
      requires MemOk(mem, Gone()) && CopyOk(mem, Gone(), oldTable, newTable, at, head)
      requires forall k :: Get(mem, Gone(), oldTable, k) == Entry(contents, k)
      modifies this`mem
      ensures MemOk(mem, Gone()) && CopyOk(mem, Gone(), oldTable, newTable, at, 0)
      ensures |mem.tables[oldTable]| == old(|mem.tables[oldTable]|)
      ensures forall k :: Get(mem, Gone(), oldTable, k) == Entry(contents, k)
    {
      var curr := head;
      while curr != 0
        invariant MemOk(mem, Gone()) && CopyOk(mem, Gone(), oldTable, newTable, at, curr)
        invariant |mem.tables[oldTable]| == old(|mem.tables[oldTable]|)
        invariant forall k :: Get(mem, Gone(), oldTable, k) == Entry(contents, k)
        decreases Height(mem.nodes, curr)
      {
        curr := CopyOne(oldTable, newTable, at, curr);
      }
    }

    /** One turn of the copying loop. */
    method CopyOne(oldTable: Ptr, newTable: Ptr, at: nat, curr: Ptr) returns (next: Ptr)
      requires MemOk(mem, Gone()) && CopyOk(mem, Gone(), oldTable, newTable, at, curr) && curr != 0
      requires forall k :: Get(mem, Gone(), oldTable, k) == Entry(contents, k)
      modifies this`mem
      ensures MemOk(mem, Gone()) && CopyOk(mem, Gone(), oldTable, newTable, at, next)
      ensures |mem.tables[oldTable]| == old(|mem.tables[oldTable]|)
      ensures forall k :: Get(mem, Gone(), oldTable, k) == Entry(contents, k)
      ensures IsPtr(old(mem.nodes), next) && Height(mem.nodes, next) < old(Height(mem.nodes, curr))
    {
      ghost var m := mem;
      CopyPossible(mem, Gone(), oldTable, newTable, at, curr);
      mem := Insert(mem, newTable, mem.nodes[curr].key, mem.nodes[curr].value);
      CopyAdvances(m, mem, Gone(), oldTable, newTable, at, curr);
      next := mem.nodes[curr].next;
      assert NodeOk(m, Gone(), curr);
    }

    method Put(key: Key, value: Value)
      requires Valid()
      modifies this
      ensures Valid() && contents == old(contents)[key := value]
      ensures |mem.tables[table]|
              == old(if count >= |mem.tables[table]| then 2 * |mem.tables[table]| else |mem.tables[table]|)
      ensures |retired| == |old(retired)| + old(if count >= |mem.tables[table]| then 1 else 0)
              + old(if key in contents then 1 else 0)
      ensures old(retired) <= retired
      ensures old(count >= |mem.tables[table]|) ==> retired[|old(retired)|] == old(table)
      ensures key in old(contents) ==> Carried(mem, retired[|retired| - 1], key, old(contents)[key])
    {
      if count >= |mem.tables[table]| {
        Resize(2 * |mem.tables[table]|);
      }
      var prev, current := Seek(key);
      if current != 0 {
        Overwrite(key, value, prev, current);
      } else {
        Add(key, value);
      }
    }

    method Overwrite(key: Key, value: Value, prev: Ptr, current: Ptr)
      requires Valid() && Walking(mem, Gone(), table, key, prev, current) && current != 0
               && mem.nodes[current].key == key
      modifies this
      ensures Valid() && contents == old(contents)[key := value]
      ensures retired == old(retired) + [current] && |mem.tables[table]| == old(|mem.tables[table]|)
      ensures key in old(contents) && Carried(mem, current, key, old(contents)[key])
    {
      ghost var m, g := mem, Gone();
      assert Get(mem, g, table, key) == Entry(contents, key);
      TakenOut(m, g, table, key, prev, current, value, contents);
      ReplaceEffect(mem, g, table, Bucket(mem, table, key), prev, current, value);
      contents := contents[key := value];
      mem := Replace(mem, table, Bucket(mem, table, key), prev, current, value);
      assert NodeOk(m, g, current);
      Retire(current);
    }

    method Add(key: Key, value: Value)
      requires Valid() && key !in contents && count < |mem.tables[table]|
      modifies this
      ensures Valid() && contents == old(contents)[key := value]
      ensures retired == old(retired) && |mem.tables[table]| == old(|mem.tables[table]|)
    {
      ghost var m, g := mem, Gone();
      assert Get(mem, g, table, key) == Entry(contents, key);
      InsertEffect(mem, g, table, key, value);
      contents := contents[key := value];
      mem := Insert(mem, table, key, value);
      count := count + 1;
    }

    method Remove(key: Key) returns (removed: bool)
      requires Valid()
      modifies this
      ensures Valid() && contents == old(contents) - {key}
      ensures removed <==> key in old(contents)
      ensures |retired| == |old(retired)| + (if removed then 1 else 0) && old(retired) <= retired
      ensures removed ==> Carried(mem, retired[|retired| - 1], key, old(contents)[key])
    {
      var prev, current := Seek(key);
      if current == 0 {
        assert contents - {key} == contents;
        return false;
      }
      Cut(key, prev, current);
      return true;
    }

    method Cut(key: Key, prev: Ptr, current: Ptr)
      requires Valid() && Walking(mem, Gone(), table, key, prev, current) && current != 0
               && mem.nodes[current].key == key
      modifies this
      ensures Valid() && contents == old(contents) - {key}
      ensures retired == old(retired) + [current]
      ensures key in old(contents) && Carried(mem, current, key, old(contents)[key])
    {
      ghost var m, g := mem, Gone();
      assert Get(mem, g, table, key) == Entry(contents, key);
      TakenOut(m, g, table, key, prev, current, m.nodes[current].value, contents);
      UnlinkEffect(mem, g, table, Bucket(mem, table, key), prev, current);
      assert NodeOk(m, g, current);
      contents := contents - {key};
      mem := Unlink(mem, table, Bucket(mem, table, key), prev, current);
      count := count - 1;
      Retire(current);
    }

    method Size() returns (n: nat)
      requires Valid()
      ensures n == |contents|
    {
      n := count;
    }

    /** The inner loop of ~Table: a node's `next` is read before the node is deleted. */
    method DeleteChain(head: Ptr) returns (deleted: seq<Ptr>)
      requires Ranked(mem.nodes) && IsPtr(mem.nodes, head)
      ensures deleted == Chain(mem.nodes, head)
    {
      deleted := [];
      var curr := head;
      while curr != 0
        invariant IsPtr(mem.nodes, curr) && deleted + Chain(mem.nodes, curr) == Chain(mem.nodes, head)
        decreases Height(mem.nodes, curr)
      {
        var next := mem.nodes[curr].next;
        deleted := deleted + [curr];
        curr := next;
      }
    }

    /** The outer loop of ~Table. */
    method DeleteBuckets(b: seq<Ptr>) returns (deleted: seq<Ptr>)
      requires Heads(mem.nodes, b)
      ensures deleted == TableNodes(mem.nodes, b)
    {
      deleted := [];
      var i := 0;
      while i < |b|
        invariant 0 <= i <= |b| && deleted == TableNodes(mem.nodes, b[..i])
      {
        assert b[..i + 1][..i] == b[..i];
        var chain := DeleteChain(b[i]);
        deleted := deleted + chain;
        i := i + 1;
      }
      assert b[..|b|] == b;
    }

    /** ~Table: every node made for the table and not unlinked since is deleted, once. */
    method DestroyTable(t: Ptr) returns (deleted: seq<Ptr>)
      requires Valid() && t in mem.tables
      ensures Heads(mem.nodes, mem.tables[t]) && deleted == TableNodes(mem.nodes, mem.tables[t])
      ensures Distinct(deleted)
      ensures forall c :: c in deleted <==> c in mem.nodes && mem.nodes[c].home == t && c !in Gone()
    {
      TableHeads(mem, Gone(), t);
      deleted := DeleteBuckets(mem.tables[t]);
      TableNodesOnce(mem, Gone(), t);
    }
  }

  /** Node `p` is the one that held `key` and `value`. */
  ghost predicate Carried(m: Mem, p: Ptr, key: Key, value: Value) {
    p in m.nodes && m.nodes[p].key == key && m.nodes[p].value == value
  }

  /** The node that a writer found is the map's, and stays readable after it is replaced or unlinked. */
  lemma TakenOut(m: Mem, gone: set<Ptr>, t: Ptr, key: Key, prev: Ptr, x: Ptr, v: Value, c: map<Key, Value>)
    requires MemOk(m, gone) && Walking(m, gone, t, key, prev, x) && x != 0 && m.nodes[x].key == key
    requires Get(m, gone, t, key) == Entry(c, key)
    ensures key in c
    ensures Carried(Replace(m, t, Bucket(m, t, key), prev, x, v), x, key, c[key])
    ensures Carried(Unlink(m, t, Bucket(m, t, key), prev, x), x, key, c[key])
  {
    TopIsNew(m, gone);
    assert prev != 0 ==> m.nodes[x].rank < m.nodes[prev].rank;
  }

  /** The nodes from `c` on, in order. */
  ghost function Chain(ns: Nodes, c: Ptr): (r: seq<Ptr>)
    requires Ranked(ns) && IsPtr(ns, c)
    ensures forall d :: d in r <==> OnChain(ns, c, d)
    ensures forall i :: 0 <= i < |r| ==> r[i] in ns && (i > 0 ==> c in ns && ns[r[i]].rank < ns[c].rank)
    decreases Height(ns, c)
  {
    if c == 0 then [] else [c] + Chain(ns, ns[c].next)
  }

  ghost predicate Heads(ns: Nodes, b: seq<Ptr>) {
    Ranked(ns) && forall i :: 0 <= i < |b| ==> IsPtr(ns, b[i])
  }

  ghost function TableNodes(ns: Nodes, b: seq<Ptr>): seq<Ptr>
    requires Heads(ns, b)
  {
    if b == [] then [] else TableNodes(ns, b[..|b| - 1]) + Chain(ns, b[|b| - 1])
  }

  lemma TableHeads(m: Mem, gone: set<Ptr>, t: Ptr)
    requires MemOk(m, gone) && t in m.tables
    ensures Heads(m.nodes, m.tables[t]) && |m.tables[t]| > 0
  {
    assert TableOk(m, gone, t);
    forall i | 0 <= i < |m.tables[t]| ensures IsPtr(m.nodes, m.tables[t][i]) { assert BucketOk(m, gone, t, i); }
  }

  lemma {:induction false} ChainDistinct(ns: Nodes, c: Ptr)
    requires Ranked(ns) && IsPtr(ns, c)
    ensures Distinct(Chain(ns, c))
    decreases Height(ns, c)
  {
    if c != 0 { ChainDistinct(ns, ns[c].next); }
  }

  lemma {:induction false} ChainLength(ns: Nodes, c: Ptr)
    requires Ranked(ns) && IsPtr(ns, c)
    ensures |Chain(ns, c)| == Length(ns, c)
    decreases Height(ns, c)
  {
    if c != 0 { ChainLength(ns, ns[c].next); }
  }

  /** The nodes of the first `n` buckets are the nodes that hash to them, each once. */
  lemma {:induction false} BucketsOnce(m: Mem, gone: set<Ptr>, t: Ptr, n: nat)
    requires MemOk(m, gone) && t in m.tables && |m.tables[t]| > 0 && n <= |m.tables[t]| && Heads(m.nodes, m.tables[t])
    ensures Distinct(TableNodes(m.nodes, m.tables[t][..n]))
    ensures forall c :: c in TableNodes(m.nodes, m.tables[t][..n]) <==> InBuckets(m, gone, t, n, c)
  {
    var b := m.tables[t];
    if n > 0 {
      BucketsOnce(m, gone, t, n - 1);
      var r0, r1 := TableNodes(m.nodes, b[..n - 1]), Chain(m.nodes, b[n - 1]);
      assert b[..n][..n - 1] == b[..n - 1];
      assert TableNodes(m.nodes, b[..n]) == r0 + r1;
      ChainDistinct(m.nodes, b[n - 1]);
      forall c ensures c in r1 <==> InBuckets(m, gone, t, n, c) && !InBuckets(m, gone, t, n - 1, c) {
        BucketChain(m, gone, t, n - 1, c);
      }
      AppendDistinct(r0, r1);
    }
  }

  lemma AppendDistinct(a: seq<Ptr>, b: seq<Ptr>)
    requires Distinct(a) && Distinct(b) && forall c :: c in b ==> c !in a
    ensures Distinct(a + b)
  {
    forall i, j | 0 <= i < j < |a + b| ensures (a + b)[i] != (a + b)[j] {
      if i < |a| <= j { assert (a + b)[j] in b; }
    }
  }

  ghost predicate InBuckets(m: Mem, gone: set<Ptr>, t: Ptr, n: nat, c: Ptr)
    requires t in m.tables && |m.tables[t]| > 0
  {
    c in m.nodes && c !in gone && m.nodes[c].home == t && Bucket(m, t, m.nodes[c].key) < n
  }

  lemma BucketChain(m: Mem, gone: set<Ptr>, t: Ptr, i: nat, c: Ptr)
    requires MemOk(m, gone) && t in m.tables && |m.tables[t]| > 0 && i < |m.tables[t]|
    ensures IsPtr(m.nodes, m.tables[t][i])
    ensures OnChain(m.nodes, m.tables[t][i], c)
       <==> (c in m.nodes && c !in gone && m.nodes[c].home == t && Bucket(m, t, m.nodes[c].key) == i)
  {
    assert TableOk(m, gone, t) && BucketOk(m, gone, t, i);
    if OnChain(m.nodes, m.tables[t][i], c) {
      ChainLive(m, gone, m.tables[t][i], c);
      ChainBucket(m, gone, m.tables[t][i], c);
    } else if c in m.nodes {
      assert Attached(m, gone, c);
    }
  }

  /** A table's destructor meets every node made for the table and not unlinked since, once. */
  lemma TableNodesOnce(m: Mem, gone: set<Ptr>, t: Ptr)
    requires MemOk(m, gone) && t in m.tables && Heads(m.nodes, m.tables[t])
    ensures
      var r := TableNodes(m.nodes, m.tables[t]);
      && Distinct(r)
      && (forall c :: c in r <==> c in m.nodes && m.nodes[c].home == t && c !in gone)
  {
    TableHeads(m, gone, t);
    assert m.tables[t][..|m.tables[t]|] == m.tables[t];
    BucketsOnce(m, gone, t, |m.tables[t]|);
  }

  /** Every key of the map sits in exactly one node, and that node is on the chain of bucket `hash % size`. */
  lemma KeyOnce(m: Mem, gone: set<Ptr>, t: Ptr, k: Key, i: nat, c: Ptr, j: nat, d: Ptr)
    requires MemOk(m, gone) && t in m.tables && i < |m.tables[t]| && j < |m.tables[t]|
    requires IsPtr(m.nodes, m.tables[t][i]) && OnChain(m.nodes, m.tables[t][i], c) && c in m.nodes
             && m.nodes[c].key == k
    requires IsPtr(m.nodes, m.tables[t][j]) && OnChain(m.nodes, m.tables[t][j], d) && d in m.nodes
             && m.nodes[d].key == k
    ensures c == d && i == j == m.hash(k) % |m.tables[t]|
    ensures Get(m, gone, t, k) == Some(m.nodes[c].value)
  {
    BucketChain(m, gone, t, i, c);
    BucketChain(m, gone, t, j, d);
    assert Carries(m, gone, t, k, c);
    GetPresent(m, gone, t, k, c);
  }
}
