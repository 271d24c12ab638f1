/**
 GeneratePointerChaseRing (common/measurement/entropy_generator.h): whatever the shuffle does to the order of the
 slots behind slot 0, following the table from 0 visits every slot once and then comes back.
 */
module PointerChase {
  const INT_MAX: nat := 0x7FFF_FFFF

  /** `order` lists the slots below n once each, slot 0 first; `place` says where each slot stands in it. */
  ghost predicate Orders(order: seq<nat>, place: seq<nat>, n: nat) {
    && |order| == |place| == n > 0 && order[0] == 0
    && (forall i :: 0 <= i < n ==> order[i] < n && place[order[i]] == i)
    && (forall j :: 0 <= j < n ==> place[j] < n && order[place[j]] == j)
  }

  /** Each slot points to the one behind it in the order, the last one to the first. */
  ghost predicate Chained(next: seq<nat>, order: seq<nat>, n: nat) {
    && |next| == |order| == n > 0
    && (forall i :: 0 <= i < n ==> order[i] < n)
    && (forall i :: 0 <= i < n - 1 ==> next[order[i]] == order[i + 1])
    && next[order[n - 1]] == order[0]
  }

  /** The slot reached from `s` after `k` hops. */
  function Hop(next: seq<nat>, s: nat, k: nat): nat
    decreases k
  {
    if k == 0 then s
    else
      var t := Hop(next, s, k - 1);
      if t < |next| then next[t] else t
  }

  /** Place `i` of the order, `k` places on, going around at the end. */
  function Turn(i: nat, k: nat, n: nat): (j: nat)
    requires i < n
    ensures j < n
    ensures k <= n ==> j == if i + k < n then i + k else i + k - n
    decreases k
  {
    if k == 0 then i
    else
      var t := Turn(i, k - 1, n);
      if t + 1 < n then t + 1 else 0
  }

  lemma {:induction false} HopIs(next: seq<nat>, order: seq<nat>, n: nat, i: nat, k: nat)
    requires Chained(next, order, n) && i < n
    ensures Hop(next, order[i], k) == order[Turn(i, k, n)]
    decreases k
  {
    if k > 0 { HopIs(next, order, n, i, k - 1); }
  }

  /** One Hamiltonian cycle: from slot 0, i hops reach the i-th slot of the order, every slot is reached in fewer than
      n hops, and from any slot n hops are the first that come back to it. */
  lemma SingleCycle(next: seq<nat>, order: seq<nat>, place: seq<nat>, n: nat)
    requires Orders(order, place, n) && Chained(next, order, n)
    ensures forall i :: 0 <= i < n ==> Hop(next, 0, i) == order[i]
    ensures forall j :: 0 <= j < n ==> Hop(next, 0, place[j]) == j
    ensures forall s, k :: 0 <= s < n && 0 < k < n ==> Hop(next, s, k) != s
    ensures forall s :: 0 <= s < n ==> Hop(next, s, n) == s
  {
    forall i | 0 <= i < n ensures Hop(next, 0, i) == order[i] { HopIs(next, order, n, 0, i); }
    forall s, k | 0 <= s < n && 0 < k < n ensures Hop(next, s, k) != s {
      HopIs(next, order, n, place[s], k);
      assert place[order[Turn(place[s], k, n)]] == Turn(place[s], k, n);
    }
    forall s | 0 <= s < n ensures Hop(next, s, n) == s { HopIs(next, order, n, place[s], n); }
  }

  function Swap(order: seq<nat>, a: nat, b: nat): (r: seq<nat>)
    requires a < |order| && b < |order|
    ensures |r| == |order|
  {
    order[a := order[b]][b := order[a]]
  }

  /** The place that round `i` of the shuffle swaps with place `i`: any place from 1 to `i`. */
  function Pick(random: nat -> nat, i: nat): (j: nat)
    requires i > 0
    ensures 0 < j <= i
  {
    1 + random(i) % i
  }

  /** The order after the rounds below `i`. */
  function Shuffled(order: seq<nat>, random: nat -> nat, i: nat): (r: seq<nat>)
    requires i <= |order|
    ensures |r| == |order|
  {
    if i <= 1 then order else Swap(Shuffled(order, random, i - 1), i - 1, Pick(random, i - 1))
  }

  function InOrder(n: nat): seq<nat> { seq(n, i requires 0 <= i < n => i) }

  lemma {:induction false} SameRounds(order: seq<nat>, random: nat -> nat, other: nat -> nat, i: nat)
    requires i <= |order| && forall k :: 0 < k < i ==> random(k) == other(k)
    ensures Shuffled(order, random, i) == Shuffled(order, other, i)
  {
    if i > 1 { SameRounds(order, random, other, i - 1); }
  }

  /** Every slot from place `i` on stands in its own place. */
  ghost predicate Settled(order: seq<nat>, i: nat) { forall m :: i <= m < |order| ==> order[m] == m }

  /** Undoing the last swap of an order that is settled behind place `k`. */
  lemma UnSwap(order: seq<nat>, place: seq<nat>, n: nat, k: nat) returns (before: seq<nat>, was: seq<nat>, j: nat)
    requires Orders(order, place, n) && 0 < k < n && Settled(order, k + 1)
    ensures 0 < j <= k && Orders(before, was, n) && Settled(before, k)
    ensures Swap(before, k, j) == order
  {
    j := place[k];
    assert order[j] == k;
    SwapOrders(order, place, n, k, j);
    before, was := Swap(order, k, j), place[order[k] := j][order[j] := k];
  }

  /** One more round, which picks `j`. */
  lemma NextRound(order: seq<nat>, r: nat -> nat, k: nat, j: nat) returns (random: nat -> nat)
    requires 0 < j <= k < |order|
    ensures Shuffled(order, random, k + 1) == Swap(Shuffled(order, r, k), k, j)
  {
    random := x => if x == k then j - 1 else r(x);
    PickIs(random, k, j);
    forall m | 0 < m < k ensures random(m) == r(m) { }
    SameRounds(order, random, r, k);
  }

  lemma PickIs(random: nat -> nat, k: nat, j: nat)
    requires 0 < j <= k && random(k) == j - 1
    ensures Pick(random, k) == j
  {
    assert (j - 1) % k == j - 1;
  }

  lemma AlreadyInOrder(order: seq<nat>, place: seq<nat>, n: nat)
    requires Orders(order, place, n) && Settled(order, 1)
    ensures order == InOrder(n)
  {
  }

  /** Every order of the slots behind slot 0 can come out of the shuffle. */
  lemma {:induction false} EveryOrder(order: seq<nat>, place: seq<nat>, n: nat, i: nat) returns (random: nat -> nat)
    requires Orders(order, place, n) && 0 < i <= n && Settled(order, i)
    ensures Shuffled(InOrder(n), random, i) == order
    decreases i
  {
    if i == 1 {
      random := _ => 0;
      AlreadyInOrder(order, place, n);
    } else {
      var before, was, j := UnSwap(order, place, n, i - 1);
      var rest := EveryOrder(before, was, n, i - 1);
      random := NextRound(InOrder(n), rest, i - 1, j);
    }
  }

  lemma SwapOrders(order: seq<nat>, place: seq<nat>, n: nat, a: nat, b: nat)
    requires Orders(order, place, n) && 0 < a < n && 0 < b < n
    ensures Orders(Swap(order, a, b), place[order[a] := b][order[b] := a], n)
  {
  }

  /** One round: place `i` is swapped with a place from 1 to `i`. */
  method Round(indices: array<nat>, random: nat -> nat, i: nat, ghost place: seq<nat>) returns (ghost moved: seq<nat>)
    requires Orders(indices[..], place, indices.Length) && 0 < i < indices.Length
    modifies indices
    ensures indices[..] == Swap(old(indices[..]), i, Pick(random, i))
    ensures Orders(indices[..], moved, indices.Length)
  {
    var j := Pick(random, i);
    SwapOrders(indices[..], place, indices.Length, i, j);
    moved := place[indices[i] := j][indices[j] := i];
    indices[i], indices[j] := indices[j], indices[i];
  }

  /** std::shuffle on all but the first slot, with any source of random numbers. */
  method Shuffle(indices: array<nat>, random: nat -> nat, ghost place: seq<nat>) returns (ghost moved: seq<nat>)
    requires Orders(indices[..], place, indices.Length)
    modifies indices
    ensures indices[..] == Shuffled(old(indices[..]), random, indices.Length)
    ensures Orders(indices[..], moved, indices.Length)
  {
    moved := place;
    var i := 1;
    while i < indices.Length
      invariant 1 <= i <= indices.Length
      invariant Orders(indices[..], moved, indices.Length)
      invariant indices[..] == Shuffled(old(indices[..]), random, i)
    {
      moved := Round(indices, random, i, moved);
      i := i + 1;
    }
  }

  /** The loop that fills the table from the order of the slots. */
  method Link(indices: array<nat>, ghost place: seq<nat>) returns (next: array<nat>)
    requires Orders(indices[..], place, indices.Length)
    ensures fresh(next) && Chained(next[..], indices[..], indices.Length)
  {
    var n := indices.Length;
    ghost var order := indices[..];
    next := new nat[n](_ => 0);
    for i := 0 to n - 1
      invariant indices[..] == order && Orders(order, place, n)
      invariant forall j :: 0 <= j < i ==> next[order[j]] == order[j + 1]
    {
      forall j | 0 <= j < i ensures order[j] != order[i] { assert place[order[j]] == j && place[order[i]] == i; }
      next[indices[i]] := indices[i + 1];
    }
    forall j | 0 <= j < n - 1 ensures order[j] != order[n - 1] {
      assert place[order[j]] == j && place[order[n - 1]] == n - 1;
    }
    next[indices[n - 1]] := indices[0];
  }

  /** std::iota from 0. */
  method Iota(n: nat) returns (indices: array<nat>, ghost place: seq<nat>)
    requires n > 0
    ensures fresh(indices) && indices.Length == n && Orders(indices[..], place, n)
    ensures indices[..] == InOrder(n)
  {
    indices := new nat[n](i requires 0 <= i => i);
    place := seq(n, i requires 0 <= i => i);
  }

  method GeneratePointerChaseRing(sizeBytes: nat, randomized: bool, random: nat -> nat)
    returns (next: array<nat>, ghost order: seq<nat>, ghost place: seq<nat>)
    requires sizeBytes / 4 <= INT_MAX               // std::iota counts in an int
    ensures next.Length == if sizeBytes / 4 < 2 then 2 else sizeBytes / 4
    ensures Orders(order, place, next.Length) && Chained(next[..], order, next.Length)
    ensures forall i :: 0 <= i < next.Length ==> Hop(next[..], 0, place[i]) == i
    ensures forall s, k :: 0 <= s < next.Length && 0 < k < next.Length ==> Hop(next[..], s, k) != s
    ensures forall s :: 0 <= s < next.Length ==> Hop(next[..], s, next.Length) == s
    ensures order == if randomized then Shuffled(InOrder(next.Length), random, next.Length) else InOrder(next.Length)
  {
    var n := sizeBytes / 4;
    if n < 2 { n := 2; }
    var indices;
    indices, place := Iota(n);
    if randomized { place := Shuffle(indices, random, place); }
    order := indices[..];
    next := Link(indices, place);
    ghost var table := next[..];
    SingleCycle(table, order, place, n);
  }
}
