/**
 ProtectedState (common/locks_under_the_hood/locks_under_the_hood.h): the fields a transfer updates, one after
 the other.  Fields are 64-bit words: sequence, balance_a, balance_b and the five buckets.
 */
module ProtectedState {
  import opened Modular

  const WORD: nat := 0x1_0000_0000_0000_0000

  type Data = d: seq<nat> | |d| == 8 witness [0, 0, 0, 0, 0, 0, 0, 0]

  const FACTOR: nat := 6364136223846793005
  const OFFSET: nat := 1442695040888963407

  const FRESH: Data := [0, 1000000, 1000000, 0, 0, 0, 0, 0]

  function Xor(a: nat, b: nat): nat {
    if a == 0 then b else if b == 0 then a
    else (if a % 2 == b % 2 then 0 else 1) + 2 * Xor(a / 2, b / 2)
  }

  function Mixed(bucket: nat, salt: nat): nat {
    (Xor(bucket, salt) * FACTOR + OFFSET) % WORD
  }

  /** What field `i` becomes, given its old value and the new sequence number. */
  function Updated(i: nat, was: nat, sequence: nat, amount: nat): nat {
    if i == 0 then sequence
    else if i == 1 then (was + amount) % WORD
    else if i == 2 then (was - amount) % WORD
    else Mixed(was, (sequence + (i - 3)) % WORD)
  }

  /** A transfer of which the first `n` field updates have happened. */
  function Part(d: Data, amount: nat, n: nat): Data {
    seq(8, i requires 0 <= i < 8 => if i < n then Updated(i, d[i], (d[0] + 1) % WORD, amount) else d[i])
  }

  function Transferred(d: Data, amount: nat): Data { Part(d, amount, 8) }

  /** All transfers of a log, one after the other. */
  function Replay(d: Data, log: seq<nat>): Data {
    if log == [] then d else Transferred(Replay(d, log[..|log| - 1]), log[|log| - 1])
  }

  function Sum(log: seq<nat>): nat {
    if log == [] then 0 else Sum(log[..|log| - 1]) + log[|log| - 1]
  }

  // ---------------------------------------------------------------- the balances

  /** A log of transfers counts them and moves the sum of their amounts from the second balance to the first, modulo
      2^64. */
  lemma {:induction false} ReplayMoves(d: Data, log: seq<nat>)
    ensures Replay(d, log)[0] % WORD == (d[0] + |log|) % WORD
    ensures Replay(d, log)[1] % WORD == (d[1] + Sum(log)) % WORD
    ensures Replay(d, log)[2] % WORD == (d[2] - Sum(log)) % WORD
  {
    if log != [] {
      var rest := log[..|log| - 1];
      ReplayMoves(d, rest);
      TransferMoves(Replay(d, rest), log[|log| - 1], d[0] + |rest|, d[1] + Sum(rest), d[2] - Sum(rest));
    }
  }

  lemma TransferMoves(d: Data, amount: nat, count: int, a: int, b: int)
    requires d[0] % WORD == count % WORD && d[1] % WORD == a % WORD && d[2] % WORD == b % WORD
    ensures Transferred(d, amount)[0] % WORD == (count + 1) % WORD
    ensures Transferred(d, amount)[1] % WORD == (a + amount) % WORD
    ensures Transferred(d, amount)[2] % WORD == (b - amount) % WORD
  {
    var x: int := amount;
    SameShifted(d[0], count, 1, WORD);
    SameShifted(d[1], a, x, WORD);
    SameShifted(d[2], b, -x, WORD);
  }

  /** The two balances keep their sum, modulo 2^64. */
  lemma ReplayConserves(d: Data, log: seq<nat>)
    ensures (Replay(d, log)[1] + Replay(d, log)[2]) % WORD == (d[1] + d[2]) % WORD
  {
    var after := Replay(d, log);
    var sum: int := Sum(log);
    ReplayMoves(d, log);
    SameShifted(after[1], d[1] + sum, after[2], WORD);
    SameShifted(after[2], d[2] - sum, d[1] + sum, WORD);
  }

  lemma TransferConserves(d: Data, amount: nat)
    ensures (Transferred(d, amount)[1] + Transferred(d, amount)[2]) % WORD == (d[1] + d[2]) % WORD
  {
    ReplayConserves(d, [amount]);
    assert Replay(d, [amount]) == Transferred(Replay(d, []), amount) by { assert [amount][..0] == []; }
  }

  predicate Words(d: Data) { forall i :: 0 <= i < 8 ==> d[i] < WORD }

  /** Every field stays a 64-bit word. */
  lemma {:induction false} ReplayWords(d: Data, log: seq<nat>)
    requires Words(d)
    ensures Words(Replay(d, log))
  {
    if log != [] { ReplayWords(d, log[..|log| - 1]); }
  }

  // ---------------------------------------------------------------- a transfer can be undone

  function Bit(a: nat, k: nat): bool { if k == 0 then a % 2 == 1 else Bit(a / 2, k - 1) }

  /** Xor works bit by bit. */
  lemma {:induction false} XorBits(a: nat, b: nat, k: nat)
    ensures Bit(Xor(a, b), k) <==> Bit(a, k) != Bit(b, k)
    decreases k
  {
    if a == 0 || b == 0 { NoBit(k); }
    else if k > 0 { XorBits(a / 2, b / 2, k - 1); }
  }

  lemma {:induction false} NoBit(k: nat)
    ensures !Bit(0, k)
  {
    if k > 0 { NoBit(k - 1); }
  }

  lemma Halves(bit: nat, rest: nat)
    requires bit < 2
    ensures (bit + 2 * rest) % 2 == bit && (bit + 2 * rest) / 2 == rest
  {
  }

  lemma XorParts(a: nat, b: nat)
    ensures Xor(a, b) % 2 == (if a % 2 == b % 2 then 0 else 1) && Xor(a, b) / 2 == Xor(a / 2, b / 2)
  {
    if a != 0 && b != 0 { Halves(if a % 2 == b % 2 then 0 else 1, Xor(a / 2, b / 2)); }
  }

  lemma {:induction false} XorTwice(a: nat, b: nat)
    ensures Xor(Xor(a, b), b) == a
    decreases a + b
  {
    if a + b > 0 {
      var x := Xor(a, b);
      XorParts(a, b);
      XorParts(x, b);
      XorTwice(a / 2, b / 2);
      assert Xor(x, b) == 2 * (Xor(x, b) / 2) + Xor(x, b) % 2;
    }
  }

  lemma {:induction false} XorBelow(a: nat, b: nat, k: nat)
    requires a < Pow2(k) && b < Pow2(k)
    ensures Xor(a, b) < Pow2(k)
  {
    if k > 0 && a != 0 && b != 0 { XorBelow(a / 2, b / 2, k - 1); }
  }

  // FACTOR * INVERSE == 1 + TURNS * WORD
  const INVERSE: nat := 13877824140714322085
  const TURNS: nat := 4787856489426250814

  /** The bucket that `Mixed` was given. */
  function Unmixed(mixed: nat, salt: nat): nat {
    Xor((mixed - OFFSET) * INVERSE % WORD, salt)
  }

  lemma Unscaled(x: nat)
    requires x < WORD
    ensures ((x * FACTOR + OFFSET) % WORD - OFFSET) * INVERSE % WORD == x
  {
    var y := x * FACTOR + OFFSET;
    var q := y / WORD;
    assert y % WORD == y - q * WORD;
    assert FACTOR * INVERSE == 1 + TURNS * WORD;
    var z := (y % WORD - OFFSET) * INVERSE;
    assert z == (x * FACTOR - q * WORD) * INVERSE;
    assert z == x * (FACTOR * INVERSE) - q * INVERSE * WORD;
    assert z == (x * TURNS - q * INVERSE) * WORD + x;
    ModIs(z, WORD, x * TURNS - q * INVERSE, x);
  }

  lemma UnmixedIs(bucket: nat, salt: nat)
    requires bucket < WORD && salt < WORD
    ensures Unmixed(Mixed(bucket, salt), salt) == bucket
  {
    Pow64();
    XorBelow(bucket, salt, 64);
    Unscaled(Xor(bucket, salt));
    XorTwice(bucket, salt);
  }

  /** What field `i` was before a transfer, given what it is and the sequence number it was updated with. */
  function Restored(i: nat, now: nat, sequence: nat, amount: nat): nat {
    if i == 0 then (sequence - 1) % WORD
    else if i == 1 then (now - amount) % WORD
    else if i == 2 then (now + amount) % WORD
    else Unmixed(now, (sequence + (i - 3)) % WORD)
  }

  lemma FieldRestored(i: nat, was: nat, sequence: nat, amount: nat)
    requires was < WORD && (i == 0 ==> sequence == (was + 1) % WORD)
    ensures Restored(i, Updated(i, was, sequence, amount), sequence, amount) == was
  {
    var x: int := amount;
    if i == 0 { ShiftedBack(was, 1, WORD); }
    else if i == 1 { ShiftedBack(was, x, WORD); }
    else if i == 2 { ShiftedBack(was, -x, WORD); }
    else { UnmixedIs(was, (sequence + (i - 3)) % WORD); }
  }

  /** From the state after a transfer and its amount the state before it can be computed, buckets included. */
  lemma TransferUndone(d: Data, amount: nat)
    requires Words(d)
    ensures var after := Transferred(d, amount);
            d == seq(8, i requires 0 <= i < 8 => Restored(i, after[i], after[0], amount))
  {
    var after := Transferred(d, amount);
    var back := seq(8, i requires 0 <= i < 8 => Restored(i, after[i], after[0], amount));
    forall i | 0 <= i < 8 ensures back[i] == d[i] { FieldRestored(i, d[i], after[0], amount); }
  }

  class Account {
    var sequence: nat
    var balanceA: nat
    var balanceB: nat
    const buckets: array<nat>

    ghost predicate Valid() { buckets.Length == 5 }

    ghost function View(): Data
      requires Valid()
      reads this, buckets
    {
      var s := [sequence, balanceA, balanceB] + buckets[..];
      assert |buckets[..]| == 5 && |s| == 8;
      s
    }

    constructor ()
      ensures Valid() && View() == FRESH && fresh(buckets)
    {
      sequence, balanceA, balanceB := 0, 1000000, 1000000;
      buckets := new nat[5](_ => 0);
      new;
      assert buckets[..] == [0, 0, 0, 0, 0];
    }

    method ApplyTransfer(amount: nat)
      requires Valid()
      modifies this, buckets
      ensures View() == Transferred(old(View()), amount)
      ensures sequence == (old(sequence) + 1) % WORD
      ensures balanceA == (old(balanceA) + amount) % WORD && balanceB == (old(balanceB) - amount) % WORD
    {
      var s := (sequence + 1) % WORD;
      sequence := s;
      balanceA := (balanceA + amount) % WORD;
      balanceB := (balanceB - amount) % WORD;
      var idx := 0;
      while idx < buckets.Length
        invariant idx <= buckets.Length
        invariant sequence == s && balanceA == (old(balanceA) + amount) % WORD
        invariant balanceB == (old(balanceB) - amount) % WORD
        invariant forall j :: 0 <= j < idx ==> buckets[j] == Mixed(old(buckets[j]), (s + j) % WORD)
        invariant forall j :: idx <= j < buckets.Length ==> buckets[j] == old(buckets[j])
      {
        buckets[idx] := Mixed(buckets[idx], (s + idx) % WORD);
        idx := idx + 1;
      }
      ghost var was, done := old(View()), Transferred(old(View()), amount);
      forall j | 0 <= j < 5 ensures buckets[j] == done[j + 3] { assert was[j + 3] == old(buckets[j]); }
    }
  }
}
