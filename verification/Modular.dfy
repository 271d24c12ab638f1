/** Remainders: what an index that wraps still tells about the unbounded counter behind it. */
module Modular {
  function Pow2(k: nat): (p: nat)
    ensures p > 0
  {
    if k == 0 then 1 else 2 * Pow2(k - 1)
  }

  lemma BigMultiple(x: int, m: int)
    requires m > 0 && x != 0
    ensures x * m >= m || x * m <= -m
  {
    if x > 0 { assert x * m >= m; } else { assert x * m <= -m; }
  }

  lemma ModIs(a: int, m: int, q: int, r: int)
    requires m > 0 && a == q * m + r && 0 <= r < m
    ensures a % m == r && a / m == q
  {
    var d, e := a / m, a % m;
    assert a == d * m + e;
    assert (d - q) * m == d * m - q * m;
    if d != q { BigMultiple(d - q, m); }
  }

  /** Two counters less than `m` apart are equal exactly when their remainders are. */
  lemma SameResidue(a: int, b: int, m: int)
    requires m > 0 && a <= b < a + m
    ensures a % m == b % m <==> a == b
  {
    if a % m == b % m {
      assert a == (a / m) * m + a % m && b == (b / m) * m + b % m;
      assert (b / m - a / m) * m == b - a;
      if b / m != a / m { BigMultiple(b / m - a / m, m); }
    }
  }

  /** The wrapped difference of two counters less than `m` apart is their difference. */
  lemma WrappedDifference(a: int, b: int, m: int)
    requires m > 0 && a <= b < a + m
    ensures (b % m - a % m) % m == b - a
  {
    assert a == (a / m) * m + a % m && b == (b / m) * m + b % m;
    assert b % m - a % m == (a / m - b / m) * m + (b - a);
    ModIs(b % m - a % m, m, a / m - b / m, b - a);
  }

  lemma WrappedSuccessor(a: int, k: int, m: int)
    requires m > 0
    ensures (a % m + k) % m == (a + k) % m
  {
    var s := a % m + k;
    assert a == (a / m) * m + a % m && s == (s / m) * m + s % m;
    assert a + k == (a / m + s / m) * m + s % m;
    ModIs(a + k, m, a / m + s / m, s % m);
  }

  lemma SameSuccessor(a: int, b: int, m: int)
    requires m > 0 && a % m == b % m
    ensures (a + 1) % m == (b + 1) % m
  {
    WrappedSuccessor(a, 1, m);
    WrappedSuccessor(b, 1, m);
  }

  /** Counters with one remainder keep it when both are shifted, wrapped or not. */
  lemma SameShifted(a: int, b: int, k: int, m: int)
    requires m > 0 && a % m == b % m
    ensures (a + k) % m == (b + k) % m && ((a + k) % m) % m == (b + k) % m
  {
    WrappedSuccessor(a, k, m);
    WrappedSuccessor(b, k, m);
    WrappedSuccessor(a + k, 0, m);
  }

  /** A wrapped shift is undone by the opposite one. */
  lemma ShiftedBack(a: int, k: int, m: int)
    requires 0 <= a < m
    ensures ((a + k) % m - k) % m == a
  {
    WrappedSuccessor(a + k, -k, m);
    ModIs(a, m, 0, a);
  }

  /** A remainder keeps the remainder by any divisor of the modulus. */
  lemma ModOfMod(a: int, n: int, k: int)
    requires n > 0 && k > 0 && k * n > 0
    ensures (a % (k * n)) % n == a % n
  {
    var m := k * n;
    var q, r := a / m, a % m;
    assert a == q * m + r && r == (r / n) * n + r % n;
    assert q * m == (q * k) * n;
    assert a == (q * k + r / n) * n + r % n;
    ModIs(a, n, q * k + r / n, r % n);
  }

  lemma {:induction false} PowSum(j: nat, k: nat)
    ensures Pow2(j) * Pow2(k) == Pow2(j + k)
  {
    if j > 0 {
      PowSum(j - 1, k);
      Doubled(Pow2(j - 1), Pow2(k));
    }
  }

  lemma Doubled(a: nat, b: nat)
    ensures (2 * a) * b == 2 * (a * b)
  {
  }

  lemma Pow64()
    ensures Pow2(64) == 0x1_0000_0000_0000_0000 && Pow2(63) * 2 == Pow2(64)
  {
    Pow8();
    PowSum(8, 8); PowSum(16, 16); PowSum(32, 32);
    assert Pow2(64) == 2 * Pow2(63);
  }

  lemma Pow8()
    ensures Pow2(8) == 256
  {
    assert Pow2(2) == 4;
    assert Pow2(4) == 16;
    assert Pow2(6) == 64;
  }
}
