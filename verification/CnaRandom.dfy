/** `keep_lock_local`, src/cna.h: the low 16 bits of a thread's pseudo-random numbers go through all their values. */
module CnaRandom {
  import opened Bits
  import opened Int32

  const MULTIPLIER := 1103515245
  const INCREMENT := 12345
  const THRESHOLD := 0xffff
  const PERIOD := 0x1_0000

  /** The thread's `seed` after `k` calls of `pseudo_rand`, the first of which it starts with `x`. */
  function Seed(x: nat, k: nat): nat {
    if k == 0 then x % TWO_TO_THE_32 else (Seed(x, k - 1) * MULTIPLIER + INCREMENT) % TWO_TO_THE_32
  }

  /** What the `k`-th call of `keep_lock_local` returns. */
  predicate Keep(x: nat, k: nat) {
    And(Seed(x, k), THRESHOLD) != 0
  }

  /** The first numbers from seed 1. */
  lemma FirstSeeds()
    ensures Seed(1, 1) == 1103527590 && Seed(1, 2) == 2524885223 && Seed(1, 3) == 662824084
  {
  }

  /** The same numbers without wrap-around. */
  function Iterate(x: nat, k: nat): nat {
    if k == 0 then x else Iterate(x, k - 1) * MULTIPLIER + INCREMENT
  }

  lemma {:induction false} IterateOn(x: nat, a: nat, b: nat)
    ensures Iterate(x, a + b) == Iterate(Iterate(x, a), b)
  {
    if b > 0 { IterateOn(x, a, b - 1); }
  }

  lemma Distribute(q: nat, m: nat, r: nat, a: nat)
    ensures (q * m + r) * a == q * a * m + r * a
  {
  }

  lemma ModStep(y: nat, m: nat, a: nat, b: nat)
    requires m > 0
    ensures (y % m * a + b) % m == (y * a + b) % m
  {
    var q, r := y / m, y % m;
    assert y == q * m + r;
    Distribute(q, m, r, a);
    AddMultiple(r * a + b, m, q * a);
  }

  lemma AddMultiple(z: nat, m: nat, q: nat)
    requires m > 0
    ensures (q * m + z) % m == z % m
  {
    Distribute(q, 1, z / m, m);
    ModUnique(q * m + z, m, q + z / m, z % m);
  }

  lemma ModMod(y: nat, m: nat, n: nat)
    requires m > 0 && n > 0 && m * n > 0
    ensures y % (m * n) % m == y % m
  {
    var q, z := y / (m * n), y % (m * n);
    assert y == q * (m * n) + z == q * n * m + z;
    AddMultiple(z, m, q * n);
  }

  lemma {:induction false} SeedIsIterate(x: nat, k: nat)
    ensures Seed(x, k) == Iterate(x, k) % TWO_TO_THE_32
  {
    if k > 0 {
      SeedIsIterate(x, k - 1);
      ModStep(Iterate(x, k - 1), TWO_TO_THE_32, MULTIPLIER, INCREMENT);
    }
  }

  lemma KeepIsNonzero(x: nat, k: nat)
    ensures Keep(x, k) <==> Iterate(x, k) % PERIOD != 0
  {
    hide Seed, And, Iterate;
    SeedIsIterate(x, k);
    LowBits(Seed(x, k));
    ModMod(Iterate(x, k), PERIOD, PERIOD);
  }

  lemma LowBits(a: nat)
    ensures And(a, THRESHOLD) == a % PERIOD
  {
    assert Pow2(4) == 16 && Pow2(8) == 256 && Pow2(12) == 4096 && Pow2(16) == PERIOD;
    MaskIsMod(a, 16);
  }

  /** `2^j` steps add `2^j` and a multiple of `2^(j + 1)`, as the multiplier is 1 modulo 4 and the increment odd. */
  lemma {:induction false} Stride(j: nat) returns (u: nat, v: nat)
    ensures forall x: nat {:trigger Iterate(x, Pow2(j))} ::
              Iterate(x, Pow2(j)) == x + Pow2(j) + 2 * Pow2(j) * (2 * (u * x) + v)
  {
    if j == 0 {
      u, v := (MULTIPLIER - 1) / 4, (INCREMENT - 1) / 2;
      forall x: nat ensures Iterate(x, Pow2(j)) == x + Pow2(j) + 2 * Pow2(j) * (2 * (u * x) + v) { OneStep(x); }
    } else {
      var d := Pow2(j - 1);
      var u', v' := Stride(j - 1);
      u, v := u' + 2 * d * u' * u', v' + d * u' * (2 * v' + 1);
      forall x: nat ensures Iterate(x, Pow2(j)) == x + Pow2(j) + 2 * Pow2(j) * (2 * (u * x) + v) {
        IterateOn(x, d, d);
        TwoStrides(d, u', v', x, Iterate(x, d));
      }
    }
  }

  lemma OneStep(x: nat)
    ensures Iterate(x, 1) == x + 1 + 2 * (2 * ((MULTIPLIER - 1) / 4 * x) + (INCREMENT - 1) / 2)
  {
    calc {
      Iterate(x, 1);
      Iterate(x, 0) * MULTIPLIER + INCREMENT;
      x * MULTIPLIER + INCREMENT;
    }
  }

  lemma TwoStrides(d: nat, u: nat, v: nat, x: nat, y: nat)
    requires y == x + d + 2 * d * (2 * (u * x) + v)
    ensures y + d + 2 * d * (2 * (u * y) + v)
         == x + 2 * d + 4 * d * (2 * ((u + 2 * d * u * u) * x) + (v + d * u * (2 * v + 1)))
  {
  }

  lemma Halve(d: nat, q: nat, w: nat)
    ensures q % 2 == 0 ==> d * q == 2 * d * (q / 2)
    ensures q % 2 == 1 ==> d * q + d + 2 * d * w == 2 * d * (q / 2 + 1 + w)
  {
    var h := q / 2;
    if q % 2 == 0 { assert d * (2 * h) == 2 * d * h; } else { assert d * (2 * h + 1) + d == 2 * d * (h + 1); }
  }

  /** From every seed, one of the first `2^j` numbers is a multiple of `2^j`. */
  lemma {:induction false} SomeZero(j: nat, x: nat) returns (k: nat, q: nat)
    ensures k < Pow2(j) && Iterate(x, k) == Pow2(j) * q
  {
    if j == 0 {
      k, q := 0, x;
    } else {
      var d := Pow2(j - 1);
      k, q := SomeZero(j - 1, x);
      var u, v := Stride(j - 1);
      var y := Iterate(x, k);
      assert Iterate(y, d) == y + d + 2 * d * (2 * (u * y) + v);
      IterateOn(x, k, d);
      Halve(d, q, 2 * (u * y) + v);
      if q % 2 == 0 { q := q / 2; } else { k, q := k + d, q / 2 + 1 + (2 * (u * y) + v); }
    }
  }

  lemma Lengthen(d: nat, q: nat, w: nat, w': nat)
    requires q > 0
    ensures d * (q - 1) + d == d * q
    ensures 2 * d * w + 2 * d * w' == 2 * d * (w + w')
  {
  }

  lemma {:induction false} Strides(j: nat, x: nat, q: nat) returns (w: nat)
    ensures Iterate(x, Pow2(j) * q) == x + Pow2(j) * q + 2 * Pow2(j) * w
  {
    if q == 0 {
      w := 0;
    } else {
      var d := Pow2(j);
      w := Strides(j, x, q - 1);
      var u, v := Stride(j);
      IterateOn(x, d * (q - 1), d);
      var y := Iterate(x, d * (q - 1));
      var w' := 2 * (u * y) + v;
      assert Iterate(y, d) == y + d + 2 * d * w';
      Lengthen(d, q, w, w');
      w := w + w';
    }
  }

  lemma EvenGap(d: nat, p: nat, q: nat, w: nat, r: nat)
    requires d > 0 && d * (2 * p) + d * q + 2 * d * w == d * (2 * r)
    ensures q % 2 == 0
  {
    Cancel(d, q, 2 * (r - p - w));
  }

  lemma Cancel(d: nat, a: int, b: int)
    requires d > 0 && d * a == d * b
    ensures a == b
  {
    assert (a - b) * d == 0;
    MulAtLeast(a - b, d);
  }

  /** Two multiples of `2^j` are a multiple of `2^j` steps apart. */
  lemma {:induction false} ZerosApart(j: nat, x: nat, p: nat, k: nat, r: nat) returns (q: nat)
    requires x == Pow2(j) * p && Iterate(x, k) == Pow2(j) * r
    ensures k == Pow2(j) * q
  {
    if j == 0 {
      q := k;
    } else {
      var d := Pow2(j - 1);
      assert x == d * (2 * p) && Iterate(x, k) == d * (2 * r);
      q := ZerosApart(j - 1, x, 2 * p, k, 2 * r);
      var w := Strides(j - 1, x, q);
      EvenGap(d, p, q, w, r);
      Halve(d, q, 0);
      q := q / 2;
    }
  }

  /** `keep_lock_local` lets the lock go exactly once in 65536 calls in a row, from whatever seed. */
  lemma OncePerPeriod(x: nat, a: nat) returns (k: nat)
    ensures a < k <= a + PERIOD && !Keep(x, k)
    ensures forall b | a < b <= a + PERIOD && b != k :: Keep(x, b)
  {
    hide Keep, Iterate;
    assert Pow2(4) == 16 && Pow2(8) == 256 && Pow2(12) == 4096 && Pow2(16) == PERIOD;
    var i, q := SomeZero(16, Iterate(x, a + 1));
    IterateOn(x, a + 1, i);
    k := a + 1 + i;
    KeepIsNonzero(x, k);
    assert PERIOD * q % PERIOD == 0;
    forall b | a < b <= a + PERIOD && b != k ensures Keep(x, b) {
      if !Keep(x, b) {
        KeepIsNonzero(x, b);
        var lo, hi := if b < k then b else k, if b < k then k else b;
        IterateOn(x, lo, hi - lo);
        var m := ZerosApart(16, Iterate(x, lo), Iterate(x, lo) / PERIOD, hi - lo, Iterate(x, hi) / PERIOD);
      }
    }
  }

  /** How many of the first `k` calls let the lock go. */
  function LetGoes(x: nat, k: nat): nat {
    if k == 0 then 0 else LetGoes(x, k - 1) + if Keep(x, k) then 0 else 1
  }

  lemma {:induction false} LetGoesOnce(x: nat, a: nat, k: nat, b: nat)
    requires a <= b && a < k && forall i | a < i <= b && i != k :: Keep(x, i)
    requires !Keep(x, k)
    ensures LetGoes(x, b) == LetGoes(x, a) + if k <= b then 1 else 0
  {
    hide Keep;
    if a < b { LetGoesOnce(x, a, k, b - 1); }
  }

  /** So it does once in 65536 calls. */
  lemma {:induction false} LetGoesOften(x: nat, k: nat)
    ensures PERIOD * LetGoes(x, k) < k + PERIOD
    ensures k < PERIOD * LetGoes(x, k) + PERIOD
  {
    hide Keep;
    if k >= PERIOD {
      LetGoesOften(x, k - PERIOD);
      var i := OncePerPeriod(x, k - PERIOD);
      LetGoesOnce(x, k - PERIOD, i, k);
    } else {
      var i := OncePerPeriod(x, 0);
      LetGoesOnce(x, 0, i, k);
    }
  }
}
