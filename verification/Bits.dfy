/**
 Shifts and bitwise operators on unsigned words, as arithmetic on naturals:
 `x << k` is `x * Pow2(k)`, `x >> k` is `x / Pow2(k)` and masking with `Pow2(k) - 1`
 is `x % Pow2(k)`.
 */
module Bits {

  function Pow2(k: nat): (r: nat)
    ensures r >= 1
  {
    if k == 0 then 1 else 2 * Pow2(k - 1)
  }

  /** Bitwise or, one binary digit at a time. */
  function Or(a: nat, b: nat): nat {
    if a == 0 && b == 0 then 0
    else (if a % 2 == 1 || b % 2 == 1 then 1 else 0) + 2 * Or(a / 2, b / 2)
  }

  /** Bitwise exclusive or, one binary digit at a time. */
  function Xor(a: nat, b: nat): nat {
    if a == 0 && b == 0 then 0
    else (a + b) % 2 + 2 * Xor(a / 2, b / 2)
  }

  /** The number that bytes stand for, the lowest first. */
  function Base256(bytes: seq<nat>): nat {
    if bytes == [] then 0 else bytes[0] + 0x100 * Base256(bytes[1..])
  }

  lemma {:induction false} Pow2Sum(a: nat, b: nat)
    ensures Pow2(a + b) == Pow2(a) * Pow2(b)
  {
    if a > 0 {
      Pow2Sum(a - 1, b);
      assert Pow2(a + b) == 2 * Pow2(a - 1 + b);
    }
  }

  lemma {:induction false} Pow2Monotonic(a: nat, b: nat)
    requires a <= b
    ensures Pow2(a) <= Pow2(b)
    decreases b
  {
    if a < b {
      Pow2Monotonic(a, b - 1);
    }
  }

  // ---------- products and quotients ----------

  lemma MulMonotonic(a: int, x: int, y: int)
    requires a >= 0 && x <= y
    ensures a * x <= a * y
  {
  }

  lemma MulCommutes(a: int, b: int)
    ensures a * b == b * a
  {
  }

  lemma MulDistributes(a: int, x: int, y: int)
    ensures a * (x + y) == a * x + a * y
  {
  }

  lemma MulAssociates(a: int, x: int, y: int)
    ensures a * (x * y) == (a * x) * y
  {
  }

  lemma DivMod(x: int, p: int)
    requires p > 0
    ensures p * (x / p) + x % p == x && 0 <= x % p < p
  {
  }

  /** Quotients are unique. */
  lemma QuotientUnique(p: int, q: int, r: int, q': int, r': int)
    requires p * q + r == p * q' + r' && 0 <= r < p && 0 <= r' < p
    ensures q == q'
  {
    if q < q' {
      MulMonotonic(p, q + 1, q');
    } else if q' < q {
      MulMonotonic(p, q' + 1, q);
    }
  }

  lemma DivByFactor(low: int, p: int, high: int)
    requires 0 <= low < p
    ensures (low + p * high) / p == high && (low + p * high) % p == low
  {
    var x := low + p * high;
    DivMod(x, p);
    QuotientUnique(p, high, low, x / p, x % p);
  }

  lemma DivTwice(x: int, p: int, q: int)
    requires x >= 0 && p > 0 && q > 0
    ensures p * q > 0 && x / (p * q) == (x / p) / q
  {
    var a, r := x / p, x % p;
    var b, s := a / q, a % q;
    DivMod(x, p);
    DivMod(a, q);
    MulDistributes(p, q * b, s);
    MulAssociates(p, q, b);
    assert p * s + r < p * q by {
      MulMonotonic(p, s + 1, q);
      MulDistributes(p, s, 1);
    }
    DivByFactor(p * s + r, p * q, b);
  }

  lemma DivAtLeast(x: int, p: int, k: int)
    requires p > 0 && p * k <= x
    ensures k <= x / p
  {
    DivMod(x, p);
    if x / p < k {
      MulMonotonic(p, x / p + 1, k);
    }
  }

  // ---------- bitwise operators ----------

  lemma {:induction false} OrZero(b: nat)
    ensures Or(0, b) == b
  {
    if b > 0 {
      OrZero(b / 2);
    }
  }

  lemma {:induction false} OrCommutes(a: nat, b: nat)
    ensures Or(a, b) == Or(b, a)
  {
    if a != 0 || b != 0 {
      OrCommutes(a / 2, b / 2);
    }
  }

  /** Or-ing a field in above all bits that are already set is addition. */
  lemma {:induction false} OrAbove(a: nat, b: nat, k: nat)
    requires a < Pow2(k)
    ensures Or(a, b * Pow2(k)) == a + b * Pow2(k)
  {
    if k == 0 {
      OrZero(b);
    } else {
      var p := Pow2(k - 1);
      var c := b * p;
      assert b * Pow2(k) == 2 * c;
      OrAbove(a / 2, b, k - 1);
      assert (2 * c) / 2 == c;
    }
  }

  lemma ParityCancels(a: nat, b: nat, rest: nat)
    ensures ((a + b) % 2 + 2 * rest + b) % 2 == a % 2
    ensures ((a + b) % 2 + 2 * rest) / 2 == rest
  {
  }

  lemma {:induction false} XorCommutes(a: nat, b: nat)
    ensures Xor(a, b) == Xor(b, a)
  {
    if a != 0 || b != 0 {
      XorCommutes(a / 2, b / 2);
    }
  }

  /** Applying the same mask twice gives the word back. */
  lemma {:induction false} XorInvolutive(a: nat, b: nat)
    ensures Xor(Xor(a, b), b) == a
  {
    if a != 0 || b != 0 {
      var rest := Xor(a / 2, b / 2);
      XorInvolutive(a / 2, b / 2);
      ParityCancels(a, b, rest);
      var x := (a + b) % 2 + 2 * rest;
      assert Xor(a, b) == x;
      if x != 0 || b != 0 {
        assert Xor(x, b) == (x + b) % 2 + 2 * Xor(x / 2, b / 2);
      }
    }
  }

  /** Exclusive or of two `k`-bit words is a `k`-bit word. */
  lemma {:induction false} XorBound(a: nat, b: nat, k: nat)
    requires a < Pow2(k) && b < Pow2(k)
    ensures Xor(a, b) < Pow2(k)
  {
    if k > 0 && (a != 0 || b != 0) {
      XorBound(a / 2, b / 2, k - 1);
    }
  }
}
