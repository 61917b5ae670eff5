/** Bitwise operations on non-negative integers, and what masks of powers of two do. */
module Bits {

  function And(x: nat, y: nat): nat
    decreases x
  {
    if x == 0 then 0 else 2 * And(x / 2, y / 2) + (if x % 2 == 1 && y % 2 == 1 then 1 else 0)
  }

  /** x with the bits of y cleared (x & ~y). */
  function AndNot(x: nat, y: nat): nat
    decreases x
  {
    if x == 0 then 0 else 2 * AndNot(x / 2, y / 2) + (if x % 2 == 1 && y % 2 == 0 then 1 else 0)
  }

  function Or(x: nat, y: nat): nat
    decreases x + y
  {
    if x == 0 then y else if y == 0 then x
    else 2 * Or(x / 2, y / 2) + (if x % 2 == 1 || y % 2 == 1 then 1 else 0)
  }

  predicate IsPow2(a: nat) {
    a == 1 || (a > 1 && a % 2 == 0 && IsPow2(a / 2))
  }

  lemma ModStep(n: nat, b: nat)
    requires b > 0
    ensures n % (2 * b) == 2 * (n / 2 % b) + n % 2
  {
    var q, r := n / 2 / b, n / 2 % b;
    assert n / 2 == q * b + r;
    assert n == (2 * b) * q + (2 * r + n % 2);
    DivModUnique(n, 2 * b, q, 2 * r + n % 2);
  }

  lemma AtLeast(d: nat, k: nat)
    requires k > 0
    ensures d * k >= d
  {
    assert d * k == d * (k - 1) + d;
  }

  lemma DivMod(n: int, d: nat)
    requires d > 0
    ensures n == d * (n / d) + n % d
  {}

  lemma DivModTimes(n: int, d: nat)
    requires d > 0
    ensures n - n % d == n / d * d
  {}

  lemma DivModUnique(n: int, d: nat, q: int, r: nat)
    requires n == d * q + r && r < d
    ensures n / d == q && n % d == r
  {
    var q', r' := n / d, n % d;
    DivMod(n, d);
    SameQuotient(d, q, r, q', r');
  }

  lemma SameQuotient(d: nat, q: int, r: nat, q': int, r': nat)
    requires d * q + r == d * q' + r' && r < d && r' < d
    ensures q == q' && r == r'
  {
    if q < q' {
      AtLeast(d, q' - q);
    } else if q' < q {
      AtLeast(d, q - q');
    }
  }

  /** The mask of a power of two keeps the remainder, clearing it drops the remainder. */
  lemma {:induction false} MaskIsMod(n: nat, a: nat)
    requires IsPow2(a)
    ensures And(n, a - 1) == n % a && AndNot(n, a - 1) == n - n % a
    decreases a
  {
    if a == 1 {
      AndZero(n);
    } else {
      var b := a / 2;
      MaskStep(n, b);
      MaskIsMod(n / 2, b);
      ModStep(n, b);
    }
  }

  lemma MaskStep(n: nat, b: nat)
    requires b > 0
    ensures And(n, 2 * b - 1) == 2 * And(n / 2, b - 1) + n % 2
    ensures AndNot(n, 2 * b - 1) == 2 * AndNot(n / 2, b - 1)
  {
    assert (2 * b - 1) / 2 == b - 1 && (2 * b - 1) % 2 == 1;
  }

  lemma {:induction false} AndZero(n: nat)
    ensures And(n, 0) == 0 && AndNot(n, 0) == n
  {
    if n > 0 { AndZero(n / 2); }
  }

  /** Setting the bits above a smaller power of two, on a multiple of it, gives the last such multiple before
      the next multiple of the larger power. */
  lemma {:induction false} OrGap(p: nat, w: nat, a: nat)
    requires IsPow2(w) && IsPow2(a) && w <= a && p % w == 0
    ensures Or(p, a - w) == p - p % a + (a - w)
    decreases a
  {
    if w == 1 {
      OrMask(p, a);
    } else {
      assert (a - w) % 2 == 0 && (a - w) / 2 == a / 2 - w / 2;
      HalfAligned(p, w);
      OrGap(p / 2, w / 2, a / 2);
      ModStep(p, a / 2);
    }
  }

  lemma HalfAligned(p: nat, w: nat)
    requires w > 1 && w % 2 == 0 && p % w == 0
    ensures p % 2 == 0 && p / 2 % (w / 2) == 0
  {
    ModStep(p, w / 2);
  }

  lemma {:induction false} OrMask(p: nat, a: nat)
    requires IsPow2(a)
    ensures Or(p, a - 1) == p - p % a + (a - 1)
    decreases a
  {
    if a > 1 {
      assert (a - 1) / 2 == a / 2 - 1 && (a - 1) % 2 == 1;
      OrMask(p / 2, a / 2);
      ModStep(p, a / 2);
    }
  }

  /** Adding a power of two less one and clearing the mask rounds up. */
  lemma MaskRounds(n: nat, a: nat)
    requires IsPow2(a)
    ensures AndNot(n + (a - 1), a - 1) == RoundUp(n, a)
  {
    var x := n + (a - 1);
    MaskIsMod(x, a);
    DivModTimes(x, a);
  }

  lemma {:induction false} Pow2Divides(w: nat, a: nat)
    requires IsPow2(w) && IsPow2(a) && w <= a
    ensures a % w == 0
    decreases a
  {
    if w > 1 {
      Pow2Divides(w / 2, a / 2);
      ModStep(a, w / 2);
    }
  }

  function Pow2(n: nat): (p: nat)
    ensures p > 0
  {
    if n == 0 then 1 else 2 * Pow2(n - 1)
  }

  lemma {:induction false} Pow2IsPow2(n: nat)
    ensures IsPow2(Pow2(n))
  {
    if n > 0 { Pow2IsPow2(n - 1); }
  }

  lemma {:induction false} Pow2Adds(m: nat, n: nat)
    ensures Pow2(m + n) == Pow2(m) * Pow2(n)
  {
    if m > 0 {
      Pow2Adds(m - 1, n);
      assert Pow2(m) * Pow2(n) == 2 * (Pow2(m - 1) * Pow2(n));
    }
  }

  lemma {:induction false} Pow2Monotone(m: nat, n: nat)
    requires m <= n
    ensures Pow2(m) <= Pow2(n)
    decreases n
  {
    if m < n { Pow2Monotone(m, n - 1); }
  }

  /** A left shift of a 32-bit word. */
  function Shl32(x: nat, k: nat): nat { x * Pow2(k) % 0x1_0000_0000 }

  function Quotient(x: nat, p: nat): nat
    requires p > 0
  {
    x / p
  }

  function Shr(x: nat, k: nat): nat { Quotient(x, Pow2(k)) }

  /** No bit is lost if the word has room. */
  lemma Shl32Exact(x: nat, n: nat, k: nat)
    requires x < Pow2(n) && n + k <= 32
    ensures Shl32(x, k) == x * Pow2(k) < Pow2(n + k) <= 0x1_0000_0000
  {
    Pow2Adds(n, k);
    MulLess(x, Pow2(n), Pow2(k));
    Pow2Monotone(n + k, 32);
    Pow2Of32();
  }

  lemma MulLess(x: nat, y: nat, k: nat)
    requires x < y && k > 0
    ensures x * k < y * k && x * k + (k - 1) < y * k
  {
    assert (y - x) * k == y * k - x * k;
    AtLeast(k, y - x);
  }

  lemma Pow2Of32()
    ensures Pow2(32) == 0x1_0000_0000 && Pow2(5) == 32 && Pow2(6) == 64 && Pow2(7) == 128 && Pow2(8) == 256
  {
    assert Pow2(5) == 32 && Pow2(8) == 256;
    assert Pow2(16) == 65536 by { Pow2Adds(8, 8); }
    Pow2Adds(16, 16);
  }

  /** Where two words have no bits in common, or is addition. */
  lemma {:induction false} OrAdds(x: nat, y: nat, k: nat)
    requires y < Pow2(k)
    ensures Or(x * Pow2(k), y) == x * Pow2(k) + y
    decreases k
  {
    if k > 0 {
      var z := x * Pow2(k);
      assert z == 2 * (x * Pow2(k - 1));
      OrAdds(x, y / 2, k - 1);
      OrStep(x * Pow2(k - 1), y);
    }
  }

  lemma OrStep(h: nat, y: nat)
    ensures Or(2 * h, y) == 2 * Or(h, y / 2) + y % 2
  {
    if h == 0 {
      assert Or(h, y / 2) == y / 2;
    } else if y == 0 {
      assert Or(h, 0) == h;
    } else {
      assert (2 * h) / 2 == h && (2 * h) % 2 == 0;
    }
  }

  lemma LowBits(x: nat, k: nat)
    ensures And(x, Pow2(k) - 1) == x % Pow2(k)
  {
    Pow2IsPow2(k);
    MaskIsMod(x, Pow2(k));
  }

  /** Testing one bit. */
  lemma {:induction false} OneBit(x: nat, k: nat)
    ensures And(x, Pow2(k)) != 0 <==> x / Pow2(k) % 2 == 1
    decreases k
  {
    if x > 0 {
      if k == 0 {
        AndZero(x / 2);
        assert And(x / 2, 0) == 0;
      } else {
        OneBit(x / 2, k - 1);
        HalfQuotient(x, Pow2(k - 1));
      }
    }
  }

  lemma HalfQuotient(x: nat, p: nat)
    requires p > 0
    ensures x / 2 / p == x / (2 * p)
  {
    DivMod(x / 2, p);
    DivModUnique(x, 2 * p, x / 2 / p, 2 * (x / 2 % p) + x % 2);
  }

  /** The least multiple of a positive a that is not below n. */
  function RoundUp(n: nat, a: nat): (r: nat)
    requires a > 0
  {
    (n + a - 1) / a * a
  }

  lemma RoundUpBounds(n: nat, a: nat)
    requires a > 0
    ensures n <= RoundUp(n, a) < n + a && RoundUp(n, a) % a == 0
  {
    var x := n + a - 1;
    DivModTimes(x, a);
    DivModUnique(x / a * a, a, x / a, 0);
  }
}
