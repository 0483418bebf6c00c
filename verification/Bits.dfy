/** Bitwise conjunction on integers, and what the alignment masks of the two renderers compute. */
module Bits {

  function Pow2(k: nat): (p: nat)
    ensures p >= 1
  {
    if k == 0 then 1 else 2 * Pow2(k - 1)
  }

  /** `x & y` in two's complement, bit by bit from the low end; `/` and `%` by 2 floor, so `y` may be negative. */
  function And(x: nat, y: int): nat {
    if x == 0 then 0 else 2 * And(x / 2, y / 2) + (x % 2) * (y % 2)
  }

  /** `~x` in two's complement. */
  function Not(x: int): int {
    -x - 1
  }

  lemma {:induction false} ModDouble(x: nat, b: nat)
    requires b >= 1
    ensures x % (2 * b) == 2 * ((x / 2) % b) + x % 2
    ensures x / (2 * b) == (x / 2) / b
  {
    var q, r := (x / 2) / b, (x / 2) % b;
    assert x / 2 == q * b + r;
    var s := 2 * r + x % 2;
    assert x == q * (2 * b) + s by {
      assert x == 2 * (x / 2) + x % 2;
      assert 2 * (q * b) == q * (2 * b);
    }
    DivModUnique(x, 2 * b, q, s);
  }

  lemma DivModUnique(x: nat, d: nat, q: nat, s: nat)
    requires d >= 1 && s < d && x == q * d + s
    ensures x / d == q && x % d == s
  {
    var q', s' := x / d, x % d;
    if q < q' {
      MulStep(d, q, q');
    } else if q' < q {
      MulStep(d, q', q);
    }
  }

  lemma MulStep(d: nat, m: nat, n: nat)
    requires m < n
    ensures m * d + d <= n * d
    decreases n
  {
    if m + 1 < n {
      MulStep(d, m, n - 1);
    }
  }

  /** Masking with `~(a - 1)` for a power of two rounds down to a multiple of `a`. */
  lemma {:induction false} MaskRoundsDown(x: nat, k: nat)
    ensures And(x, Not(Pow2(k) - 1)) == x - x % Pow2(k)
    decreases k, x
  {
    if x == 0 {
    } else if k == 0 {
      MaskRoundsDown(x / 2, 0);
    } else {
      MaskRoundsDown(x / 2, k - 1);
      ModDouble(x, Pow2(k - 1));
      assert Not(Pow2(k) - 1) / 2 == Not(Pow2(k - 1) - 1);
    }
  }

  /** The same with the mask cut to `w` bits, for numbers of at most `w` bits. */
  lemma {:induction false} MaskWithin(x: nat, k: nat, w: nat)
    requires k <= w && x < Pow2(w)
    ensures And(x, Pow2(w) - Pow2(k)) == x - x % Pow2(k)
    decreases w
  {
    hide And;
    if k == 0 {
      MaskIsMod(x, w);
      ModSmall(x, Pow2(w));
    } else {
      MaskWithin(x / 2, k - 1, w - 1);
      ModDouble(x, Pow2(k - 1));
      AndEven(x, Pow2(w - 1) - Pow2(k - 1));
    }
  }

  lemma AndEven(x: nat, y: int)
    ensures And(x, 2 * y) == 2 * And(x / 2, y)
  {
    assert (2 * y) / 2 == y && (2 * y) % 2 == 0;
  }

  lemma ModSmall(x: nat, d: nat)
    requires x < d
    ensures x % d == x
  {
  }

  /** Masking with `a - 1` for a power of two is the remainder. */
  lemma {:induction false} MaskIsMod(x: nat, k: nat)
    ensures And(x, Pow2(k) - 1) == x % Pow2(k)
    decreases k, x
  {
    if x == 0 {
    } else if k == 0 {
      MaskIsMod(x / 2, 0);
    } else {
      MaskIsMod(x / 2, k - 1);
      ModDouble(x, Pow2(k - 1));
      assert (Pow2(k) - 1) / 2 == Pow2(k - 1) - 1;
    }
  }

  /** `r` is the first multiple of `a` at or after `x`. */
  ghost predicate LeastAligned(r: nat, x: nat, a: nat)
    requires a >= 1
  {
    x <= r && r % a == 0 && forall m: nat | x <= m < r :: m % a != 0
  }

  /** Adding `a - 1` before masking rounds up to the next multiple of `a`. */
  lemma MaskRoundsUp(x: nat, k: nat)
    ensures LeastAligned(And(x + (Pow2(k) - 1), Not(Pow2(k) - 1)), x, Pow2(k))
  {
    MaskRoundsDown(x + (Pow2(k) - 1), k);
    RoundUpLeast(x, Pow2(k));
  }

  lemma RoundUpLeast(x: nat, a: nat)
    requires a >= 1
    ensures var y := x + (a - 1); LeastAligned(y - y % a, x, a)
  {
    var y := x + (a - 1);
    var q := y / a;
    var r := q * a;
    assert r == y - y % a;
    DivModUnique(r, a, q, 0);
    forall m: nat | x <= m < r
      ensures m % a != 0
    {
      NoMultipleBetween(a, q, m);
    }
  }

  lemma NoMultipleBetween(a: nat, q: nat, m: nat)
    requires a >= 1 && m < q * a < m + a
    ensures m % a != 0
  {
    var n := m / a;
    if n < q {
      MulStep(a, n, q);
    } else {
      MulLe(a, q, n);
    }
  }

  lemma MulLe(d: nat, m: nat, n: nat)
    requires m <= n
    ensures m * d <= n * d
  {
    if m < n {
      MulStep(d, m, n);
    }
  }
}
