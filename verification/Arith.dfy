/**
 Integer arithmetic of the size computations. Products of variables are written as repeated addition
 (`Times`) and rounding up as repeated subtraction (`CeilDiv`), which keeps non-linear terms out of
 invariants; the formulas that the code computes with are connected to them once, here.
 */
module Arith {

  function Min(a: int, b: int): int {
    if a <= b then a else b
  }

  function Times(x: nat, k: nat): nat {
    if x == 0 then 0 else Times(x - 1, k) + k
  }

  /** The number of blocks of size `b` needed to hold `a` items. */
  function CeilDiv(a: nat, b: nat): nat
    requires b > 0
    decreases a
  {
    if a == 0 then 0 else if a <= b then 1 else CeilDiv(a - b, b) + 1
  }

  lemma {:induction false} TimesIsProduct(x: nat, k: nat)
    ensures Times(x, k) == x * k
  {
    if x > 0 {
      TimesIsProduct(x - 1, k);
      assert x * k == (x - 1) * k + k;
    }
  }

  lemma {:induction false} TimesMono(x: nat, y: nat, k: nat)
    requires x <= y
    ensures Times(x, k) <= Times(y, k)
    ensures x < y ==> Times(x, k) + k <= Times(y, k)
  {
    if x < y {
      TimesMono(x, y - 1, k);
    }
  }

  lemma TimesMonoIf(x: nat, y: nat, k: nat)
    ensures x <= y ==> Times(x, k) <= Times(y, k)
  {
    if x <= y {
      TimesMono(x, y, k);
    }
  }

  lemma {:induction false} TimesAdd(x: nat, y: nat, k: nat)
    ensures Times(x + y, k) == Times(x, k) + Times(y, k)
  {
    if y > 0 {
      TimesAdd(x, y - 1, k);
    }
  }

  lemma {:induction false} TimesSplit(x: nat, a: nat, b: nat)
    ensures Times(x, a + b) == Times(x, a) + Times(x, b)
  {
    if x > 0 {
      TimesSplit(x - 1, a, b);
    }
  }

  lemma {:induction false} TimesAssoc(x: nat, y: nat, k: nat)
    ensures Times(Times(x, y), k) == Times(x, Times(y, k))
  {
    if x > 0 {
      TimesAssoc(x - 1, y, k);
      TimesAdd(Times(x - 1, y), y, k);
    }
  }

  /** The number of whole blocks in `size` is determined by the block that the last byte falls into. */
  lemma TimesUnique(m: nat, n: nat, k: nat, size: nat)
    requires m > 0 && n > 0
    requires Times(m - 1, k) < size <= Times(m, k) && Times(n - 1, k) < size <= Times(n, k)
    ensures m == n
  {
    TimesMonoIf(m, n - 1, k);
    TimesMonoIf(n, m - 1, k);
  }

  method Multiply(x: nat, k: nat) returns (r: nat)
    ensures r == Times(x, k)
  {
    TimesIsProduct(x, k);
    r := x * k;
  }

  lemma MulMono(a: int, b: int, k: nat)
    requires a <= b
    ensures a * k <= b * k
  {
    assert (b - a) * k >= 0;
    assert (b - a) * k == b * k - a * k;
  }

  lemma DivBounds(a: nat, b: nat)
    requires b > 0
    ensures a / b * b <= a < a / b * b + b
    ensures a / b * b == a - a % b
  {
  }

  /** Quotient and remainder are the only pair with this property. */
  lemma DivUnique(a: nat, b: nat, q: nat, r: nat)
    requires b > 0 && a == q * b + r && r < b
    ensures a / b == q && a % b == r
  {
    var q', r' := a / b, a % b;
    assert a == q' * b + r';
    assert (q' + 1) * b == q' * b + b && (q + 1) * b == q * b + b;
    if q > q' {
      MulMono(q' + 1, q, b);
    } else if q < q' {
      MulMono(q + 1, q', b);
    }
  }

  /** CeilDiv is the least number of blocks that is enough. */
  lemma {:induction false} CeilDivBounds(a: nat, b: nat)
    requires b > 0
    ensures a <= Times(CeilDiv(a, b), b)
    ensures a > 0 ==> CeilDiv(a, b) > 0 && Times(CeilDiv(a, b) - 1, b) < a
    decreases a
  {
    if a > b {
      CeilDivBounds(a - b, b);
    }
  }

  lemma CeilDivAtMost(a: nat, b: nat, n: nat)
    requires b > 0 && a <= Times(n, b)
    ensures CeilDiv(a, b) <= n
  {
    var c := CeilDiv(a, b);
    CeilDivBounds(a, b);
    TimesMonoIf(n, if c > 0 then c - 1 else 0, b);
  }

  lemma CeilDivUnique(a: nat, b: nat, n: nat)
    requires b > 0 && n > 0 && Times(n - 1, b) < a <= Times(n, b)
    ensures CeilDiv(a, b) == n
  {
    CeilDivBounds(a, b);
    TimesUnique(n, CeilDiv(a, b), b, a);
  }

  /** Rounding up as `a / b`, plus one if there is a remainder. */
  lemma CeilDivByRemainder(a: nat, b: nat)
    requires b > 0
    ensures CeilDiv(a, b) == a / b + if a % b != 0 then 1 else 0
    ensures Times(a / b, b) == a - a % b
  {
    var q := a / b;
    DivBounds(a, b);
    TimesIsProduct(q, b);
    if a % b != 0 {
      CeilDivUnique(a, b, q + 1);
    } else if q > 0 {
      CeilDivUnique(a, b, q);
    }
  }

  /** Rounding up as `(a + (b - 1)) / b`. */
  lemma CeilDivByShift(a: nat, b: nat)
    requires b > 0
    ensures CeilDiv(a, b) == (a + (b - 1)) / b
  {
    var c := CeilDiv(a, b);
    CeilDivBounds(a, b);
    TimesIsProduct(c, b);
    if a > 0 {
      assert Times(c, b) == Times(c - 1, b) + b;
    }
    DivUnique(a + (b - 1), b, c, a + (b - 1) - c * b);
  }

  method RoundUp(a: nat, b: nat) returns (n: nat)
    requires b > 0
    ensures n == CeilDiv(a, b)
  {
    CeilDivByShift(a, b);
    n := (a + (b - 1)) / b;
  }
}
