/** Division facts, the greatest common divisor of a list, and a little about the prime 1289. */
module Arithmetic {

  predicate Divides(d: nat, n: int)
    requires d > 0
  {
    n % d == 0
  }

  lemma Scale(d: int, k: int)
    requires d >= 0
    ensures k >= 1 ==> d * k >= d
    ensures k <= -1 ==> d * k <= -d
  {
  }

  lemma Quotient(d: nat, q: int, r: int)
    requires d > 0 && 0 <= r < d
    ensures (d * q + r) % d == r && (d * q + r) / d == q
  {
    var n := d * q + r;
    assert d * (q - n / d) == n % d - r;
    Scale(d, q - n / d);
  }

  lemma ModShift(d: nat, a: int, m: int)
    requires d > 0
    ensures (a + d * m) % d == a % d
  {
    var q, r := a / d, a % d;
    assert a + d * m == d * (q + m) + r;
    Quotient(d, q + m, r);
  }

  lemma MultipleOf(d: nat, k: int)
    requires d > 0
    ensures Divides(d, d * k)
  {
    Quotient(d, k, 0);
  }

  /** A remainder step keeps the common divisors. */
  lemma RemainderDivisors(d: nat, x: nat, y: nat)
    requires d > 0 && y > 0 && Divides(d, y)
    ensures Divides(d, x) <==> Divides(d, x % y)
  {
    var k := y / d;
    var q := x / y;
    assert y == d * k;
    assert x == y * q + x % y;
    assert y * q == d * (k * q) by { assert (d * k) * q == d * (k * q); }
    ModShift(d, x % y, k * q);
  }

  ghost predicate CommonDivisor(d: nat, numbers: seq<int>)
    requires d > 0
  {
    forall k :: 0 <= k < |numbers| ==> Divides(d, numbers[k])
  }

  /** The divisors of `g` are the common divisors of `numbers`. */
  ghost predicate IsGCD(g: nat, numbers: seq<int>) {
    forall d: nat :: d > 0 ==> (Divides(d, g) <==> CommonDivisor(d, numbers))
  }

  function Abs(n: int): nat {
    if n < 0 then -n else n
  }

  lemma AbsDivisors(d: nat, n: int)
    requires d > 0
    ensures Divides(d, n) <==> Divides(d, Abs(n))
  {
    var q := n / d;
    if Divides(d, n) {
      assert -n == d * (-q);
      MultipleOf(d, -q);
    }
    if Divides(d, Abs(n)) && n < 0 {
      var p := Abs(n) / d;
      assert n == d * (-p);
      MultipleOf(d, -p);
    }
  }

  /** Greatest in the usual sense. */
  lemma GCDIsGreatest(g: nat, numbers: seq<int>)
    requires IsGCD(g, numbers) && exists k :: 0 <= k < |numbers| && numbers[k] != 0
    ensures g > 0 && CommonDivisor(g, numbers)
    ensures forall d: nat :: d > 0 && CommonDivisor(d, numbers) ==> d <= g
  {
    var k :| 0 <= k < |numbers| && numbers[k] != 0;
    if g == 0 {
      AbsDivisors(Abs(numbers[k]) + 1, numbers[k]);
      TooSmall(Abs(numbers[k]) + 1, Abs(numbers[k]));
      assert Divides(Abs(numbers[k]) + 1, g);
    }
    forall d: nat | d > 0 && CommonDivisor(d, numbers)
      ensures d <= g
    {
      assert Divides(d, g);
      if d > g { TooSmall(d, g); }
    }
  }

  lemma TooSmall(d: nat, n: nat)
    requires 0 < n < d
    ensures !Divides(d, n)
  {
  }

  ghost predicate SameDivisors(x: nat, y: nat, a: nat, b: nat) {
    forall d: nat :: d > 0 ==> (Divides(d, x) && Divides(d, y) <==> Divides(d, a) && Divides(d, b))
  }

  lemma Reduce(x: nat, y: nat, a: nat, b: nat)
    requires SameDivisors(x, y, a, b) && y > 0
    ensures SameDivisors(x % y, y, a, b)
  {
    forall d: nat | d > 0
      ensures Divides(d, x % y) && Divides(d, y) <==> Divides(d, a) && Divides(d, b)
    {
      if Divides(d, y) { RemainderDivisors(d, x, y); }
    }
  }

  /** The greatest common divisor of two numbers, by remainders. */
  method PairGCD(a: nat, b: nat) returns (g: nat)
    ensures forall d: nat :: d > 0 ==> (Divides(d, g) <==> Divides(d, a) && Divides(d, b))
  {
    var x: nat, y: nat := a, b;
    while x != 0 && y != 0
      invariant SameDivisors(x, y, a, b)
      decreases x + y
    {
      if x > y {
        Reduce(x, y, a, b);
        x := x % y;
      } else {
        Reduce(y, x, b, a);
        y := y % x;
      }
    }
    return x + y;
  }

  method GCD(numbers: seq<int>) returns (x: nat)
    requires numbers != []
    ensures IsGCD(x, numbers)
  {
    x := Abs(numbers[0]);
    forall d: nat | d > 0 { AbsDivisors(d, numbers[0]); }
    assert IsGCD(x, numbers[..1]);
    for i := 1 to |numbers|
      invariant IsGCD(x, numbers[..i])
    {
      ghost var was := x;
      x := PairGCD(x, Abs(numbers[i]));
      forall d: nat | d > 0
        ensures Divides(d, x) <==> CommonDivisor(d, numbers[..i + 1])
      {
        AbsDivisors(d, numbers[i]);
        assert numbers[..i + 1] == numbers[..i] + [numbers[i]];
        assert CommonDivisor(d, numbers[..i + 1]) <==> CommonDivisor(d, numbers[..i]) && Divides(d, numbers[i]);
      }
    }
    assert numbers[..|numbers|] == numbers;
  }

  /** ---------- the prime of the proposer slots ---------- */

  const SLOT_FACTOR: nat := 1289

  lemma SmallFactors(d: nat)
    requires 1 < d < 36
    ensures SLOT_FACTOR % d != 0
  {
  }

  lemma SlotFactorIsPrime(m: nat, k: nat)
    requires m * k == SLOT_FACTOR
    ensures m == 1 || m == SLOT_FACTOR
  {
    if 1 < m < 36 {
      SmallFactors(m);
      MultipleOf(m, k);
    } else if 1 < k < 36 {
      SmallFactors(k);
      MultipleOf(k, m);
    } else if m >= 36 && k >= 36 {
      Grow(m, k, 36);
    }
  }

  lemma Grow(m: nat, k: nat, b: nat)
    requires m >= b && k >= b
    ensures m * k >= b * b
  {
    assert m * k == m * (k - b) + m * b;
    assert m * b == (m - b) * b + b * b;
  }

  /** Unless 1289 divides `T`, no multiple of 1289 by less than `T` is a multiple of `T`. */
  lemma {:induction false} NoSmallMultiple(T: nat, d: nat)
    requires 0 < d < T && !Divides(SLOT_FACTOR, T)
    ensures !Divides(T, SLOT_FACTOR * d)
    decreases d
  {
    if Divides(T, SLOT_FACTOR * d) {
      var q, r, k := T / d, T % d, SLOT_FACTOR * d / T;
      assert T == d * q + r && SLOT_FACTOR * d == T * k;
      if r == 0 {
        FactorOut(T, d, q, k);
      } else {
        assert SLOT_FACTOR * r == T * (SLOT_FACTOR - q * k) by { RemainderMultiple(T, d, q, r, k); }
        MultipleOf(T, SLOT_FACTOR - q * k);
        NoSmallMultiple(T, r);
      }
    }
  }

  lemma RemainderMultiple(T: nat, d: nat, q: nat, r: nat, k: nat)
    requires T == d * q + r && SLOT_FACTOR * d == T * k
    ensures SLOT_FACTOR * r == T * (SLOT_FACTOR - q * k)
  {
    assert SLOT_FACTOR * (d * q) == (T * k) * q;
    assert (T * k) * q == T * (q * k);
  }

  lemma FactorOut(T: nat, d: nat, q: nat, k: nat)
    requires 0 < d < T && T == d * q && SLOT_FACTOR * d == T * k
    ensures Divides(SLOT_FACTOR, T)
  {
    assert d * (q * k) == d * SLOT_FACTOR;
    SameFactor(d, q * k, SLOT_FACTOR);
    SlotFactorIsPrime(q, k);
    MultipleOf(SLOT_FACTOR, d);
  }

  lemma SameFactor(d: nat, a: int, b: int)
    requires d > 0 && d * a == d * b
    ensures a == b
  {
    assert d * (a - b) == 0;
    Scale(d, a - b);
  }
}
