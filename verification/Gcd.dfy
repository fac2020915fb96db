/** nq_gcd64 of libnetq/Math.c (the variant NQ_GCD_TYPE 8). */
module Gcd {

  ghost predicate Divides(d: int, x: int) {
    exists k: int :: x == d * k
  }

  lemma DividesSum(d: int, x: int, y: int, p: int, q: int)
    requires Divides(d, x) && Divides(d, y)
    ensures Divides(d, p * x + q * y)
  {
    var k: int :| x == d * k;
    var l: int :| y == d * l;
    assert p * x + q * y == d * (p * k + q * l);
  }

  lemma DividesZero(d: int)
    ensures Divides(d, 0)
  {
    assert 0 == d * 0;
  }

  /** Dividing out a factor 2 next to an odd number changes no common divisor. */
  lemma HalvingKeeps(d: int, r: int, m: int, b: int)
    requires b % 2 == 1
    ensures Divides(d, r * (2 * m)) && Divides(d, r * b) <==> Divides(d, r * m) && Divides(d, r * b)
  {
    var c := b / 2;
    if Divides(d, r * (2 * m)) && Divides(d, r * b) {
      DividesSum(d, r * (2 * m), r * b, -c, m);
      assert -c * (r * (2 * m)) + m * (r * b) == r * m by { assert b == 2 * c + 1; Spread(r, m, c); }
    }
    if Divides(d, r * m) {
      DividesZero(d);
      DividesSum(d, r * m, 0, 2, 0);
      assert r * (2 * m) == 2 * (r * m) + 0 * 0;
    }
  }

  lemma Spread(r: int, m: int, c: int)
    ensures -c * (r * (2 * m)) + m * (r * (2 * c + 1)) == r * m
  {
  }

  /** Subtracting one number from the other changes no common divisor either. */
  lemma DifferenceKeeps(d: int, r: int, a: int, b: int)
    ensures Divides(d, r * a) && Divides(d, r * b) <==> Divides(d, r * (b - a)) && Divides(d, r * a)
  {
    assert r * (b - a) == r * b - r * a;
    if Divides(d, r * a) && Divides(d, r * b) {
      DividesSum(d, r * a, r * b, -1, 1);
      assert -1 * (r * a) + 1 * (r * b) == r * (b - a);
    }
    if Divides(d, r * (b - a)) && Divides(d, r * a) {
      DividesSum(d, r * (b - a), r * a, 1, 1);
      assert 1 * (r * (b - a)) + 1 * (r * a) == r * b;
    }
  }

  /** `g` is the greatest common divisor of `a` and `b`: its divisors are exactly their common ones. */
  ghost predicate IsGcd(g: int, a: int, b: int) {
    g >= 0 && forall d: int :: Divides(d, g) <==> Divides(d, a) && Divides(d, b)
  }

  /** The common divisors of `r * a` and `r * b` are those of `a0` and `b0`. */
  ghost predicate SameDivisors(r: int, a: int, b: int, a0: int, b0: int) {
    forall d: int :: Divides(d, r * a) && Divides(d, r * b) <==> Divides(d, a0) && Divides(d, b0)
  }

  lemma DividesOne(d: int, x: int)
    ensures Divides(d, 1) ==> Divides(d, x)
  {
    if Divides(d, 1) {
      DividesZero(d);
      DividesSum(d, 1, 0, x, 0);
      assert x * 1 + 0 * 0 == x;
    }
  }

  lemma HalveFirst(r: int, m: int, b: int, a0: int, b0: int)
    requires SameDivisors(r, 2 * m, b, a0, b0) && b % 2 == 1
    ensures SameDivisors(r, m, b, a0, b0)
  {
    forall d: int ensures Divides(d, r * m) && Divides(d, r * b) <==> Divides(d, a0) && Divides(d, b0) {
      HalvingKeeps(d, r, m, b);
    }
  }

  lemma Swapped(r: int, a: int, b: int, a0: int, b0: int)
    requires SameDivisors(r, a, b, a0, b0)
    ensures SameDivisors(r, b, a, a0, b0)
  {
  }

  lemma Halved(r: int, m: int, n: int, a0: int, b0: int)
    requires SameDivisors(r, 2 * m, 2 * n, a0, b0)
    ensures SameDivisors(2 * r, m, n, a0, b0)
  {
    hide Divides;
    assert r * (2 * m) == 2 * r * m && r * (2 * n) == 2 * r * n;
  }

  lemma Subtracted(r: int, a: int, b: int, a0: int, b0: int)
    requires SameDivisors(r, a, b, a0, b0)
    ensures SameDivisors(r, b - a, a, a0, b0)
  {
    forall d: int ensures Divides(d, r * (b - a)) && Divides(d, r * a) <==> Divides(d, a0) && Divides(d, b0) {
      DifferenceKeeps(d, r, a, b);
    }
  }

  lemma AtZero(r: int, x: int, a0: int, b0: int)
    requires SameDivisors(r, 0, x, a0, b0) && r * x >= 0
    ensures IsGcd(r * x, a0, b0)
  {
    assert r * 0 == 0;
    forall d: int ensures Divides(d, r * x) <==> Divides(d, a0) && Divides(d, b0) {
      DividesZero(d);
    }
  }

  lemma Smaller(r: int, m: int, n: int)
    requires r >= 0 && m <= n
    ensures r * m <= r * n
  {
  }

  lemma Moved(r: int, m: int)
    ensures (2 * r) * m == r * (2 * m)
  {
  }

  function Max(a: int, b: int): int { if a < b then b else a }

  /** The loop invariant: no common divisor is lost or won, and no product exceeds the arguments, so that nothing
      overflows. */
  ghost predicate Going(r: int, a: int, b: int, x: int, y: int) {
    r >= 1 && a >= 0 && b >= 0 && SameDivisors(r, a, b, x, y) && r * a <= Max(x, y) && r * b <= Max(x, y)
  }

  lemma GoingSwapped(r: int, a: int, b: int, x: int, y: int)
    requires Going(r, a, b, x, y)
    ensures Going(r, b, a, x, y)
  {
  }

  lemma BothEven(r: int, a: int, b: int, x: int, y: int)
    requires Going(r, a, b, x, y) && a % 2 == 0 && b % 2 == 0
    ensures Going(2 * r, a / 2, b / 2, x, y)
  {
    hide SameDivisors;
    Halved(r, a / 2, b / 2, x, y);
    Moved(r, a / 2);
    Moved(r, b / 2);
  }

  lemma FirstEven(r: int, a: int, b: int, x: int, y: int)
    requires Going(r, a, b, x, y) && a % 2 == 0 && b % 2 == 1
    ensures Going(r, a / 2, b, x, y)
  {
    hide SameDivisors;
    HalveFirst(r, a / 2, b, x, y);
    Smaller(r, a / 2, a);
  }

  lemma BothOdd(r: int, a: int, b: int, x: int, y: int)
    requires Going(r, a, b, x, y) && a % 2 == 1 && b % 2 == 1 && a <= b
    ensures Going(r, (b - a) / 2, a, x, y)
  {
    hide SameDivisors;
    Subtracted(r, a, b, x, y);
    assert b - a == 2 * ((b - a) / 2);
    HalveFirst(r, (b - a) / 2, a, x, y);
    Smaller(r, (b - a) / 2, b);
  }

  lemma Ends(r: int, b: int, x: int, y: int)
    requires Going(r, 0, b, x, y)
    ensures IsGcd(r * b, x, y) && r * b <= Max(x, y)
  {
    hide SameDivisors;
    assert r * b >= 0;
    AtZero(r, b, x, y);
  }

  method Gcd64(x: int, y: int) returns (g: int)
    requires x >= 0 && y >= 0
    ensures IsGcd(g, x, y) && g <= Max(x, y)
  {
    hide Going, IsGcd;
    Special(x, y);
    if x == 0 {
      return y;
    }
    if y == 0 || x == y {
      return x;
    }
    if x == 1 || y == 1 {
      return 1;
    }
    var a, b, result := x, y, 1;
    while a != 0 && b != 0
      invariant a >= 0 && b >= 0 && Going(result, a, b, x, y)
      decreases a + b
    {
      if a % 2 == 0 && b % 2 == 0 {
        BothEven(result, a, b, x, y);
        result, a, b := 2 * result, a / 2, b / 2;
      } else if a % 2 == 0 {
        FirstEven(result, a, b, x, y);
        a := a / 2;
      } else if b % 2 == 0 {
        GoingSwapped(result, a, b, x, y);
        FirstEven(result, b, a, x, y);
        GoingSwapped(result, b / 2, a, x, y);
        b := b / 2;
      } else {
        if a > b {
          GoingSwapped(result, a, b, x, y);
          a, b := b, a;
        }
        BothOdd(result, a, b, x, y);
        a, b := (b - a) / 2, a;
      }
    }
    if a == 0 {
      Ends(result, b, x, y);
      return result * b;
    }
    GoingSwapped(result, a, b, x, y);
    Ends(result, a, x, y);
    g := result * a;
  }

  lemma Special(x: int, y: int)
    requires x >= 0 && y >= 0
    ensures x == 0 ==> IsGcd(y, x, y)
    ensures y == 0 || x == y ==> IsGcd(x, x, y)
    ensures x == 1 || y == 1 ==> IsGcd(1, x, y)
    ensures Going(1, x, y, x, y)
  {
    forall d: int ensures Divides(d, 0) && (Divides(d, 1) ==> Divides(d, x) && Divides(d, y)) {
      DividesZero(d);
      DividesOne(d, x);
      DividesOne(d, y);
    }
  }
}
