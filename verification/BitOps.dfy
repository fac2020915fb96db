/** libnetq/BitOps.h: leading zeros and the position of the highest set bit. */
module BitOps {

  function Pow2(n: nat): (r: nat)
    ensures r > 0
  {
    if n == 0 then 1 else 2 * Pow2(n - 1)
  }

  lemma {:induction false} Pow2Add(a: nat, b: nat)
    ensures Pow2(a + b) == Pow2(a) * Pow2(b)
  {
    if b > 0 {
      Pow2Add(a, b - 1);
      assert Pow2(a + b) == 2 * (Pow2(a) * Pow2(b - 1));
    }
  }

  lemma {:induction false} Pow2Monotone(a: nat, b: nat)
    requires a <= b
    ensures Pow2(a) <= Pow2(b)
  {
    if a < b {
      Pow2Monotone(a, b - 1);
    }
  }

  /** x >> i */
  function ShiftRight(x: nat, i: nat): nat {
    if i == 0 then x else ShiftRight(x / 2, i - 1)
  }

  lemma {:induction false} ShiftedOut(x: nat, i: nat)
    ensures ShiftRight(x, i) == 0 <==> x < Pow2(i)
  {
    if i > 0 {
      ShiftedOut(x / 2, i - 1);
    }
  }

  /** The loops of NQGetClz32 and NQGetClz64; `width` is the width of the argument. */
  method GetClz(x: nat, width: nat) returns (zeroCount: nat)
    requires x < Pow2(width)
    ensures zeroCount <= width && x < Pow2(width - zeroCount)
    ensures zeroCount == width <==> x == 0
    ensures zeroCount < width ==> Pow2(width - zeroCount - 1) <= x
  {
    zeroCount := 0;
    var i: nat := width;
    while i > 0
      invariant i <= width && zeroCount == width - i && x < Pow2(i)
    {
      ShiftedOut(x, i - 1);
      if ShiftRight(x, i - 1) != 0 { return; }
      zeroCount := zeroCount + 1;
      i := i - 1;
    }
    assert Pow2(0) == 1;
  }

  /** The number of bits of `x`. */
  function BitLength(x: nat): (r: nat)
    ensures x < Pow2(r)
    ensures x > 0 <==> r > 0
    ensures r > 0 ==> Pow2(r - 1) <= x
  {
    if x == 0 then 0 else 1 + BitLength(x / 2)
  }

  lemma BitLengthUnique(x: nat, n: nat)
    requires x < Pow2(n) && (n > 0 ==> Pow2(n - 1) <= x)
    ensures n == BitLength(x)
  {
    var r := BitLength(x);
    if r < n {
      Pow2Monotone(r, n - 1);
    } else if n < r {
      Pow2Monotone(n, r - 1);
    }
  }

  /** NQGetFls64 and, with another width, NQGetFls32. */
  method GetFls(x: nat, width: nat) returns (r: nat)
    requires x < Pow2(width)
    ensures r == BitLength(x)
  {
    var zeros := GetClz(x, width);
    r := width - zeros;
    BitLengthUnique(x, r);
  }
}
