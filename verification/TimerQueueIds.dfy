/** Identifiers of timers: the slot and how often it has been released, through 32-bit wrap-around. */
module TimerQueueIds {
  import opened Words
  import opened BitOps
  import opened TimerQueueModel

  lemma ModUnique(x: int, n: nat, q: int, r: nat)
    requires r < n && x == n * q + r
    ensures x % n == r && x / n == q
  {
    var d := q - x / n;
    assert n * d == x % n - r;
    assert d > 0 ==> n * d >= n;
    assert d < 0 ==> n * d + n <= 0;
  }

  lemma ModMod(x: int, n: nat, m: nat)
    requires n > 0 && m > 0
    ensures n * m > 0 && x % (n * m) % n == x % n
  {
    assert n * m > 0;
    var w := n * m;
    var q, r := x / w, x % w;
    assert x == w * q + r == n * (m * q) + r;
    assert r == n * (r / n) + r % n;
    assert x == n * (m * q + r / n) + r % n;
    ModUnique(x, n, m * q + r / n, r % n);
  }

  /** How many different identifiers a slot has. */
  function Generations(allocCount: nat): nat
    requires allocCount > 0
  {
    WORD / allocCount
  }

  lemma Pow2Of32()
    ensures Pow2(16) == 0x1_0000 && Pow2(32) == WORD
  {
    assert Pow2(4) == 16;
    Pow2Add(4, 4);
    Pow2Add(8, 8);
    Pow2Add(16, 16);
  }

  lemma GenerationsDivide(n: nat)
    requires Sized(n)
    ensures n * Generations(n) == WORD && 2 <= n <= 0x1_0000 && Generations(n) >= 0x1_0000
  {
    var k :| 1 <= k <= 16 && n == Pow2(k);
    Pow2Of32();
    Pow2Add(k, 32 - k);
    Pow2Monotone(1, k);
    Pow2Monotone(k, 16);
    Pow2Monotone(16, 32 - k);
    ModUnique(WORD, n, Pow2(32 - k), 0);
  }

  lemma WrapOnce(y: nat)
    ensures ((y + 1) % WORD + WORD - 1) % WORD == y % WORD
  {
  }

  lemma SlotAt(n: nat, m: nat, i: nat, u: nat)
    requires n * m == WORD && i < n
    ensures (i + u * n) % WORD % n == i
  {
    ModMod(i + u * n, n, m);
    ModUnique(i + u * n, n, u, i);
  }

  /** Whatever the wrap-around, an identifier names the slot it was made for. */
  lemma SlotOfId(n: nat, i: nat, u: nat)
    requires Sized(n) && i < n
    ensures SlotOf(n, IdOf(n, i, u)) == i
  {
    hide Sized, Generations;
    GenerationsDivide(n);
    SlotAt(n, Generations(n), i, u);
    WrapOnce(i + u * n);
  }

  lemma SmallMultiple(n: nat, m: nat, r: nat)
    requires n * m == WORD && r < m
    ensures r * n < WORD && (r * n == 0 <==> r == 0)
  {
    assert (m - 1 - r) * n >= 0;
    assert (m - 1 - r) * n == m * n - n - r * n;
    assert r > 0 ==> r * n >= n;
  }

  lemma SplitMultiple(n: nat, m: nat, q: nat, r: nat)
    requires n * m == WORD
    ensures (m * q + r) * n == WORD * q + r * n
  {
    assert (m * q + r) * n == n * m * q + r * n;
  }

  /** d * n mod 2^32 vanishes exactly when d is a multiple of m = 2^32 / n. */
  lemma MultipleOfWord(n: nat, m: nat, d: nat)
    requires n * m == WORD && m > 0
    ensures (d * n) % WORD == 0 <==> d % m == 0
  {
    SmallMultiple(n, m, d % m);
    SplitMultiple(n, m, d / m, d % m);
    var z := (d % m) * n;
    assert d * n == WORD * (d / m) + z;
  }

  lemma SameRemainder(x: nat, d: nat)
    ensures x % WORD == (x + d) % WORD <==> d % WORD == 0
  {
  }

  /** Two identifiers of a slot agree exactly when the numbers of releases differ by a multiple of
      2^32 / allocCount. */
  lemma SameId(n: nat, i: nat, u: nat, v: nat)
    requires Sized(n) && u <= v
    ensures Generations(n) > 0 && (IdOf(n, i, u) == IdOf(n, i, v) <==> (v - u) % Generations(n) == 0)
  {
    hide Sized, Generations;
    GenerationsDivide(n);
    MultipleOfWord(n, Generations(n), v - u);
    var x := i + 1 + u * n;
    assert x + (v - u) * n == i + 1 + v * n;
    SameRemainder(x, (v - u) * n);
  }

  lemma ZeroRemainder(n: nat, m: nat, i: nat, u: nat)
    requires n * m == WORD && i < n && (i + 1 + u * n) % WORD == 0
    ensures i == n - 1
  {
    var x := i + 1 + u * n;
    assert x % WORD % n == x % n by { ModMod(x, n, m); }
    assert 0 % n == 0 by { ModUnique(0, n, 0, 0); }
    if i < n - 1 { ModUnique(x, n, u, i + 1); }
  }

  /** An identifier in use can be 0, which callers take for "no timer": exactly in the last slot, and once
      every 2^32 / allocCount releases. */
  lemma ZeroId(n: nat, i: nat, u: nat)
    requires Sized(n) && i < n
    ensures Generations(n) > 0 && (IdOf(n, i, u) == INVALID <==> i == n - 1 && (u + 1) % Generations(n) == 0)
  {
    hide Sized, Generations;
    GenerationsDivide(n);
    var m := Generations(n);
    if IdOf(n, i, u) == 0 { ZeroRemainder(n, m, i, u); }
    MultipleOfWord(n, m, u + 1);
    assert (u + 1) * n == n + u * n;
  }
}
