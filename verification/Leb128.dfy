/** LEB128 (section 7.6 of DWARF version 5) by its definition: groups of seven bits, least significant first. */
module Leb128 {
  import opened Words
  import opened BitOps

  // ---------- the encodings

  function Enc(v: nat): (s: seq<Byte>)
    ensures s != []
  {
    if v < 128 then [v] else [128 + v % 128] + Enc(v / 128)
  }

  function SEnc(v: int): (s: seq<Byte>)
    ensures s != []
    decreases if v < 0 then -v else v
  {
    if -64 <= v < 64 then [v % 128] else [128 + v % 128] + SEnc(v / 128)
  }

  /** Only the last byte has its high bit clear. */
  predicate Terminated(s: seq<Byte>) {
    s != [] && s[|s| - 1] < 128 && forall i :: 0 <= i < |s| - 1 ==> s[i] >= 128
  }

  /** The number the low seven bits of the bytes make. */
  function Dec(s: seq<Byte>): nat {
    if s == [] then 0 else s[0] % 128 + 128 * Dec(s[1..])
  }

  /** The same with bit 6 of the last byte as the sign. */
  function SDec(s: seq<Byte>): int
    requires s != []
  {
    Dec(s) - if s[|s| - 1] % 128 >= 64 then Pow2(7 * |s|) else 0
  }

  lemma TerminatedCons(b: Byte, s: seq<Byte>)
    requires b >= 128 && Terminated(s)
    ensures Terminated([b] + s)
  {
  }

  /** Decoding an encoding gives the number back. */
  lemma {:induction false} DecEnc(v: nat)
    ensures Terminated(Enc(v)) && Dec(Enc(v)) == v
  {
    if v >= 128 {
      DecEnc(v / 128);
      TerminatedCons(128 + v % 128, Enc(v / 128));
      assert Enc(v)[1..] == Enc(v / 128);
    }
  }

  lemma Pow2Seven(n: nat)
    ensures Pow2(7 * (n + 1)) == 128 * Pow2(7 * n)
  {
    Pow2Add(7 * n, 7);
    assert Pow2(3) == 8;
    Pow2Add(3, 4);
    assert Pow2(7) == 128;
  }

  lemma SDecCons(b: Byte, s: seq<Byte>)
    requires s != []
    ensures SDec([b] + s) == b % 128 + 128 * SDec(s)
  {
    Pow2Seven(|s|);
    assert ([b] + s)[1..] == s;
  }

  lemma SDecOne(b: Byte)
    requires b < 128
    ensures Terminated([b]) && SDec([b]) == if b < 64 then b else b - 128
  {
    Pow2Seven(0);
    assert Dec([b][1..]) == 0;
  }

  lemma {:induction false} SDecSEnc(v: int)
    ensures Terminated(SEnc(v)) && SDec(SEnc(v)) == v
    decreases if v < 0 then -v else v
  {
    hide SDec, Terminated;
    if -64 <= v < 64 {
      SDecOne(v % 128);
    } else {
      SDecSEnc(v / 128);
      TerminatedCons(128 + v % 128, SEnc(v / 128));
      SDecCons(128 + v % 128, SEnc(v / 128));
    }
  }

  /** No shorter sequence of groups denotes the same number. */
  lemma {:induction false} EncIsLeast(v: nat, s: seq<Byte>)
    requires Terminated(s) && Dec(s) == v
    ensures |Enc(v)| <= |s|
    decreases |s|
  {
    if |s| == 1 {
      assert Dec(s[1..]) == 0;
    } else if v >= 128 {
      assert Dec(s[1..]) == v / 128;
      EncIsLeast(v / 128, s[1..]);
    }
  }

  lemma {:induction false} SEncIsLeast(v: int, s: seq<Byte>)
    requires Terminated(s) && SDec(s) == v
    ensures |SEnc(v)| <= |s|
    decreases |s|
  {
    if |s| == 1 {
      Pow2Seven(0);
      assert Dec(s[1..]) == 0;
    } else if !(-64 <= v < 64) {
      assert s == [s[0]] + s[1..];
      SDecCons(s[0], s[1..]);
      SEncIsLeast(v / 128, s[1..]);
    }
  }

  /** n groups hold exactly the numbers below 2^(7 n). */
  lemma {:induction false} EncLength(v: nat, n: nat)
    requires n > 0
    ensures |Enc(v)| <= n <==> v < Pow2(7 * n)
  {
    Pow2Seven(n - 1);
    if n == 1 {
      assert Pow2(0) == 1;
    } else if v >= 128 {
      EncLength(v / 128, n - 1);
    } else {
      Pow2Monotone(0, 7 * (n - 1));
    }
  }

  /** n groups with a sign hold exactly the numbers from -2^(7 n - 1) to 2^(7 n - 1) - 1. */
  lemma {:induction false} SEncLength(v: int, n: nat)
    requires n > 0
    ensures |SEnc(v)| <= n <==> v + Pow2(7 * n - 1) >= 0 && v < Pow2(7 * n - 1)
    decreases n
  {
    var p := Pow2(7 * n - 1);
    Pow2Seven(n - 1);
    assert 2 * p == 128 * Pow2(7 * (n - 1));
    if n == 1 {
      assert Pow2(0) == 1;
    } else {
      assert 2 * Pow2(7 * (n - 1) - 1) == Pow2(7 * (n - 1));
      if -64 <= v < 64 {
        Pow2Monotone(0, 7 * (n - 1));
      } else {
        SEncLength(v / 128, n - 1);
      }
    }
  }

  // ---------- byte by byte

  /** value >> 7 * i, for signed values too. */
  function Shift(v: int, i: nat): int
    decreases i
  {
    if i == 0 then v else Shift(v / 128, i - 1)
  }

  lemma {:induction false} EncByte(v: nat, i: nat)
    requires i < |Enc(v)|
    ensures Shift(v, i) >= 0 && Enc(v)[i] == if i < |Enc(v)| - 1 then 128 + Shift(v, i) % 128 else Shift(v, i)
    decreases i
  {
    if i > 0 { EncByte(v / 128, i - 1); }
  }

  lemma {:induction false} SEncByte(v: int, i: nat)
    requires i < |SEnc(v)|
    ensures SEnc(v)[i] == if i < |SEnc(v)| - 1 then 128 + Shift(v, i) % 128 else Shift(v, i) % 128
    decreases i
  {
    if i > 0 { SEncByte(v / 128, i - 1); }
  }

  /** The sign stays, and what is left at the end fits in seven bits with its sign. */
  lemma {:induction false} SEncLast(v: int)
    ensures -64 <= Shift(v, |SEnc(v)| - 1) < 64 && (v < 0 <==> Shift(v, |SEnc(v)| - 1) < 0)
    decreases if v < 0 then -v else v
  {
    if !(-64 <= v < 64) { SEncLast(v / 128); }
  }

  lemma {:induction false} DecBound(s: seq<Byte>)
    ensures Dec(s) < Pow2(7 * |s|)
  {
    if s != [] {
      DecBound(s[1..]);
      Pow2Seven(|s| - 1);
    }
  }

  lemma {:induction false} DecSnoc(s: seq<Byte>, b: Byte)
    ensures Dec(s + [b]) == Dec(s) + (b % 128) * Pow2(7 * |s|)
  {
    if s == [] {
      assert Dec([b]) == b % 128 + 128 * Dec([b][1..]);
    } else {
      assert (s + [b])[1..] == s[1..] + [b];
      DecSnoc(s[1..], b);
      Pow2Seven(|s| - 1);
      var x, p := b % 128, Pow2(7 * (|s| - 1));
      assert 128 * (x * p) == x * (128 * p);
    }
  }
}
