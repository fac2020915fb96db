/** NQLeb128Dec of libnetq/Leb128.c: the decoder that is fed one byte at a time. */
module Leb128Stream {
  import opened Words
  import opened BitOps
  import opened Leb128
  import opened Leb128Codec

  const LIMIT := 0x1_0000_0000_0000_0000

  function Max(a: nat, b: nat): nat { if a < b then b else a }

  /** valueUint64 & ~highMask: the bits below `width`. */
  function Low(value: nat, width: nat): nat {
    if width >= 64 then value else value % Pow2(width)
  }

  /** valueUint64 | highMask. */
  function High(value: nat, width: nat): nat
    requires value < LIMIT
  {
    if width >= 64 then value else
      Pow2Of64();
      Pow2Monotone(width, 64);
      value % Pow2(width) + (LIMIT - Pow2(width))
  }

  class Decoder {
    var value: nat
    var bitWidth: nat
    var isSigned: bool

    /** NQLeb128Dec_init. */
    constructor (isSigned: bool)
      ensures value == 0 && bitWidth == 0 && this.isSigned == isSigned
    {
      value, bitWidth := 0, 0;
      this.isSigned := isSigned;
    }

    /** NQLeb128Dec_update. The groups before the last one leave room for it: the shift stays below 64. */
    method Update(byte: Byte) returns (done: bool)
      requires bitWidth < 64 && value < Pow2(bitWidth)
      modifies this`value, this`bitWidth
      ensures var w := old(bitWidth); var v := (old(value) + byte % 128 * Pow2(w)) % LIMIT;
        && done == (byte < 128)
        && (!done ==> value == v && bitWidth == w + 7)
        && (done && !isSigned ==> value == Low(v, w + 7) && bitWidth == Max(w + BitLength(byte), 1))
        && (done && isSigned ==>
              && value == (if byte < 64 then Low(v, w + 7) else High(v, w + 7))
              && bitWidth == Max(w + 1 + BitLength(if byte < 64 then byte else 127 - byte), 2))
    {
      hide Pow2, BitOr, BitLength;
      ShiftedIn(value, byte % 128, bitWidth);
      value := BitOr((byte % 128 * Pow2(bitWidth)) % LIMIT, value);
      bitWidth := bitWidth + 7;
      if byte >= 128 {
        return false;
      }
      if !isSigned {
        value := Low(value, bitWidth);
        var zeros := Zeros(byte);
        bitWidth := Max(bitWidth - (zeros - 25), 1);
      } else {
        var b: Byte := byte;
        if byte < 64 {
          value := Low(value, bitWidth);
        } else {
          b := 255 - (byte + 128);
          value := High(value, bitWidth);
        }
        var zeros := Zeros(b);
        bitWidth := Max(bitWidth - (zeros - 26), 2);
      }
      done := true;
    }
  }

  /** NQGetClz32 of a byte. */
  method Zeros(b: Byte) returns (zeros: nat)
    ensures zeros == 32 - BitLength(b) && (b < 128 ==> zeros >= 25) && (b < 64 ==> zeros >= 26)
  {
    Pow2Of(b);
    zeros := GetClz(b, 32);
    BitLengthUnique(b, 32 - zeros);
  }

  lemma Pow2Of(b: Byte)
    ensures b < Pow2(32)
    ensures BitLength(b) <= 8 && (b < 128 ==> BitLength(b) <= 7) && (b < 64 ==> BitLength(b) <= 6)
  {
    SixtyFour();
    assert Pow2(7) == 128 && Pow2(8) == 256;
    Pow2Monotone(8, 32);
    BitsFit(b, 8);
    if b < 128 { BitsFit(b, 7); }
    if b < 64 { BitsFit(b, 6); }
  }

  lemma BitsFit(x: nat, n: nat)
    ensures BitLength(x) <= n <==> x < Pow2(n)
  {
  }

  /** The group goes above the bits that are there already. */
  lemma ShiftedIn(value: nat, group: nat, w: nat)
    requires w < 64 && value < Pow2(w) && group < 128
    ensures (group * Pow2(w)) % LIMIT >= 0
    ensures BitOr((group * Pow2(w)) % LIMIT, value) == (value + group * Pow2(w)) % LIMIT
  {
    hide Pow2, BitOr;
    Pow2Of64();
    Pow2Add(w, 64 - w);
    var p, g := Pow2(w), Pow2(64 - w);
    CutGroup(value, group, p, g);
    OrDisjoint((group % g) * p, group % g, value, w);
  }

  lemma CutGroup(value: nat, group: nat, p: nat, g: nat)
    requires p * g == LIMIT && value < p && g > 0
    ensures (group * p) % LIMIT == (group % g) * p
    ensures (value + group * p) % LIMIT == value + (group % g) * p
  {
    var q, r := group / g, group % g;
    CutProduct(group, q, r, p, g);
    AtLeastOnce(g - r, p);
    assert (g - r) * p == LIMIT - r * p by { assert (g - r) * p == p * g - r * p; }
    DivModUnique(group * p, LIMIT, q, r * p);
    DivModUnique(value + group * p, LIMIT, q, value + r * p);
  }

  lemma CutProduct(group: nat, q: nat, r: nat, p: nat, g: nat)
    requires p * g == LIMIT && group == g * q + r
    ensures group * p == LIMIT * q + r * p && r * p >= 0
  {
  }

  lemma Pow2Of8()
    ensures Pow2(8) == 256
  {
  }

  lemma Pow2Of64()
    ensures Pow2(64) == LIMIT
  {
    hide Pow2;
    Pow2Of8();
    Pow2Add(8, 8);
    Pow2Add(16, 16);
    Pow2Add(32, 32);
  }

  // ---------- feeding an encoding

  /** The number of bits of a signed number, its sign included. */
  function SignedBits(v: int): nat {
    1 + BitLength(if v < 0 then -v - 1 else v)
  }

  lemma BitLengthTop(low: nat, b: nat, w: nat)
    requires low < Pow2(w) && (b > 0 || w == 0 || low >= Pow2(w - 1))
    ensures BitLength(low + b * Pow2(w)) == w + BitLength(b)
  {
    var n := BitLength(b);
    var p := Pow2(w);
    Pow2Add(w, n);
    TopBound(low, b, p, Pow2(n));
    if n > 0 {
      Pow2Add(w, n - 1);
      AtMost(Pow2(n - 1), b, p);
    }
    BitLengthUnique(low + b * p, w + n);
  }

  lemma TopBound(low: nat, b: nat, p: nat, h: nat)
    requires low < p && b < h
    ensures low + b * p < p * h
  {
    AtLeastOnce(h - b, p);
    assert (h - b) * p == p * h - b * p;
  }

  lemma AtMost(x: nat, y: nat, p: nat)
    requires x <= y
    ensures p * x <= y * p
  {
  }

  lemma {:induction false} EncEndsHigh(v: nat)
    ensures |Enc(v)| > 1 ==> Enc(v)[|Enc(v)| - 1] > 0
  {
    if v >= 128 { EncEndsHigh(v / 128); }
  }

  /** What the first `k` bytes of an encoding leave in the decoder. */
  ghost predicate Fed(d: Decoder, s: seq<Byte>, k: nat)
    reads d
  {
    k <= |s| && d.bitWidth == 7 * k && d.value == Dec(s[..k]) % LIMIT
  }

  lemma FedMore(s: seq<Byte>, k: nat)
    requires k < |s| && k < 10 && Terminated(s)
    ensures Dec(s[..k]) % LIMIT == Dec(s[..k]) < Pow2(7 * k)
    ensures Dec(s[..k + 1]) == Dec(s[..k]) + s[k] % 128 * Pow2(7 * k)
  {
    hide Dec;
    Prefix(s, k + 1);
    DecBound(s[..k]);
    Pow2Monotone(7 * k, 64);
    Pow2Of64();
  }

  /** What a whole sequence leaves in the decoder: the number cut to 64 bits, and how many bits it has. */
  ghost predicate Finished(d: Decoder, s: seq<Byte>)
    requires Terminated(s)
    reads d
  {
    var b, v, w := s[|s| - 1], Dec(s) % LIMIT, 7 * (|s| - 1);
    if !d.isSigned then d.value == Low(v, w + 7) && d.bitWidth == Max(w + BitLength(b), 1)
    else d.value == (if b < 64 then Low(v, w + 7) else High(v, w + 7))
         && d.bitWidth == Max(w + 1 + BitLength(if b < 64 then b else 127 - b), 2)
  }

  /** Feeding a terminated sequence: the decoder finishes with its last byte, not before. Nothing limits the number of
      bytes, and C does not define what a shift of a 64-bit number by 64 or more is: `undefined` says that the next
      byte calls for one. */
  method Feed(d: Decoder, s: seq<Byte>) returns (k: nat, undefined: bool)
    requires d.value == 0 && d.bitWidth == 0 && Terminated(s)
    modifies d
    ensures d.isSigned == old(d.isSigned)
    ensures undefined <==> |s| > 10
    ensures undefined ==> k == 10
    ensures !undefined ==> k == |s| && Finished(d, s)
  {
    hide Dec, Low, High, Pow2, BitLength;
    k, undefined := 0, false;
    DecNothing(s);
    var done := false;
    while !done
      invariant k <= 10 && d.isSigned == old(d.isSigned)
      invariant !done ==> k < |s| && Fed(d, s, k)
      invariant done ==> k == |s| && Finished(d, s)
      decreases |s| - k, !done
    {
      if d.bitWidth >= 64 {
        undefined := true;
        return;
      }
      FedMore(s, k);
      done := d.Update(s[k]);
      k := k + 1;
      assert k == |s| ==> s[..k] == s;
    }
  }

  /** The encoding of an unsigned number: the number comes out, with the number of its bits. */
  method FeedUnsigned(d: Decoder, v: nat)
    requires d.value == 0 && d.bitWidth == 0 && !d.isSigned && v < LIMIT
    modifies d
    ensures d.value == v && d.bitWidth == Max(BitLength(v), 1)
  {
    hide Enc, Dec, Pow2, BitLength, Terminated, Low, High, Max;
    UnsignedFacts(v);
    var k, undefined := Feed(d, Enc(v));
    assert 7 * (k - 1) + 7 == 7 * k;
  }

  lemma UnsignedFacts(v: nat)
    requires v < LIMIT
    ensures var s := Enc(v); var n := |s|;
      && Terminated(s) && Dec(s) == v && n <= 10 && Low(v, 7 * n) == v
      && Max(7 * (n - 1) + BitLength(s[n - 1]), 1) == Max(BitLength(v), 1)
  {
    hide Enc, Dec, Pow2, BitLength;
    var s := Enc(v);
    var n := |s|;
    Pow2Of64();
    Pow2Monotone(64, 70);
    EncLength(v, 10);
    EncLength(v, n);
    DecEnc(v);
    Remainder(v, 7 * n);
    EncEndsHigh(v);
    assert s[..n] == s;
    Prefix(s, n);
    DecBound(s[..n - 1]);
    if n > 1 || s[0] > 0 {
      BitLengthTop(Dec(s[..n - 1]), s[n - 1], 7 * (n - 1));
    } else {
      DecNothing(s);
    }
  }

  lemma Remainder(v: nat, width: nat)
    requires v < Pow2(width)
    ensures v % Pow2(width) == v
  {
    DivModUnique(v, Pow2(width), 0, v);
  }

  /** The encoding of a signed number: its 64-bit two's complement, and the number of its bits. */
  method FeedSigned(d: Decoder, v: int)
    requires d.value == 0 && d.bitWidth == 0 && d.isSigned && -0x8000_0000_0000_0000 <= v < 0x8000_0000_0000_0000
    modifies d
    ensures d.value == v % LIMIT && d.bitWidth == Max(SignedBits(v), 2)
  {
    hide SEnc, Dec, Pow2, BitLength, SignedBits, Terminated, Low, High, Max;
    SignedFacts(v);
    var k, undefined := Feed(d, SEnc(v));
    assert 7 * (k - 1) + 7 == 7 * k;
  }

  lemma SignedFacts(v: int)
    requires -0x8000_0000_0000_0000 <= v < 0x8000_0000_0000_0000
    ensures var s := SEnc(v); var n := |s|; var b := s[n - 1];
      && Terminated(s) && n <= 10 && b < 128
      && (if b < 64 then Low(Dec(s) % LIMIT, 7 * n) else High(Dec(s) % LIMIT, 7 * n)) == v % LIMIT
      && 7 * (n - 1) + 1 + BitLength(if b < 64 then b else 127 - b) == SignedBits(v)
  {
    hide SEnc, Dec, Pow2, BitLength, Low, High, SDec, SignedBits;
    var s := SEnc(v);
    var n := |s|;
    Half64();
    Pow2Monotone(63, 69);
    SEncLength(v, 10);
    SDecSEnc(v);
    assert s[..n] == s;
    SDecTop(s, n);
    Prefix(s, n);
    DecBound(s[..n - 1]);
    DecBound(s);
    SignedValue(s, v, n);
    if n > 1 { SEncLength(v, n - 1); } else { DecNothing(s); }
    SignedTop(Dec(s[..n - 1]), s[n - 1], 7 * (n - 1), v);
  }

  lemma Half64()
    ensures Pow2(63) == 0x8000_0000_0000_0000 && Pow2(64) == LIMIT
  {
    Pow2Of64();
    assert Pow2(64) == 2 * Pow2(63);
  }

  lemma SignedValue(s: seq<Byte>, v: int, n: nat)
    requires Terminated(s) && SDec(s) == v && n == |s| <= 10 && -0x8000_0000_0000_0000 <= v < 0x8000_0000_0000_0000
    ensures (if s[n - 1] < 64 then Low(Dec(s) % LIMIT, 7 * n) else High(Dec(s) % LIMIT, 7 * n)) == v % LIMIT
  {
    hide Dec, Pow2;
    Half64();
    DecBound(s);
    if 7 * n < 64 {
      Pow2Monotone(7 * n, 64);
      Remainder(Dec(s), 7 * n);
      Remainder(Dec(s), 64);
      DivModUnique(v, LIMIT, if v < 0 then -1 else 0, if v < 0 then v + LIMIT else v);
    } else {
      Pow2Add(64, 6);
      SixtyFour();
    }
  }

  /** Above the last group there is only the sign; the bits of -v - 1 are those of v turned round. */
  lemma SignedTop(low: nat, b: nat, w: nat, v: int)
    requires low < Pow2(w) && b < 128 && v == low + (if b >= 64 then b - 128 else b) * Pow2(w)
    requires w > 0 ==> v + Pow2(w - 1) < 0 || v >= Pow2(w - 1)
    ensures w + 1 + BitLength(if b < 64 then b else 127 - b) == SignedBits(v)
  {
    hide Pow2, BitLength;
    var p := Pow2(w);
    if b < 64 {
      AtMost(0, b, p);
      if b == 0 && w > 0 { assert v == low; }
      BitLengthTop(low, b, w);
    } else {
      var c: nat := 127 - b;
      assert (b - 128) * p == -(c * p) - p;
      AtMost(0, c, p);
      BitLengthTop(p - 1 - low, c, w);
    }
  }
}
