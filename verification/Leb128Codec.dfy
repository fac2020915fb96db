/** The encoders and decoders of libnetq/Leb128.c. The eight encoders are one ladder with 2, 3, 5 or 10 rungs, and
    so are the eight decoders: a rung is a call here, with its length as a parameter. */
module Leb128Codec {
  import opened Words
  import opened BitOps
  import opened Leb128

  /** The widths of the integer types, and their rungs. */
  predicate IsWidth(width: nat) {
    width == 8 || width == 16 || width == 32 || width == 64
  }

  function Rungs(width: nat): nat {
    (width + 6) / 7
  }

  /** The bits of a value that are left for the last rung. */
  function LastBits(width: nat): (r: nat)
    requires IsWidth(width)
    ensures r > 0 && 7 * (Rungs(width) - 1) + r == width && 0 < Rungs(width)
  {
    width - 7 * (Rungs(width) - 1)
  }

  // ---------- encoding

  /** The writeSequenceData macros: the bytes below index `n - 1`, from the top. */
  method WriteRest(buffer: array<Byte>, n: nat, value: int)
    requires 0 < n <= buffer.Length
    modifies buffer
    ensures forall i :: 0 <= i < n - 1 ==> buffer[i] == 128 + Shift(value, i) % 128
    ensures forall i :: n - 1 <= i < buffer.Length ==> buffer[i] == old(buffer[i])
  {
    if n > 1 {
      buffer[n - 2] := 128 + Shift(value, n - 2) % 128;
      WriteRest(buffer, n - 1, value);
    }
  }

  /** writePositiveSafe and writeNegativeSafe: only the last byte is written differently. */
  method Write(buffer: array?<Byte>, length: nat, value: int)
    requires length > 0 && (buffer != null ==> length <= buffer.Length)
    modifies buffer
    ensures buffer != null ==>
      (forall i :: 0 <= i < length - 1 ==> buffer[i] == 128 + Shift(value, i) % 128)
      && buffer[length - 1] == Shift(value, length - 1) % (if value < 0 then 128 else 256)
      && (forall i :: length <= i < buffer.Length ==> buffer[i] == old(buffer[i]))
  {
    if buffer != null {
      buffer[length - 1] := Shift(value, length - 1) % if value < 0 then 128 else 256;
      WriteRest(buffer, length, value);
    }
  }

  /** What an encoder leaves in the buffer: the encoding if there is room for all of it, and otherwise what was
      there. */
  function Written(before: seq<Byte>, size: nat, s: seq<Byte>): seq<Byte>
    requires size <= |before|
  {
    if |s| <= size then s + before[|s|..] else before
  }

  lemma WrittenUnsigned(before: seq<Byte>, after: seq<Byte>, value: nat)
    requires |Enc(value)| <= |before| == |after|
    requires forall i :: 0 <= i < |Enc(value)| - 1 ==> after[i] == 128 + Shift(value, i) % 128
    requires after[|Enc(value)| - 1] == Shift(value, |Enc(value)| - 1) % 256
    requires forall i :: |Enc(value)| <= i < |after| ==> after[i] == before[i]
    ensures after == Enc(value) + before[|Enc(value)|..]
  {
    hide Enc, Shift;
    forall i | 0 <= i < |Enc(value)| ensures after[i] == Enc(value)[i] {
      EncByte(value, i);
    }
  }

  lemma WrittenSigned(before: seq<Byte>, after: seq<Byte>, value: int)
    requires |SEnc(value)| <= |before| == |after|
    requires forall i :: 0 <= i < |SEnc(value)| - 1 ==> after[i] == 128 + Shift(value, i) % 128
    requires after[|SEnc(value)| - 1] == Shift(value, |SEnc(value)| - 1) % (if value < 0 then 128 else 256)
    requires forall i :: |SEnc(value)| <= i < |after| ==> after[i] == before[i]
    ensures after == SEnc(value) + before[|SEnc(value)|..]
  {
    hide SEnc, Shift;
    SEncLast(value);
    forall i | 0 <= i < |SEnc(value)| ensures after[i] == SEnc(value)[i] {
      SEncByte(value, i);
    }
  }

  /** A rung of an unsigned encoder: LEB128_U<length>_MAX is 2^(7 length) - 1. */
  method EncodeRung(buffer: array?<Byte>, size: nat, value: nat, length: nat, rungs: nat) returns (n: nat)
    requires 0 < length <= rungs && value < Pow2(7 * rungs) && (length > 1 ==> value >= Pow2(7 * (length - 1)))
    requires buffer != null ==> size <= buffer.Length
    modifies buffer
    ensures n == |Enc(value)| <= rungs
    ensures buffer != null ==> buffer[..] == Written(old(buffer[..]), size, Enc(value))
    decreases rungs - length
  {
    EncLength(value, length);
    if length > 1 { EncLength(value, length - 1); }
    if length == rungs || value <= Pow2(7 * length) - 1 {
      if size >= length {
        Write(buffer, length, value);
        if buffer != null { WrittenUnsigned(old(buffer[..]), buffer[..], value); }
      }
      return length;
    }
    n := EncodeRung(buffer, size, value, length + 1, rungs);
  }

  /** NQLeb128EncodeUint8, 16, 32 and 64. */
  method EncodeUint(buffer: array?<Byte>, size: nat, value: nat, width: nat) returns (n: nat)
    requires IsWidth(width) && value < Pow2(width) && (buffer != null ==> size <= buffer.Length)
    modifies buffer
    ensures n == |Enc(value)|
    ensures buffer != null ==> buffer[..] == Written(old(buffer[..]), size, Enc(value))
  {
    Pow2Monotone(width, 7 * Rungs(width));
    n := EncodeRung(buffer, size, value, 1, Rungs(width));
  }

  /** A rung of a signed encoder: the limits are -2^(7 length - 1) and 2^(7 length - 1) - 1. */
  method SEncodeRung(buffer: array?<Byte>, size: nat, value: int, length: nat, rungs: nat) returns (n: nat)
    requires 0 < length <= rungs && |SEnc(value)| <= rungs && length <= |SEnc(value)|
    requires buffer != null ==> size <= buffer.Length
    modifies buffer
    ensures n == |SEnc(value)|
    ensures buffer != null ==> buffer[..] == Written(old(buffer[..]), size, SEnc(value))
    decreases rungs - length
  {
    SEncLength(value, length);
    var max := Pow2(7 * length - 1) - 1;
    var fits := if value < 0 then -max - 1 <= value else value <= max;
    if length == rungs || fits {
      if size >= length {
        Write(buffer, length, value);
        if buffer != null { WrittenSigned(old(buffer[..]), buffer[..], value); }
      }
      return length;
    }
    n := SEncodeRung(buffer, size, value, length + 1, rungs);
  }

  /** NQLeb128EncodeInt8, 16, 32 and 64. */
  method EncodeInt(buffer: array?<Byte>, size: nat, value: int, width: nat) returns (n: nat)
    requires IsWidth(width) && value + Pow2(width - 1) >= 0 && value < Pow2(width - 1) && (buffer != null ==> size <= buffer.Length)
    modifies buffer
    ensures n == |SEnc(value)|
    ensures buffer != null ==> buffer[..] == Written(old(buffer[..]), size, SEnc(value))
  {
    Pow2Monotone(width - 1, 7 * Rungs(width) - 1);
    SEncLength(value, Rungs(width));
    n := SEncodeRung(buffer, size, value, 1, Rungs(width));
  }

  // ---------- decoding

  /** x | y; a negative `x` has infinitely many ones in front. */
  function BitOr(x: int, y: nat): int
    decreases y
  {
    if y == 0 then x else 2 * BitOr(x / 2, y / 2) + if x % 2 == 1 || y % 2 == 1 then 1 else 0
  }

  /** Numbers without a common bit: `x` has only bits from `k` on, `y` only bits below. */
  lemma {:induction false} OrDisjoint(x: int, q: int, y: nat, k: nat)
    requires x == q * Pow2(k) && y < Pow2(k)
    ensures BitOr(x, y) == x + y
    decreases k
  {
    hide Pow2;
    if y > 0 {
      PowerStep(k, y);
      var p := Pow2(k - 1);
      Doubled(q, p);
      OrDisjoint(q * p, q, y / 2, k - 1);
      OrHalves(q * p, y);
    } else {
      OrNothing(x);
    }
  }

  lemma PowerStep(k: nat, y: nat)
    requires 0 < y < Pow2(k)
    ensures k > 0 && Pow2(k) == 2 * Pow2(k - 1) && y / 2 < Pow2(k - 1)
  {
  }

  lemma Doubled(q: int, p: int)
    ensures q * (2 * p) == 2 * (q * p)
  {
  }

  lemma OrNothing(x: int)
    ensures BitOr(x, 0) == x
  {
  }

  /** The last bit of an even number comes from the other one. */
  lemma OrHalves(h: int, y: nat)
    requires y > 0
    ensures BitOr(2 * h, y) == 2 * BitOr(h, y / 2) + y % 2
  {
  }

  /** ~0 << k, or-ed with `y`: the bits of `y` below `k`, and ones above. */
  lemma {:induction false} OrOnes(k: nat, y: nat)
    ensures BitOr(-(Pow2(k) as int), y) == y % Pow2(k) - Pow2(k)
    decreases y
  {
    hide BitOr, Pow2;
    if y == 0 {
      OrZero(-(Pow2(k) as int));
      DivModUnique(0, Pow2(k), 0, 0);
    } else if k == 0 {
      OrOnes(0, y / 2);
      OrAllOnes(y);
    } else {
      OrOnes(k - 1, y / 2);
      HalfMod(y, Pow2(k - 1));
      OrStep(Pow2(k - 1), y);
      Pow2Step(k);
    }
  }

  lemma OrZero(x: int)
    ensures BitOr(x, 0) == x
  {
  }

  lemma OrAllOnes(y: nat)
    requires y > 0
    ensures Pow2(0) == 1 && BitOr(-1, y) == 2 * BitOr(-1, y / 2) + 1
  {
    assert (-1) / 2 == -1;
  }

  lemma Pow2Step(k: nat)
    requires k > 0
    ensures Pow2(k) == 2 * Pow2(k - 1)
  {
  }

  lemma OrStep(p: nat, y: nat)
    requires y > 0
    ensures BitOr(-(2 * p as int), y) == 2 * BitOr(-(p as int), y / 2) + y % 2
  {
    assert (-(2 * p as int)) / 2 == -(p as int);
  }

  lemma HalfMod(y: nat, p: nat)
    requires p > 0
    ensures y % (2 * p) == 2 * ((y / 2) % p) + y % 2
  {
    var h := y / 2;
    var q, r := h / p, h % p;
    assert h == p * q + r;
    assert y == 2 * p * q + (2 * r + y % 2);
    DivModUnique(y, 2 * p, q, 2 * r + y % 2);
  }

  lemma DivModUnique(x: int, n: nat, q: int, r: nat)
    requires r < n && x == n * q + r
    ensures x % n == r && x / n == q
  {
    var d := q - x / n;
    assert n * d == x % n - r;
    assert d > 0 ==> n * d >= n;
    assert d < 0 ==> n * d + n <= 0;
  }

  /** The readSequenceData macros: the low seven bits of the bytes below index `n - 1`, from the top. */
  function ReadRest(data: seq<Byte>, n: nat, result: int): int
    requires 0 < n <= |data|
  {
    if n == 1 then result else ReadRest(data, n - 1, BitOr(result, (data[n - 2] % 128) * Pow2(7 * (n - 2))))
  }

  lemma Prefix(data: seq<Byte>, n: nat)
    requires 0 < n <= |data|
    ensures data[..n] == data[..n - 1] + [data[n - 1]]
    ensures Dec(data[..n]) == Dec(data[..n - 1]) + (data[n - 1] % 128) * Pow2(7 * (n - 1))
  {
    DecSnoc(data[..n - 1], data[n - 1]);
  }

  lemma {:induction false} ReadRestAdds(data: seq<Byte>, n: nat, q: int)
    requires 0 < n <= |data|
    ensures ReadRest(data, n, q * Pow2(7 * (n - 1))) == q * Pow2(7 * (n - 1)) + Dec(data[..n - 1])
    decreases n
  {
    hide BitOr, Dec, Pow2;
    if n == 1 {
      DecNothing(data);
    } else {
      var p: nat, b: nat := Pow2(7 * (n - 2)), data[n - 2] % 128;
      Pow2Seven(n - 2);
      GroupsJoin(q, b, p);
      OrDisjoint(q * Pow2(7 * (n - 1)), q, b * p, 7 * (n - 1));
      ReadRestAdds(data, n - 1, 128 * q + b);
      Prefix(data, n - 1);
    }
  }

  lemma DecNothing(data: seq<Byte>)
    ensures Dec(data[..0]) == 0
  {
  }

  lemma GroupsJoin(q: int, b: nat, p: nat)
    requires b < 128 && p > 0
    ensures 0 <= b * p < 128 * p && q * (128 * p) + b * p == (128 * q + b) * p
  {
    assert (128 - b) * p > 0;
  }

  /** readPositiveSafe. */
  function ReadPositive(data: seq<Byte>, length: nat, width: nat): int
    requires 0 < length <= |data|
  {
    ReadRest(data, length, data[length - 1] * Pow2(7 * (length - 1)) % Pow2(width))
  }

  /** readNegativeSafe: ones from bit min(7 length, width) - 1 on. */
  function ReadNegative(data: seq<Byte>, length: nat, width: nat): int
    requires 0 < length <= |data| && 0 < width
  {
    var k := (if 7 * length < width then 7 * length else width) - 1;
    ReadRest(data, length, BitOr(-(Pow2(k) as int), data[length - 1] * Pow2(7 * (length - 1))))
  }

  lemma PositiveIsDec(data: seq<Byte>, length: nat, width: nat)
    requires 0 < length <= |data| && data[length - 1] < 128 && data[length - 1] * Pow2(7 * (length - 1)) < Pow2(width)
    ensures ReadPositive(data, length, width) == Dec(data[..length])
  {
    var x := data[length - 1] * Pow2(7 * (length - 1));
    DivModUnique(x, Pow2(width), 0, x);
    ReadRestAdds(data, length, data[length - 1]);
    Prefix(data, length);
  }

  /** `r` is the number of bits the last byte contributes besides those of the sign extension. */
  lemma NegativeIsSDec(data: seq<Byte>, length: nat, width: nat, r: nat)
    requires 0 < length <= |data| && 0 < r <= 7 && 0 < width && (if 7 * length < width then 7 * length else width) == 7 * (length - 1) + r
    requires 128 - Pow2(r - 1) <= data[length - 1] < 128
    ensures ReadNegative(data, length, width) == SDec(data[..length])
  {
    hide BitOr, Dec, Pow2;
    var b: nat, m := data[length - 1], 7 * (length - 1);
    NegativeBits(b, m, r);
    ReadRestAdds(data, length, b - 128);
    Prefix(data, length);
    Pow2Seven(length - 1);
    SmallHalf(r);
    SignWeight(b, Pow2(m));
  }

  lemma SignWeight(b: nat, p: nat)
    ensures (b - 128) * p == b * p - 128 * p
  {
  }

  lemma SmallHalf(r: nat)
    requires 0 < r <= 7
    ensures Pow2(r - 1) <= 64
  {
    Pow2Monotone(r - 1, 6);
    Pow2Seven(0);
    assert Pow2(7) == 2 * Pow2(6) && Pow2(0) == 1;
  }

  /** The sign extension and the last byte, shifted to its place. */
  lemma NegativeBits(b: nat, m: nat, r: nat)
    requires 0 < r <= 7 && 128 - Pow2(r - 1) <= b < 128
    ensures BitOr(-(Pow2(m + r - 1) as int), b * Pow2(m)) == (b - 128) * Pow2(m)
  {
    hide BitOr;
    Pow2Add(m, r - 1);
    Pow2Add(r - 1, 8 - r);
    Pow2Seven(0);
    assert Pow2(0) == 1;
    OrOnes(m + r - 1, b * Pow2(m));
    HighPart(b, Pow2(m), Pow2(r - 1), Pow2(8 - r));
  }

  lemma HighPart(b: nat, p: nat, h: nat, g: nat)
    requires p > 0 && h > 0 && h * g == 128 && 128 - h <= b < 128
    ensures (b * p) % (p * h) - p * h == (b - 128) * p
  {
    var r: nat := b - 128 + h;
    SmallProduct(r, h, p);
    SplitProduct(b, p, h, g);
    DivModUnique(b * p, p * h, g - 1, r * p);
    assert r * p == b * p - 128 * p + h * p;
  }

  lemma SmallProduct(r: nat, h: nat, p: nat)
    requires r < h && p > 0
    ensures 0 <= r * p < p * h
  {
    assert (h - r) * p > 0;
  }

  lemma SplitProduct(b: nat, p: nat, h: nat, g: nat)
    requires h * g == 128 && 128 - h <= b
    ensures b * p == (p * h) * (g - 1) + (b - 128 + h) * p
  {
    assert (p * h) * g == p * (h * g);
    assert (p * h) * (g - 1) == p * 128 - p * h;
    assert (b - 128 + h) * p == b * p - 128 * p + h * p;
  }

  // ---------- the ladders

  /** The bytes an accepted encoding can have. */
  ghost predicate Accepts(data: seq<Byte>, k: nat, reach: nat, width: nat) {
    0 < k <= reach && k <= |data| && k <= Rungs(width) && Terminated(data[..k]) && Dec(data[..k]) < Pow2(width)
  }

  ghost predicate SAccepts(data: seq<Byte>, k: nat, reach: nat, width: nat) {
    0 < k <= reach && k <= |data| && k <= Rungs(width) && Terminated(data[..k])
    && 0 < width && SDec(data[..k]) + Pow2(width - 1) >= 0 && SDec(data[..k]) < Pow2(width - 1)
  }

  /** The first `n` bytes all say that more follow. */
  predicate Continues(data: seq<Byte>, n: nat) {
    n <= |data| && forall i :: 0 <= i < n ==> data[i] >= 128
  }

  lemma TerminatedAt(data: seq<Byte>, k: nat)
    requires 0 < k <= |data| && Continues(data, k - 1)
    ensures Terminated(data[..k]) <==> data[k - 1] < 128
  {
  }

  /** Whether the value of a terminated sequence fits its type is decided by the last byte. */
  lemma FitsUnsigned(data: seq<Byte>, k: nat, width: nat)
    requires IsWidth(width) && 0 < k <= |data| && k <= Rungs(width) && data[k - 1] < 128
    ensures k < Rungs(width) ==> Dec(data[..k]) < Pow2(width) && data[k - 1] * Pow2(7 * (k - 1)) < Pow2(width)
    ensures k == Rungs(width) ==> (Dec(data[..k]) < Pow2(width) <==> data[k - 1] < Pow2(LastBits(width)))
    ensures k == Rungs(width) && data[k - 1] < Pow2(LastBits(width)) ==> data[k - 1] * Pow2(7 * (k - 1)) < Pow2(width)
  {
    hide Dec, Pow2;
    var b, p := data[k - 1], Pow2(7 * (k - 1));
    Prefix(data, k);
    DecBound(data[..k - 1]);
    if k < Rungs(width) {
      DecBound(data[..k]);
      Pow2Monotone(7 * k, width);
    } else {
      Pow2Add(7 * (k - 1), LastBits(width));
      TopDecides(Dec(data[..k - 1]), b, p, Pow2(LastBits(width)));
    }
  }

  lemma TopDecides(low: nat, b: int, p: nat, h: int)
    requires low < p
    ensures low + b * p < p * h <==> b < h
    ensures b < h ==> b * p < p * h
  {
    assert p * h - b * p == (h - b) * p;
    var d := h - b;
    if d > 0 {
      AtLeastOnce(d, p);
    } else {
      AtLeastOnce(1 - d, p);
      assert (1 - d) * p == p - d * p;
    }
  }

  lemma AtLeastOnce(d: int, p: nat)
    requires d > 0
    ensures d * p >= p
  {
    assert (d - 1) * p >= 0;
  }

  /** A rung of an unsigned decoder; the mask test of the last one leaves the bytes below 2^LastBits. */
  method DecodeRung(data: seq<Byte>, size: nat, length: nat, width: nat) returns (n: nat, result: int)
    requires IsWidth(width) && size <= |data| && 0 < length <= Rungs(width) && Continues(data, length - 1)
    ensures n > 0 ==> Accepts(data, n, size, width) && result == Dec(data[..n])
    ensures n == 0 ==> forall k :: length <= k ==> !Accepts(data, k, size, width)
    decreases Rungs(width) - length
  {
    hide Terminated, Dec, ReadPositive, Pow2;
    n, result := 0, 0;
    if size < length {
      return;
    }
    TerminatedAt(data, length);
    if data[length - 1] < 128 { FitsUnsigned(data, length, width); }
    if length < Rungs(width) {
      if data[length - 1] < 128 {
        PositiveIsDec(data, length, width);
        return length, ReadPositive(data, length, width);
      }
      n, result := DecodeRung(data, size, length + 1, width);
    } else {
      SmallLast(width);
      if data[length - 1] < Pow2(LastBits(width)) {
        PositiveIsDec(data, length, width);
        return length, ReadPositive(data, length, width);
      }
    }
  }

  lemma SmallLast(width: nat)
    requires IsWidth(width)
    ensures Pow2(LastBits(width)) <= 16 && LastBits(width) <= 4
  {
    Pow2Monotone(LastBits(width), 4);
    assert Pow2(4) == 16;
  }

  /** NQLeb128DecodeUint8, 16, 32 and 64: a length of 0 means that nothing was decoded. */
  method DecodeUint(data: seq<Byte>, size: nat, width: nat) returns (n: nat, result: int)
    requires IsWidth(width) && size <= |data|
    ensures n > 0 ==> Accepts(data, n, size, width) && result == Dec(data[..n])
    ensures n == 0 ==> forall k :: !Accepts(data, k, size, width)
  {
    n, result := DecodeRung(data, size, 1, width);
  }

  /** The same for signed types: a byte that fits has nothing but sign bits above the last ones. */
  lemma FitsSigned(data: seq<Byte>, k: nat, width: nat)
    requires IsWidth(width) && 0 < k <= |data| && k <= Rungs(width) && data[k - 1] < 128
    ensures k < Rungs(width) ==> SDec(data[..k]) + Pow2(width - 1) >= 0 && SDec(data[..k]) < Pow2(width - 1)
    ensures k == Rungs(width) ==>
              (SDec(data[..k]) + Pow2(width - 1) >= 0 && SDec(data[..k]) < Pow2(width - 1)
               <==> data[k - 1] < Pow2(LastBits(width) - 1) || data[k - 1] >= 128 - Pow2(LastBits(width) - 1))
  {
    hide Dec, SDec, Pow2, Top;
    var r := if k < Rungs(width) then 7 else LastBits(width);
    SignedRange(data, k, r);
    TopFits(data[k - 1], r);
    if k < Rungs(width) {
      Pow2Monotone(7 * (k - 1) + r - 1, width - 1);
      SixtyFour();
    }
  }

  /** The top byte alone decides whether the number fits into `r` bits above the other bytes. */
  lemma SignedRange(data: seq<Byte>, k: nat, r: nat)
    requires 0 < k <= |data| && data[k - 1] < 128 && 0 < r
    ensures SDec(data[..k]) < Pow2(7 * (k - 1) + r - 1) <==> Top(data[k - 1]) < Pow2(r - 1)
    ensures SDec(data[..k]) + Pow2(7 * (k - 1) + r - 1) >= 0 <==> Top(data[k - 1]) + Pow2(r - 1) >= 0
  {
    hide Dec, SDec, Pow2, Top;
    var p: int := Pow2(7 * (k - 1));
    var h: int := Pow2(r - 1);
    SDecTop(data, k);
    DecBound(data[..k - 1]);
    var low := Dec(data[..k - 1]);
    var top := Top(data[k - 1]);
    Pow2Add(7 * (k - 1), r - 1);
    TopDecides(low, top, p, h);
    TopDecides(low, top, p, -h);
    assert p * -h == -(p * h);
  }

  lemma TopFits(b: Byte, r: nat)
    requires b < 128 && 0 < r <= 7
    ensures Top(b) + Pow2(r - 1) >= 0 && Top(b) < Pow2(r - 1) <==> b < Pow2(r - 1) || b >= 128 - Pow2(r - 1)
  {
    hide Pow2;
    SmallHalf(r);
  }

  lemma SixtyFour()
    ensures Pow2(6) == 64
  {
    Pow2Add(3, 3);
    assert Pow2(3) == 8;
  }

  /** The last byte of a signed number without its high bit. */
  function Top(b: Byte): int {
    if b >= 64 then b - 128 else b
  }

  lemma SDecTop(data: seq<Byte>, k: nat)
    requires 0 < k <= |data| && data[k - 1] < 128
    ensures SDec(data[..k]) == Dec(data[..k - 1]) + Top(data[k - 1]) * Pow2(7 * (k - 1))
  {
    hide Dec, Pow2;
    Prefix(data, k);
    Pow2Seven(k - 1);
    SignWeight(data[k - 1], Pow2(7 * (k - 1)));
  }

  /** What a decoder for signed numbers looks at: NQLeb128DecodeInt8 reads a second byte whatever the size. */
  function Reach(size: nat, width: nat): nat {
    if width == 8 && size == 1 then 2 else size
  }

  /** Reads byte `i`; the first `looked` bytes have been read before, and the first `now` have been afterwards. */
  method ByteAt(data: seq<Byte>, i: nat, ghost looked: nat) returns (b: Byte, ghost now: nat)
    requires i < |data|
    ensures b == data[i] && now == if looked <= i then i + 1 else looked
  {
    b, now := data[i], if looked <= i then i + 1 else looked;
  }

  /** The one case in which a signed decoder reads a byte it has not been given. */
  predicate ReadsPast(data: seq<Byte>, size: nat, width: nat)
    requires size <= |data|
  {
    width == 8 && size == 1 && data[0] >= 128
  }

  /** A rung of a signed decoder; `looked` counts the bytes it has read. */
  method SDecodeRung(data: seq<Byte>, size: nat, length: nat, width: nat) returns (n: nat, result: int, ghost looked: nat)
    requires IsWidth(width) && size <= |data| && 0 < length <= Rungs(width) && Continues(data, length - 1)
    requires ReadsPast(data, size, width) ==> |data| > 1
    requires length - 1 <= size
    ensures n > 0 ==> SAccepts(data, n, Reach(size, width), width) && result == SDec(data[..n])
    ensures n == 0 ==> forall k :: length <= k ==> !SAccepts(data, k, Reach(size, width), width)
    ensures n <= looked && length - 1 <= looked && (looked <= size || (looked == 2 && ReadsPast(data, size, width)))
    ensures length <= 2 && ReadsPast(data, size, width) ==> looked == 2 && (n == 2 <==> data[1] == 0 || data[1] == 0x7f)
    decreases Rungs(width) - length
  {
    hide Terminated, SDec, Dec, ReadPositive, ReadNegative, Pow2;
    n, result, looked := 0, 0, length - 1;
    if size < length && !(width == 8 && length == 2) {
      return;
    }
    TerminatedAt(data, length);
    var last: Byte;
    last, looked := ByteAt(data, length - 1, looked);
    if last < 128 { FitsSigned(data, length, width); }
    if length < Rungs(width) {
      if last < 128 {
        ReadsSigned(data, length, width);
        return length, if last % 128 >= 64 then ReadNegative(data, length, width) else ReadPositive(data, length, width), looked;
      }
      n, result, looked := SDecodeRung(data, size, length + 1, width);
    } else {
      SmallLast(width);
      var half := Pow2(LastBits(width) - 1);
      LastHalf(width);
      OneBitLeft(width);
      if 128 - half <= last < 128 {
        NegativeIsSDec(data, length, width, LastBits(width));
        return length, ReadNegative(data, length, width), looked;
      }
      if last < half {
        LastPositive(data, length, width);
        return length, ReadPositive(data, length, width), looked;
      }
    }
  }

  lemma OneBitLeft(width: nat)
    requires IsWidth(width)
    ensures width == 8 ==> LastBits(width) == 1 && Pow2(0) == 1 && Rungs(width) == 2
  {
  }

  lemma LastHalf(width: nat)
    requires IsWidth(width)
    ensures Pow2(LastBits(width) - 1) <= 8
  {
    Pow2Monotone(LastBits(width) - 1, 3);
    assert Pow2(3) == 8;
  }

  lemma PositiveSDec(data: seq<Byte>, k: nat)
    requires 0 < k <= |data| && data[k - 1] < 64
    ensures SDec(data[..k]) == Dec(data[..k])
  {
  }

  lemma LastPositive(data: seq<Byte>, k: nat, width: nat)
    requires IsWidth(width) && k == Rungs(width) && 0 < k <= |data| && data[k - 1] < Pow2(LastBits(width) - 1)
    ensures ReadPositive(data, k, width) == SDec(data[..k])
  {
    LastHalf(width);
    Pow2Monotone(LastBits(width) - 1, LastBits(width));
    FitsUnsigned(data, k, width);
    PositiveIsDec(data, k, width);
    PositiveSDec(data, k);
  }

  lemma ReadsSigned(data: seq<Byte>, k: nat, width: nat)
    requires IsWidth(width) && 0 < k < Rungs(width) && k <= |data| && data[k - 1] < 128
    ensures SDec(data[..k]) == if data[k - 1] >= 64 then ReadNegative(data, k, width) else ReadPositive(data, k, width)
  {
    if data[k - 1] >= 64 {
      SixtyFour();
      NegativeIsSDec(data, k, width, 7);
    } else {
      FitsUnsigned(data, k, width);
      PositiveIsDec(data, k, width);
      PositiveSDec(data, k);
    }
  }

  /** NQLeb128DecodeInt8, 16, 32 and 64. More bytes are read than the size allows if and only if an 8-bit number is
      decoded from a single byte that announces another one; and the length that is reported is larger than the
      size if and only if that other byte happens to be one that ends such a number. */
  method DecodeInt(data: seq<Byte>, size: nat, width: nat) returns (n: nat, result: int, ghost looked: nat)
    requires IsWidth(width) && size <= |data|
    requires ReadsPast(data, size, width) ==> |data| > 1
    ensures n > 0 ==> SAccepts(data, n, Reach(size, width), width) && result == SDec(data[..n])
    ensures n == 0 ==> forall k :: !SAccepts(data, k, Reach(size, width), width)
    ensures looked > size <==> ReadsPast(data, size, width)
    ensures n > size <==> ReadsPast(data, size, width) && (data[1] == 0x00 || data[1] == 0x7f)
  {
    n, result, looked := SDecodeRung(data, size, 1, width);
  }

  // ---------- round trips

  lemma OwnPrefix(s: seq<Byte>, rest: seq<Byte>)
    ensures (s + rest)[..|s|] == s
  {
  }

  lemma OneEnd(data: seq<Byte>, k: nat, n: nat)
    requires 0 < k <= n <= |data| && Terminated(data[..k]) && Terminated(data[..n])
    ensures k == n
  {
    assert data[..k][k - 1] == data[k - 1] == data[..n][k - 1];
  }

  /** What an encoder writes, the decoder of the same type reads back, whatever follows it. */
  method RoundTripUint(buffer: array<Byte>, value: nat, width: nat) returns (read: int)
    requires IsWidth(width) && value < Pow2(width) && buffer.Length >= 10
    modifies buffer
    ensures read == value
  {
    hide Enc, Dec, Terminated, Pow2;
    var n := EncodeUint(buffer, buffer.Length, value, width);
    UintFits(value, width);
    DecEnc(value);
    OwnPrefix(Enc(value), old(buffer[..])[|Enc(value)|..]);
    var m, r := DecodeUint(buffer[..], n, width);
    assert Accepts(buffer[..], n, n, width);
    OneEnd(buffer[..], m, n);
    read := r;
  }

  lemma UintFits(value: nat, width: nat)
    requires IsWidth(width) && value < Pow2(width)
    ensures |Enc(value)| <= Rungs(width) <= 10
  {
    Pow2Monotone(width, 7 * Rungs(width));
    EncLength(value, Rungs(width));
  }

  method RoundTripInt(buffer: array<Byte>, value: int, width: nat) returns (read: int)
    requires IsWidth(width) && value + Pow2(width - 1) >= 0 && value < Pow2(width - 1) && buffer.Length >= 10
    modifies buffer
    ensures read == value
  {
    hide SEnc, SDec, Terminated, Pow2;
    var n := EncodeInt(buffer, buffer.Length, value, width);
    IntFits(value, width);
    SDecSEnc(value);
    OwnPrefix(SEnc(value), old(buffer[..])[|SEnc(value)|..]);
    var m, r;
    ghost var looked;
    m, r, looked := DecodeInt(buffer[..], n, width);
    assert SAccepts(buffer[..], n, Reach(n, width), width);
    EndsInTime(buffer[..], m, n);
    read := r;
  }

  /** Of two places where an encoding ends, neither comes first. */
  lemma EndsInTime(data: seq<Byte>, k: nat, n: nat)
    requires 0 < k <= |data| && 0 < n <= |data| && Terminated(data[..k]) && Terminated(data[..n])
    ensures k == n
  {
    if k <= n { OneEnd(data, k, n); } else { OneEnd(data, n, k); }
  }

  lemma IntFits(value: int, width: nat)
    requires IsWidth(width) && value + Pow2(width - 1) >= 0 && value < Pow2(width - 1)
    ensures |SEnc(value)| <= Rungs(width) <= 10
  {
    Pow2Monotone(width - 1, 7 * Rungs(width) - 1);
    SEncLength(value, Rungs(width));
  }

  /** An input of size 1 for which NQLeb128DecodeInt8 reports a length of 2. */
  method Int8ReadsPastItsSize() returns (n: nat)
    ensures n == 2
  {
    var r: int;
    ghost var looked;
    n, r, looked := DecodeInt([0x80, 0x00], 1, 8);
  }
}
