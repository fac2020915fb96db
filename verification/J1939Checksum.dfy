/** The checksum nibble that some frames of libnetq/dbc/DBCJ1939.c carry beside a message counter in their last byte. */
module J1939Checksum {
  import opened Words
  import opened J1939

  /** The rules that are known; they are all computed alike. */
  datatype Rule = AEBS2 | XBR | SAS | CN | Unknown

  function Sum(s: seq<Byte>): nat {
    if s == [] then 0 else Sum(s[..|s| - 1]) + s[|s| - 1]
  }

  /** The 29 bits of an identifier, byte by byte. */
  function IdBytes(id: bv32): seq<Byte> {
    var x := id & 0x1FFFFFFF;
    [(x & 0xFF) as nat, ((x >> 8) & 0xFF) as nat, ((x >> 16) & 0xFF) as nat, ((x >> 24) & 0xFF) as nat]
  }

  /** The last two nibbles of a sum, folded. */
  function Fold(s: nat): nat {
    (s + s / 16) % 16
  }

  function Total(id: bv32, data: seq<Byte>, counter: nat): nat
    requires |data| >= 7
  {
    Sum(data[..7]) + counter % 16 + Sum(IdBytes(id))
  }

  function LastByte(id: bv32, data: seq<Byte>, counter: nat): (r: Byte)
    requires |data| >= 7
    ensures r % 16 == counter % 16
  {
    Fold(Total(id, data, counter)) * 16 + counter % 16
  }

  /** The checksum with every contribution written out: seven data bytes, the low half of the counter, and the four
      bytes of the identifier, of which the last has five bits. */
  lemma ChecksumIs(id: bv32, data: seq<Byte>, counter: nat)
    requires |data| >= 7
    ensures var t := data[0] as nat + data[1] + data[2] + data[3] + data[4] + data[5] + data[6] + counter % 16
                     + (id % 0x100) as nat + (id / 0x100 % 0x100) as nat + (id / 0x1_0000 % 0x100) as nat + (id / 0x100_0000 % 0x20) as nat;
      LastByte(id, data, counter) == (t + t / 16) % 16 * 16 + counter % 16
  {
    hide Sum, IdBytes;
    IdParts(id);
    var ids := IdBytes(id);
    assert ids[..4] == ids;
    FourBytes(ids);
    SevenBytes(data);
  }

  lemma IdParts(id: bv32)
    ensures IdBytes(id) == [(id % 0x100) as nat, (id / 0x100 % 0x100) as nat, (id / 0x1_0000 % 0x100) as nat, (id / 0x100_0000 % 0x20) as nat]
  {
    var x := id & 0x1FFFFFFF;
    assert x & 0xFF == id % 0x100 && (x >> 8) & 0xFF == id / 0x100 % 0x100;
    assert (x >> 16) & 0xFF == id / 0x1_0000 % 0x100 && (x >> 24) & 0xFF == id / 0x100_0000 % 0x20;
  }

  lemma SumOfMore(s: seq<Byte>, k: nat)
    requires k < |s|
    ensures Sum(s[..k + 1]) == Sum(s[..k]) + s[k]
  {
    assert s[..k + 1][..k] == s[..k];
  }

  lemma FourBytes(s: seq<Byte>)
    requires |s| >= 4
    ensures Sum(s[..4]) == s[0] as nat + s[1] + s[2] + s[3]
  {
    hide Sum;
    NoBytes(s);
    SumOfMore(s, 0);
    SumOfMore(s, 1);
    SumOfMore(s, 2);
    SumOfMore(s, 3);
  }

  lemma NoBytes(s: seq<Byte>)
    ensures Sum(s[..0]) == 0
  {
  }

  lemma SevenBytes(s: seq<Byte>)
    requires |s| >= 7
    ensures Sum(s[..7]) == s[0] as nat + s[1] + s[2] + s[3] + s[4] + s[5] + s[6]
  {
    hide Sum;
    FourBytes(s);
    SumOfMore(s, 4);
    SumOfMore(s, 5);
    SumOfMore(s, 6);
  }

  /** The frame carries the checksum of its identifier, its first seven bytes and its counter. */
  predicate Checked(f: Frame) {
    f.size == 8 && |f.data| == 8 && f.data[7] == LastByte(f.id, f.data, f.data[7])
  }

  lemma IdByteCount(id: bv32)
    ensures |IdBytes(id)| == 4
  {
  }

  lemma IdByteAt(id: bv32, k: nat, shift: bv32)
    requires k < 4 && shift == [0, 8, 16, 24, 32][k]
    ensures IdBytes(id)[k] == (((id & 0x1FFFFFFF) >> (shift as bv6)) & 0xFF) as nat
  {
  }

  /** AEBS2CalcChecksum. */
  method Calc(id: bv32, data: seq<Byte>, counter: nat) returns (r: Byte)
    requires |data| >= 7
    ensures r == LastByte(id, data, counter)
  {
    hide Sum, IdBytes;
    var id29 := id & 0x1FFFFFFF;
    var low := counter % 16;
    var checksum := 0;
    NoBytes(data);
    for i := 0 to 7
      invariant checksum == Sum(data[..i])
    {
      SumOfMore(data, i);
      checksum := checksum + data[i];
    }
    checksum := checksum + low;
    ghost var bytes := IdBytes(id);
    var shift: bv32, k := 0, 0;
    NoBytes(bytes);
    IdByteCount(id);
    while k < 4
      invariant k <= 4 && shift == [0, 8, 16, 24, 32][k]
      invariant checksum == Sum(data[..7]) + low + Sum(bytes[..k])
    {
      SumOfMore(bytes, k);
      IdByteAt(id, k, shift);
      checksum := checksum + ((id29 >> (shift as bv6)) & 0xFF) as nat;
      shift, k := shift + 8, k + 1;
    }
    assert bytes[..4] == bytes;
    checksum := checksum + checksum / 16;
    checksum := checksum % 16;
    r := checksum * 16 + low;
  }

  /** NQDBCJ1939IsValidChecksum. */
  method IsValid(rule: Rule, f: Frame) returns (ok: bool)
    requires |f.data| == 8
    ensures ok <==> rule != Unknown && Checked(f)
  {
    if rule == Unknown || f.size != 8 {
      return false;
    }
    var expected := Calc(f.id, f.data, f.data[7]);
    ok := f.data[7] == expected;
  }

  /** NQDBCJ1939UpdateChecksum: afterwards the frame is valid, and nothing but its last byte has changed. */
  method Update(rule: Rule, id: bv32, size: nat, data: array<Byte>, counter: Byte) returns (ok: bool)
    requires data.Length == 8
    modifies data
    ensures ok <==> rule != Unknown && size == 8
    ensures ok ==> Checked(Frame(id, size, data[..])) && data[..7] == old(data[..7]) && data[7] % 16 == counter % 16
    ensures !ok ==> data[..] == old(data[..])
  {
    if rule == Unknown || size != 8 {
      return false;
    }
    var last := Calc(id, data[..], counter);
    ghost var before := data[..];
    data[7] := last;
    SameLast(id, before, data[..], counter, last);
    ok := true;
  }

  /** The last byte itself and the upper half of the counter are not part of the sum. */
  lemma SameLast(id: bv32, a: seq<Byte>, b: seq<Byte>, c: nat, d: nat)
    requires |a| == |b| == 8 && a[..7] == b[..7] && c % 16 == d % 16
    ensures LastByte(id, a, c) == LastByte(id, b, d)
  {
    hide Sum, IdBytes;
  }

  lemma {:induction false} SumUpdate(s: seq<Byte>, k: nat, b: Byte)
    requires k < |s|
    ensures Sum(s[k := b]) + s[k] == Sum(s) + b
    decreases |s|
  {
    var n := |s| - 1;
    if k == n {
      assert s[k := b][..n] == s[..n];
    } else {
      assert s[k := b][..n] == s[..n][k := b];
      SumUpdate(s[..n], k, b);
    }
  }

  lemma FoldParts(high: nat, low: nat)
    requires low < 16
    ensures Fold(16 * high + low) == (high + low) % 16
  {
    assert (16 * high + low) / 16 == high;
  }

  /** Two numbers less than 16 apart are congruent only when they are equal. */
  lemma Congruent(a: nat, b: nat)
    requires a <= b < a + 16
    ensures a % 16 == b % 16 <==> a == b
  {
  }

  lemma FoldSteps(s: nat, d: nat)
    requires 0 < d < 16
    ensures Fold(s + d) == Fold(s) <==> d == 15 && s % 16 != 0
  {
    hide Fold;
    var low, high := s % 16, s / 16;
    FoldParts(high, low);
    if low + d < 16 {
      FoldParts(high, low + d);
      Congruent(high + low, high + low + d);
    } else {
      FoldParts(high + 1, low + d - 16);
      Congruent(high + low + d - 15, high + low);
    }
  }

  /** How far the checksum protects a byte: raising or lowering it by up to 14 is always noticed, and by 15
      exactly when the smaller of the two totals is a multiple of 16. */
  lemma ChangeNoticed(id: bv32, data: seq<Byte>, k: nat, b: Byte, counter: nat)
    requires |data| == 8 && k < 7 && data[k] < b && b - data[k] < 16
    ensures LastByte(id, data[k := b], counter) != LastByte(id, data, counter)
            <==> b - data[k] < 15 || Total(id, data, counter) % 16 == 0
  {
    hide Sum, IdBytes, Fold;
    var more := data[k := b];
    assert more[..7] == data[..7][k := b];
    SumUpdate(data[..7], k, b);
    var d: nat := b - data[k];
    assert Total(id, more, counter) == Total(id, data, counter) + d;
    FoldSteps(Total(id, data, counter), d);
  }
}
