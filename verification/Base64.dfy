/** Base64 and base64url (sections 4 and 5 of RFC 4648) as the functions of libnetq/Base64.c compute them. */
module Base64 {

  /** NQ_BASE64_NONPAD and NQ_BASE64_URL. */
  datatype Flags = Flags(nonPad: bool, url: bool)

  const PAD: bv8 := 0x3D
  const UNKN: bv8 := 0xFF

  /** base64EncMap and base64URLEncMap. */
  function EncMap(b: bv8, url: bool): bv8 {
    if b < 26 then 0x41 + b
    else if b < 52 then 0x61 + (b - 26)
    else if b < 62 then 0x30 + (b - 52)
    else if b == 62 then (if url then 0x2D else 0x2B)
    else (if url then 0x5F else 0x2F)
  }

  /** base64DecMap and base64URLDecMap. */
  function DecMap(c: bv8, url: bool): bv8 {
    if 0x41 <= c <= 0x5A then c - 0x41
    else if 0x61 <= c <= 0x7A then c - 0x61 + 26
    else if 0x30 <= c <= 0x39 then c - 0x30 + 52
    else if c == (if url then 0x2D else 0x2B) then 62
    else if c == (if url then 0x5F else 0x2F) then 63
    else UNKN
  }

  // ---------- the groups of six bits, with the operators of the source

  function First(x: bv8): bv8 { (x >> 2) & 0x3F }
  function Second(x: bv8, y: bv8): bv8 { ((x << 4) & 0x3F) | ((y >> 4) & 0x0F) }
  function Third(y: bv8, z: bv8): bv8 { ((y << 2) & 0x3F) | ((z >> 6) & 0x03) }
  function Fourth(z: bv8): bv8 { z & 0x3F }

  function Join1(b1: bv8, b2: bv8): bv8 { (b1 << 2) | (b2 >> 4) }
  function Join2(b2: bv8, b3: bv8): bv8 { ((b2 << 4) & 0xF0) | (b3 >> 2) }
  function Join3(b3: bv8, b4: bv8): bv8 { (b3 << 6) | b4 }

  /** The complete encoding. */
  function Full(x: seq<bv8>, f: Flags): seq<bv8> {
    var pad := if f.nonPad then [] else [PAD];
    if x == [] then []
    else if |x| == 1 then [EncMap(First(x[0]), f.url), EncMap(Second(x[0], 0), f.url)] + pad + pad
    else if |x| == 2 then [EncMap(First(x[0]), f.url), EncMap(Second(x[0], x[1]), f.url), EncMap(Third(x[1], 0), f.url)] + pad
    else [EncMap(First(x[0]), f.url), EncMap(Second(x[0], x[1]), f.url), EncMap(Third(x[1], x[2]), f.url), EncMap(Fourth(x[2]), f.url)]
         + Full(x[3..], f)
  }

  /** What the decoder writes before it stops, and whether it accepts. */
  datatype Run = Run(out: seq<bv8>, ok: bool)

  function Then(out: seq<bv8>, r: Run): Run {
    Run(out + r.out, r.ok)
  }

  /** NQBase64DecodeEx from the start of a group on. */
  function Decode(s: seq<bv8>, f: Flags): Run
    decreases |s|, 2
  {
    if s == [] then Run([], true) else
      var b1 := DecMap(s[0], f.url);
      if b1 == UNKN then Run([], false)
      else if |s| == 1 then Run([], f.nonPad && b1 << 2 == 0)
      else
        var b2 := DecMap(s[1], f.url);
        if b2 == UNKN then Run([], false)
        else Then([Join1(b1, b2)], DecodeThird(s, b2, f))
  }

  function DecodeThird(s: seq<bv8>, b2: bv8, f: Flags): Run
    requires |s| >= 2
    decreases |s|, 1
  {
    if |s| == 2 then Run([], f.nonPad && (b2 << 4) & 0xF0 == 0) else
      var b3 := DecMap(s[2], f.url);
      if b3 == UNKN then Run([], !f.nonPad && s[2] == PAD && |s| == 4 && s[3] == PAD)
      else Then([Join2(b2, b3)], DecodeFourth(s, b3, f))
  }

  function DecodeFourth(s: seq<bv8>, b3: bv8, f: Flags): Run
    requires |s| >= 3
    decreases |s|, 0
  {
    if |s| == 3 then Run([], f.nonPad && b3 << 6 == 0) else
      var b4 := DecMap(s[3], f.url);
      if b4 == UNKN then Run([], !f.nonPad && s[3] == PAD && |s| == 4)
      else Then([Join3(b3, b4)], Decode(s[4..], f))
  }

  // ---------- facts about single groups

  lemma MapsBack(b: bv8, url: bool)
    requires b < 64
    ensures DecMap(EncMap(b, url), url) == b && EncMap(b, url) < 128
  {
  }

  lemma MapsForth(c: bv8, url: bool)
    requires DecMap(c, url) != UNKN
    ensures DecMap(c, url) < 64 && EncMap(DecMap(c, url), url) == c
  {
  }

  lemma PadIsUnknown(url: bool)
    ensures DecMap(PAD, url) == UNKN
  {
  }

  lemma Groups(x: bv8, y: bv8, z: bv8)
    ensures First(x) < 64 && Second(x, y) < 64 && Third(y, z) < 64 && Fourth(z) < 64
    ensures Join1(First(x), Second(x, y)) == x && Join2(Second(x, y), Third(y, z)) == y && Join3(Third(y, z), Fourth(z)) == z
    ensures (Second(x, 0) << 4) & 0xF0 == 0 && Third(y, 0) << 6 == 0
  {
  }

  lemma Joins(b1: bv8, b2: bv8, b3: bv8, b4: bv8)
    requires b1 < 64 && b2 < 64 && b3 < 64 && b4 < 64
    ensures First(Join1(b1, b2)) == b1 && Second(Join1(b1, b2), Join2(b2, b3)) == b2
    ensures Third(Join2(b2, b3), Join3(b3, b4)) == b3 && Fourth(Join3(b3, b4)) == b4
    ensures Second(Join1(b1, b2), 0) == b2 <==> (b2 << 4) & 0xF0 == 0
    ensures Third(Join2(b2, b3), 0) == b3 <==> b3 << 6 == 0
    ensures b1 << 2 == 0 <==> b1 == 0
  {
  }

  // ---------- round trips

  /** A group of four characters of the alphabet. */
  lemma DecodeGroup(s: seq<bv8>, f: Flags)
    requires |s| >= 4 && DecMap(s[0], f.url) != UNKN && DecMap(s[1], f.url) != UNKN && DecMap(s[2], f.url) != UNKN && DecMap(s[3], f.url) != UNKN
    ensures var b1, b2, b3, b4 := DecMap(s[0], f.url), DecMap(s[1], f.url), DecMap(s[2], f.url), DecMap(s[3], f.url); var r := Decode(s[4..], f);
      Decode(s, f) == Run([Join1(b1, b2), Join2(b2, b3), Join3(b3, b4)] + r.out, r.ok)
  {
    hide DecMap, Join1, Join2, Join3;
    var b1, b2, b3, b4 := DecMap(s[0], f.url), DecMap(s[1], f.url), DecMap(s[2], f.url), DecMap(s[3], f.url);
    var r := Decode(s[4..], f);
    assert DecodeFourth(s, b3, f) == Then([Join3(b3, b4)], r);
    assert DecodeThird(s, b2, f) == Then([Join2(b2, b3)], DecodeFourth(s, b3, f));
    assert Decode(s, f) == Then([Join1(b1, b2)], DecodeThird(s, b2, f));
    assert [Join1(b1, b2)] + ([Join2(b2, b3)] + ([Join3(b3, b4)] + r.out)) == [Join1(b1, b2), Join2(b2, b3), Join3(b3, b4)] + r.out;
  }

  /** A last group for one byte. */
  lemma DecodeOne(s: seq<bv8>, f: Flags)
    requires |s| >= 2 && DecMap(s[0], f.url) != UNKN && DecMap(s[1], f.url) != UNKN
    requires if f.nonPad then |s| == 2 else |s| == 4 && s[2] == s[3] == PAD
    ensures Decode(s, f) == Run([Join1(DecMap(s[0], f.url), DecMap(s[1], f.url))], !f.nonPad || (DecMap(s[1], f.url) << 4) & 0xF0 == 0)
  {
    PadIsUnknown(f.url);
    hide DecMap, Join1, Join2, Join3;
    var b1, b2 := DecMap(s[0], f.url), DecMap(s[1], f.url);
    assert Decode(s, f) == Then([Join1(b1, b2)], DecodeThird(s, b2, f));
    assert DecodeThird(s, b2, f).out == [];
    assert [Join1(b1, b2)] + [] == [Join1(b1, b2)];
  }

  /** A last group for two bytes. */
  lemma DecodeTwo(s: seq<bv8>, f: Flags)
    requires |s| >= 3 && DecMap(s[0], f.url) != UNKN && DecMap(s[1], f.url) != UNKN && DecMap(s[2], f.url) != UNKN
    requires if f.nonPad then |s| == 3 else |s| == 4 && s[3] == PAD
    ensures var b1, b2, b3 := DecMap(s[0], f.url), DecMap(s[1], f.url), DecMap(s[2], f.url);
      Decode(s, f) == Run([Join1(b1, b2), Join2(b2, b3)], !f.nonPad || b3 << 6 == 0)
  {
    PadIsUnknown(f.url);
    hide DecMap, Join1, Join2, Join3;
    var b1, b2, b3 := DecMap(s[0], f.url), DecMap(s[1], f.url), DecMap(s[2], f.url);
    assert Decode(s, f) == Then([Join1(b1, b2)], DecodeThird(s, b2, f));
    assert DecodeThird(s, b2, f) == Then([Join2(b2, b3)], DecodeFourth(s, b3, f));
    assert DecodeFourth(s, b3, f).out == [];
    assert [Join1(b1, b2)] + ([Join2(b2, b3)] + []) == [Join1(b1, b2), Join2(b2, b3)];
  }

  /** Decoding an encoding gives the bytes back, whatever the flags. */
  lemma {:induction false} DecodeFull(x: seq<bv8>, f: Flags)
    ensures Decode(Full(x, f), f) == Run(x, true)
  {
    hide EncMap, DecMap, First, Second, Third, Fourth, Join1, Join2, Join3, Decode;
    var s := Full(x, f);
    if x == [] {
      DecodeNothing(f);
    } else {
      var y, z := if |x| > 1 then x[1] else 0, if |x| > 2 then x[2] else 0;
      Groups(x[0], y, z);
      MapsBack(First(x[0]), f.url);
      MapsBack(Second(x[0], y), f.url);
      MapsBack(Third(y, z), f.url);
      MapsBack(Fourth(z), f.url);
      NotUnknown(First(x[0]), Second(x[0], y), Third(y, z), Fourth(z));
      if |x| > 2 {
        DecodeFull(x[3..], f);
        assert s[4..] == Full(x[3..], f);
        DecodeGroup(s, f);
        assert x == [x[0], x[1], x[2]] + x[3..];
      } else if |x| == 2 {
        DecodeTwo(s, f);
        assert x == [x[0], x[1]];
      } else {
        DecodeOne(s, f);
        assert x == [x[0]];
      }
    }
  }

  lemma DecodeNothing(f: Flags)
    ensures Decode([], f) == Run([], true)
  {
  }

  lemma NotUnknown(b1: bv8, b2: bv8, b3: bv8, b4: bv8)
    requires b1 < 64 && b2 < 64 && b3 < 64 && b4 < 64
    ensures b1 != UNKN && b2 != UNKN && b3 != UNKN && b4 != UNKN
  {
  }

  /** The number of characters that `s` has in its last, incomplete group, and whether the bits that the decoder
      drops there are zero. */
  predicate DropsNothing(s: seq<bv8>, f: Flags) {
    var n := |s|;
    if f.nonPad then n % 4 != 1
    else if n >= 4 && s[n - 1] == PAD then
      if s[n - 2] == PAD then (DecMap(s[n - 3], f.url) << 4) & 0xF0 == 0 else DecMap(s[n - 2], f.url) << 6 == 0
    else true
  }

  /** Encoding what was decoded gives the characters back if and only if the decoder dropped no bits: without
      padding it refuses loose bits itself, except in a group of a single character. */
  lemma {:induction false} FullDecode(s: seq<bv8>, f: Flags)
    requires Decode(s, f).ok
    ensures Full(Decode(s, f).out, f) == s <==> DropsNothing(s, f)
    decreases |s|
  {
    hide EncMap, DecMap, First, Second, Third, Fourth, Join1, Join2, Join3;
    if |s| >= 4 && DecMap(s[2], f.url) != UNKN && DecMap(s[3], f.url) != UNKN {
      WholeGroup(s, f);
    } else if s != [] {
      LastGroup(s, f);
    }
  }

  /** Texts that are accepted and are not what encoding gives: "QR==" with padding and "A" without. */
  lemma LooseBitsInput(url: bool)
    ensures var s, f := [0x51, 0x52, PAD, PAD], Flags(false, url); Decode(s, f).ok && Full(Decode(s, f).out, f) != s
    ensures var s, f := [0x41], Flags(true, url); Decode(s, f).ok && Full(Decode(s, f).out, f) != s
  {
    FullDecode([0x51, 0x52, PAD, PAD], Flags(false, url));
    FullDecode([0x41], Flags(true, url));
  }

  /** In a longer string the last group is the last group of the rest. */
  lemma DropsTail(s: seq<bv8>, f: Flags)
    requires |s| >= 4 && DecMap(s[3], f.url) != UNKN && (s[4..] == [] || |s| >= 5)
    requires !f.nonPad && |s| > 4 ==> |s| >= 8
    ensures DropsNothing(s, f) <==> DropsNothing(s[4..], f)
  {
    PadIsUnknown(f.url);
  }

  lemma WholeGroup(s: seq<bv8>, f: Flags)
    requires Decode(s, f).ok && |s| >= 4 && DecMap(s[2], f.url) != UNKN && DecMap(s[3], f.url) != UNKN
    ensures Full(Decode(s, f).out, f) == s <==> DropsNothing(s, f)
    decreases |s|, 0
  {
    hide EncMap, DecMap, First, Second, Third, Fourth, Join1, Join2, Join3, Decode, DropsNothing;
    KnownStart(s, f);
    DecodeGroup(s, f);
    FullDecode(s[4..], f);
    FullGroup(s, f, Decode(s[4..], f).out);
    if !f.nonPad { PaddedLength(s[4..], f); }
    DropsTail(s, f);
  }

  lemma KnownStart(s: seq<bv8>, f: Flags)
    requires Decode(s, f).ok && s != []
    ensures DecMap(s[0], f.url) != UNKN && (|s| > 1 ==> DecMap(s[1], f.url) != UNKN)
    ensures |s| == 1 ==> f.nonPad && Decode(s, f).out == []
  {
    hide DecMap, Join1;
  }

  /** With padding only whole groups of four are accepted. */
  lemma {:induction false} PaddedLength(s: seq<bv8>, f: Flags)
    requires Decode(s, f).ok && !f.nonPad
    ensures |s| % 4 == 0
    decreases |s|
  {
    hide DecMap, Decode;
    if s != [] {
      KnownStart(s, f);
      if |s| >= 4 && DecMap(s[2], f.url) != UNKN && DecMap(s[3], f.url) != UNKN {
        DecodeGroup(s, f);
        PaddedLength(s[4..], f);
      } else {
        LastIs(s, f);
      }
    }
  }

  lemma FullGroup(s: seq<bv8>, f: Flags, rest: seq<bv8>)
    requires |s| >= 4 && DecMap(s[0], f.url) != UNKN && DecMap(s[1], f.url) != UNKN && DecMap(s[2], f.url) != UNKN && DecMap(s[3], f.url) != UNKN
    ensures var b1, b2, b3, b4 := DecMap(s[0], f.url), DecMap(s[1], f.url), DecMap(s[2], f.url), DecMap(s[3], f.url);
      Full([Join1(b1, b2), Join2(b2, b3), Join3(b3, b4)] + rest, f) == s <==> Full(rest, f) == s[4..]
  {
    hide EncMap, DecMap, First, Second, Third, Fourth, Join1, Join2, Join3;
    var b1, b2, b3, b4 := DecMap(s[0], f.url), DecMap(s[1], f.url), DecMap(s[2], f.url), DecMap(s[3], f.url);
    MapsForth(s[0], f.url);
    MapsForth(s[1], f.url);
    MapsForth(s[2], f.url);
    MapsForth(s[3], f.url);
    Joins(b1, b2, b3, b4);
    var x := [Join1(b1, b2), Join2(b2, b3), Join3(b3, b4)] + rest;
    assert x[3..] == rest;
    assert Full(x, f) == [s[0], s[1], s[2], s[3]] + Full(rest, f);
    assert s == [s[0], s[1], s[2], s[3]] + s[4..];
    assert Full(x, f)[4..] == Full(rest, f);
  }

  lemma LastGroup(s: seq<bv8>, f: Flags)
    requires Decode(s, f).ok && 0 < |s| && !(|s| >= 4 && DecMap(s[2], f.url) != UNKN && DecMap(s[3], f.url) != UNKN)
    ensures Full(Decode(s, f).out, f) == s <==> DropsNothing(s, f)
  {
    KnownStart(s, f);
    if |s| > 1 {
      LastIs(s, f);
      if |s| > 2 && DecMap(s[2], f.url) != UNKN { LastTwo(s, f); } else { LastOne(s, f); }
    }
  }

  lemma LastIs(s: seq<bv8>, f: Flags)
    requires Decode(s, f).ok && 0 < |s| && (f.nonPad ==> |s| > 1) && !(|s| >= 4 && DecMap(s[2], f.url) != UNKN && DecMap(s[3], f.url) != UNKN)
    ensures |s| > 1
    ensures if |s| > 2 && DecMap(s[2], f.url) != UNKN then (if f.nonPad then |s| == 3 else |s| == 4 && s[3] == PAD)
            else if f.nonPad then |s| == 2 else |s| == 4 && s[2] == s[3] == PAD
  {
    hide DecMap, Join1, Join2, Join3;
    KnownStart(s, f);
    var b1, b2 := DecMap(s[0], f.url), DecMap(s[1], f.url);
    assert Decode(s, f) == Then([Join1(b1, b2)], DecodeThird(s, b2, f));
    if |s| > 2 && DecMap(s[2], f.url) != UNKN {
      var b3 := DecMap(s[2], f.url);
      assert DecodeThird(s, b2, f) == Then([Join2(b2, b3)], DecodeFourth(s, b3, f));
    }
  }

  lemma LastOne(s: seq<bv8>, f: Flags)
    requires Decode(s, f).ok && |s| >= 2 && DecMap(s[0], f.url) != UNKN && DecMap(s[1], f.url) != UNKN
    requires if f.nonPad then |s| == 2 else |s| == 4 && s[2] == s[3] == PAD
    ensures Full(Decode(s, f).out, f) == s <==> DropsNothing(s, f)
  {
    hide EncMap, DecMap, First, Second, Third, Fourth, Join1, Join2, Join3, Decode;
    DecodeOne(s, f);
    var b1, b2 := DecMap(s[0], f.url), DecMap(s[1], f.url);
    MapsForth(s[0], f.url);
    MapsForth(s[1], f.url);
    Joins(b1, b2, 0, 0);
    var x := [Join1(b1, b2)];
    assert Full(x, f) == [s[0], EncMap(Second(x[0], 0), f.url)] + if f.nonPad then [] else [PAD] + [PAD];
    SecondKept(b1, b2, f.url);
  }

  /** The second character survives exactly if its lower bits are zero. */
  lemma SecondKept(b1: bv8, b2: bv8, url: bool)
    requires b1 < 64 && b2 < 64
    ensures EncMap(Second(Join1(b1, b2), 0), url) == EncMap(b2, url) <==> (b2 << 4) & 0xF0 == 0
  {
    var c := Second(Join1(b1, b2), 0);
    Joins(b1, b2, 0, 0);
    assert c < 64;
    MapsBack(c, url);
    MapsBack(b2, url);
  }

  lemma LastTwo(s: seq<bv8>, f: Flags)
    requires Decode(s, f).ok && |s| >= 3 && DecMap(s[0], f.url) != UNKN && DecMap(s[1], f.url) != UNKN && DecMap(s[2], f.url) != UNKN
    requires if f.nonPad then |s| == 3 else |s| == 4 && s[3] == PAD
    ensures Full(Decode(s, f).out, f) == s <==> DropsNothing(s, f)
  {
    hide EncMap, DecMap, First, Second, Third, Fourth, Join1, Join2, Join3, Decode;
    DecodeTwo(s, f);
    var b1, b2, b3 := DecMap(s[0], f.url), DecMap(s[1], f.url), DecMap(s[2], f.url);
    MapsForth(s[0], f.url);
    MapsForth(s[1], f.url);
    MapsForth(s[2], f.url);
    PadIsUnknown(f.url);
    Joins(b1, b2, b3, 0);
    var x := [Join1(b1, b2), Join2(b2, b3)];
    assert Full(x, f) == [s[0], s[1], EncMap(Third(x[1], 0), f.url)] + if f.nonPad then [] else [PAD];
    ThirdKept(b2, b3, f.url);
  }

  lemma ThirdKept(b2: bv8, b3: bv8, url: bool)
    requires b2 < 64 && b3 < 64
    ensures EncMap(Third(Join2(b2, b3), 0), url) == EncMap(b3, url) <==> b3 << 6 == 0
  {
    var c := Third(Join2(b2, b3), 0);
    Joins(0, b2, b3, 0);
    assert c < 64;
    MapsBack(c, url);
    MapsBack(b3, url);
  }
}
