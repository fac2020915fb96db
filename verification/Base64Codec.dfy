/** The encoder and decoder of libnetq/Base64.c, writing into a buffer that may be too small. */
module Base64Codec {
  import opened Base64

  const INVALID := -22
  const INT32_MAX := 0x7FFF_FFFF

  /** What is left in a buffer of `size` bytes: as much of `out` as fits, and a NUL if there is room for it. */
  function Stored(before: seq<bv8>, size: nat, out: seq<bv8>): seq<bv8>
    requires size <= |before|
  {
    if |out| < size then out + [0] + before[|out| + 1..] else out[..size] + before[size..]
  }

  /** The length of the encoding. */
  function Length(n: nat, f: Flags): nat {
    var whole := (n + 2) / 3 * 4;
    if f.nonPad && n % 3 != 0 then whole - (3 - n % 3) else whole
  }

  lemma {:induction false} FullLength(x: seq<bv8>, f: Flags)
    ensures |Full(x, f)| == Length(|x|, f)
    decreases |x|
  {
    hide EncMap, First, Second, Third, Fourth, Length;
    LengthStep(|x|, f);
    if |x| > 2 {
      FullLength(x[3..], f);
      assert |Full(x, f)| == 4 + |Full(x[3..], f)|;
    }
  }

  lemma LengthStep(n: nat, f: Flags)
    ensures n > 2 ==> Length(n, f) == 4 + Length(n - 3, f)
    ensures n == 0 ==> Length(n, f) == 0
    ensures 0 < n < 3 ==> Length(n, f) == if f.nonPad then n + 1 else 4
  {
  }

  /** The first `j` characters are written and nothing behind them is touched. */
  ghost predicate Progress(before: seq<bv8>, now: seq<bv8>, full: seq<bv8>, j: nat) {
    && |before| == |now| && j <= |now| && j <= |full|
    && (forall t :: 0 <= t < j ==> now[t] == full[t])
    && forall t :: j <= t < |now| ==> now[t] == before[t]
  }

  lemma StoredFull(before: seq<bv8>, now: seq<bv8>, full: seq<bv8>, size: nat)
    requires size <= |before| && Progress(before, now, full, size)
    ensures now == Stored(before, size, full)
  {
  }

  lemma StoredNul(before: seq<bv8>, now: seq<bv8>, full: seq<bv8>, size: nat)
    requires |full| < size <= |before| && Progress(before, now, full, |full|)
    ensures now[|full| := 0] == Stored(before, size, full)
  {
  }

  /** *outStart++ = c; the result tells whether the buffer is full. */
  method Put(out: array<bv8>, size: nat, j: nat, c: bv8, ghost before: seq<bv8>, ghost full: seq<bv8>) returns (stop: bool)
    requires j < size <= out.Length && Progress(before, out[..], full, j) && j < |full| && full[j] == c
    modifies out
    ensures stop == (size <= j + 1) && Progress(before, out[..], full, j + 1)
    ensures stop ==> out[..] == Stored(before, size, full)
  {
    out[j] := c;
    stop := size <= j + 1;
    if stop { StoredFull(before, out[..], full, size); }
  }

  method PutNul(out: array<bv8>, size: nat, j: nat, ghost before: seq<bv8>, ghost full: seq<bv8>)
    requires j < size <= out.Length && Progress(before, out[..], full, j) && j == |full|
    modifies out
    ensures out[..] == Stored(before, size, full)
  {
    StoredNul(before, out[..], full, size);
    out[j] := 0;
  }

  /** The characters a group of three bytes, or what is left of one, starts with. */
  lemma GroupChars(x: seq<bv8>, i: nat, f: Flags, full: seq<bv8>, j: nat)
    requires i < |x| && j <= |full| && full[j..] == Full(x[i..], f)
    ensures j + 1 < |full| && full[j] == EncMap(First(x[i]), f.url)
    ensures i + 1 == |x| ==> full[j + 1] == EncMap(Second(x[i], 0), f.url) && |full| == j + 2 + (if f.nonPad then 0 else 2)
                             && (!f.nonPad ==> full[j + 2] == full[j + 3] == PAD)
    ensures i + 1 < |x| ==> full[j + 1] == EncMap(Second(x[i], x[i + 1]), f.url) && j + 2 < |full|
    ensures i + 2 == |x| ==> full[j + 2] == EncMap(Third(x[i + 1], 0), f.url) && |full| == j + 3 + (if f.nonPad then 0 else 1)
                             && (!f.nonPad ==> full[j + 3] == PAD)
    ensures i + 2 < |x| ==> full[j + 2] == EncMap(Third(x[i + 1], x[i + 2]), f.url) && j + 3 < |full|
                            && full[j + 3] == EncMap(Fourth(x[i + 2]), f.url) && full[j + 4..] == Full(x[i + 3..], f)
  {
  }

  lemma OrNothing(x: bv8, y: bv8, z: bv8)
    ensures Second(x, 0) == (x << 4) & 0x3F && Second(x, y) == ((x << 4) & 0x3F) | ((y >> 4) & 0x0F)
    ensures Fourth(z) == z & 0x3F
    ensures Third(y, 0) == (y << 2) & 0x3F && Third(y, z) == ((y << 2) & 0x3F) | ((z >> 6) & 0x03)
  {
  }

  /** NQBase64EncodeEx. */
  method EncodeEx(x: seq<bv8>, out: array<bv8>, size: nat, f: Flags) returns (result: int)
    requires size <= out.Length
    modifies out
    ensures if (|x| + 2) / 3 * 4 > INT32_MAX then result == INVALID && out[..] == old(out[..])
            else result == |Full(x, f)| && out[..] == if size == 0 then old(out[..]) else Stored(old(out[..]), size, Full(x, f))
  {
    FullLength(x, f);
    var whole := (|x| + 2) / 3 * 4;
    if INT32_MAX < whole {
      return INVALID;
    }
    result := if f.nonPad && |x| % 3 != 0 then whole - (3 - |x| % 3) else whole;
    if size == 0 {
      return;
    }
    if result == 0 {
      out[0] := 0;
      return;
    }
    EncodeAll(x, out, size, f);
  }

  /** The loop of NQBase64EncodeEx. */
  method EncodeAll(x: seq<bv8>, out: array<bv8>, size: nat, f: Flags)
    requires x != [] && 0 < size <= out.Length
    modifies out
    ensures out[..] == Stored(old(out[..]), size, Full(x, f))
  {
    hide Full, EncMap, First, Second, Third, Fourth, Stored, Progress;
    ghost var full, before := Full(x, f), out[..];
    var i, j := 0, 0;
    NoProgress(before, full);
    assert x[0..] == x && full[0..] == full;
    var stop := false;
    while !stop
      invariant !stop ==> i < |x| && j < size && j <= |full| && full[j..] == Full(x[i..], f) && Progress(before, out[..], full, j)
      invariant stop ==> out[..] == Stored(before, size, full)
      decreases !stop, |x| - i
    {
      stop := EncodeGroup(x, i, out, size, j, f, before, full);
      i, j := i + 3, j + 4;
    }
  }

  lemma NoProgress(before: seq<bv8>, full: seq<bv8>)
    ensures Progress(before, before, full, 0)
  {
  }

  /** One turn of the loop. */
  method EncodeGroup(x: seq<bv8>, i: nat, out: array<bv8>, size: nat, j: nat, f: Flags, ghost before: seq<bv8>, ghost full: seq<bv8>)
    returns (stop: bool)
    requires i < |x| && j < size <= out.Length && j <= |full| && full[j..] == Full(x[i..], f) && Progress(before, out[..], full, j)
    modifies out
    ensures stop ==> out[..] == Stored(before, size, full)
    ensures !stop ==> i + 3 < |x| && j + 4 < size && j + 4 <= |full| && full[j + 4..] == Full(x[i + 3..], f)
                      && Progress(before, out[..], full, j + 4)
  {
    hide Full, EncMap, First, Second, Third, Fourth, Stored, Progress;
    GroupChars(x, i, f, full, j);
    OrNothing(x[i], if i + 1 < |x| then x[i + 1] else 0, if i + 2 < |x| then x[i + 2] else 0);
    stop := Put(out, size, j, EncMap(First(x[i]), f.url), before, full);
    if stop { return; }
    var b := (x[i] << 4) & 0x3F;
    if |x| <= i + 1 {
      stop := Put(out, size, j + 1, EncMap(b, f.url), before, full);
      if stop { return; }
      if !f.nonPad {
        stop := Put(out, size, j + 2, PAD, before, full);
        if stop { return; }
        stop := Put(out, size, j + 3, PAD, before, full);
        if stop { return; }
      }
      PutNul(out, size, if f.nonPad then j + 2 else j + 4, before, full);
      return true;
    }
    b := b | ((x[i + 1] >> 4) & 0x0F);
    stop := Put(out, size, j + 1, EncMap(b, f.url), before, full);
    if stop { return; }
    b := (x[i + 1] << 2) & 0x3F;
    if |x| <= i + 2 {
      stop := Put(out, size, j + 2, EncMap(b, f.url), before, full);
      if stop { return; }
      if !f.nonPad {
        stop := Put(out, size, j + 3, PAD, before, full);
        if stop { return; }
      }
      PutNul(out, size, if f.nonPad then j + 3 else j + 4, before, full);
      return true;
    }
    b := b | ((x[i + 2] >> 6) & 0x03);
    stop := Put(out, size, j + 2, EncMap(b, f.url), before, full);
    if stop { return; }
    stop := Put(out, size, j + 3, EncMap(x[i + 2] & 0x3F, f.url), before, full);
    if stop { return; }
    if |x| <= i + 3 {
      FullEnds(x, i, f);
      assert |full[j + 4..]| == 0;
      PutNul(out, size, j + 4, before, full);
      return true;
    }
  }

  lemma FullEnds(x: seq<bv8>, i: nat, f: Flags)
    requires i + 3 == |x|
    ensures Full(x[i + 3..], f) == []
  {
  }

  // ---------- the decoder

  /** *outStart++ = c if there is room. */
  method Emit(out: array?<bv8>, size: nat, n: nat, c: bv8, ghost before: seq<bv8>, ghost sofar: seq<bv8>)
    requires |sofar| == n && (if out == null then size == 0 else size <= out.Length && Kept(before, out[..], size, sofar))
    modifies out
    ensures out != null ==> Kept(before, out[..], size, sofar + [c])
  {
    if n < size {
      out[n] := c;
    }
  }

  /** As much of `sofar` as fits has been written. */
  ghost predicate Kept(before: seq<bv8>, now: seq<bv8>, size: nat, sofar: seq<bv8>) {
    && |before| == |now| && size <= |now|
    && (forall t :: 0 <= t < |sofar| && t < size ==> now[t] == sofar[t])
    && forall t :: 0 <= t < |now| && (|sofar| <= t || size <= t) ==> now[t] == before[t]
  }

  lemma KeptStored(before: seq<bv8>, now: seq<bv8>, size: nat, sofar: seq<bv8>)
    requires Kept(before, now, size, sofar)
    ensures (if |sofar| < size then now[|sofar| := 0] else now) == Stored(before, size, sofar)
  {
  }

  // ---------- which entries of the decoding table are looked up

  /** The first `n` characters belong to the alphabet. */
  ghost predicate Known(s: seq<bv8>, n: nat, f: Flags) {
    n <= |s| && forall j :: 0 <= j < n ==> DecMap(s[j], f.url) != UNKN
  }

  /** The first character that is not of the alphabet is 128 or more: it is looked up behind the end of the table. */
  ghost predicate ReadsOutside(s: seq<bv8>, f: Flags) {
    exists i :: 0 <= i < |s| && s[i] >= 128 && Known(s, i, f)
  }

  lemma KnownSmall(s: seq<bv8>, n: nat, f: Flags)
    requires Known(s, n, f) && (n == |s| || (s[n] < 128 && DecMap(s[n], f.url) == UNKN))
    ensures !ReadsOutside(s, f)
  {
  }

  /** An input for which that happens at once. */
  lemma HighByteReadsOutside(rest: seq<bv8>, f: Flags)
    ensures ReadsOutside([0x80] + rest, f)
  {
    assert ([0x80] + rest)[0] == 0x80 && Known([0x80] + rest, 0, f);
  }

  /** map[curr]: an entry of the table of 128 entries, or a read outside it. */
  method Lookup(s: seq<bv8>, k: nat, f: Flags) returns (b: bv8, outside: bool)
    requires k < |s| && Known(s, k, f)
    ensures outside ==> ReadsOutside(s, f)
    ensures !outside ==> b == DecMap(s[k], f.url) && (b == UNKN ==> !ReadsOutside(s, f))
    ensures !outside && b != UNKN ==> Known(s, k + 1, f) && (k + 1 == |s| ==> !ReadsOutside(s, f))
  {
    hide DecMap;
    b, outside := DecMap(s[k], f.url), s[k] >= 128;
    if !outside {
      if b == UNKN {
        KnownSmall(s, k, f);
      } else if k + 1 == |s| {
        KnownSmall(s, k + 1, f);
      }
    }
  }

  /** NQBase64DecodeEx. It looks behind the end of its table if and only if the first character that is not of the
      alphabet is 128 or more; then nothing else is known. */
  method DecodeEx(s: seq<bv8>, out: array?<bv8>, size: nat, f: Flags) returns (result: int, outside: bool)
    requires if out == null then s != [] || size == 0 else size <= out.Length
    modifies out
    ensures outside <==> ReadsOutside(s, f)
    ensures !outside ==>
      var r := Decode(s, f);
      && result == (if r.ok then |r.out| else INVALID)
      && (out != null ==> out[..] == Stored(old(out[..]), size, r.out))
  {
    hide Stored, Kept, Decode, ReadsOutside, DecMap;
    var room := if out == null then 0 else size;
    ghost var before := if out == null then [] else out[..];
    if out != null { NothingKept(before, size); }
    var ok, n, i := true, 0, 0;
    outside := false;
    ghost var sofar: seq<bv8> := [];
    ghost var all := Decode(s, f);
    assert s[0..] == s && [] + all.out == all.out;
    var more := s != [];
    DecodeEmpty(f);
    if !more { KnownSmall(s, 0, f); }
    while more
      invariant i <= |s| && |sofar| == n && (more ==> i < |s| && Known(s, i, f) && !outside)
      invariant out != null ==> out.Length == |before| && (!outside ==> Kept(before, out[..], room, sofar))
      invariant !outside ==> if more then all == Run(sofar + Decode(s[i..], f).out, Decode(s[i..], f).ok) else all == Run(sofar, ok)
      invariant !more ==> outside == ReadsOutside(s, f)
      decreases more, |s| - i
    {
      ghost var next;
      more, ok, n, outside, next := DecodeTurn(s, i, out, room, n, f, before, sofar);
      sofar := sofar + next;
      i := if more then i + 4 else i;
    }
    if outside {
      return INVALID, true;
    }
    if out != null {
      KeptStored(before, out[..], size, sofar);
      if n < room {
        out[n] := 0;
      }
    }
    result := if ok then n else INVALID;
  }

  lemma NothingKept(before: seq<bv8>, size: nat)
    requires size <= |before|
    ensures Kept(before, before, size, [])
  {
  }

  lemma DecodeEmpty(f: Flags)
    ensures Decode([], f) == Run([], true)
  {
  }

  lemma EndsAtOne(y: seq<bv8>, f: Flags)
    requires y != []
    ensures DecMap(y[0], f.url) == UNKN ==> Decode(y, f) == Run([], false)
    ensures DecMap(y[0], f.url) != UNKN && |y| == 1 ==> Decode(y, f) == Run([], f.nonPad && DecMap(y[0], f.url) << 2 == 0)
    ensures DecMap(y[0], f.url) != UNKN && |y| > 1 && DecMap(y[1], f.url) == UNKN ==> Decode(y, f) == Run([], false)
  {
  }

  lemma EndsAtTwo(y: seq<bv8>, b1: bv8, b2: bv8, f: Flags, r: Run)
    requires |y| > 1 && b1 == DecMap(y[0], f.url) != UNKN && b2 == DecMap(y[1], f.url) != UNKN
    requires DecodeThird(y, b2, f) == r && r.out == []
    ensures Decode(y, f) == Run([Join1(b1, b2)], r.ok)
  {
  }

  lemma EndsAtThree(y: seq<bv8>, b1: bv8, b2: bv8, b3: bv8, f: Flags, r: Run)
    requires |y| > 2 && b1 == DecMap(y[0], f.url) != UNKN && b2 == DecMap(y[1], f.url) != UNKN && b3 == DecMap(y[2], f.url) != UNKN
    requires DecodeFourth(y, b3, f) == r && r.out == []
    ensures Decode(y, f) == Run([Join1(b1, b2)] + [Join2(b2, b3)], r.ok)
  {
  }

  /** One turn of the loop: the bytes it decodes, and whether there is another group. */
  method DecodeTurn(s: seq<bv8>, i: nat, out: array?<bv8>, size: nat, n: nat, f: Flags, ghost before: seq<bv8>, ghost sofar: seq<bv8>)
    returns (more: bool, ok: bool, count: nat, outside: bool, ghost next: seq<bv8>)
    requires i < |s| && |sofar| == n && Known(s, i, f)
    requires if out == null then size == 0 else size <= out.Length && Kept(before, out[..], size, sofar)
    modifies out
    ensures count == n + |next| && (out != null ==> Kept(before, out[..], size, sofar + next))
    ensures (outside ==> !more && ReadsOutside(s, f)) && (!outside && !more ==> !ReadsOutside(s, f))
    ensures more ==> Known(s, i + 4, f)
    ensures more ==> i + 4 < |s| && Decode(s[i..], f) == Run(next + Decode(s[i + 4..], f).out, Decode(s[i + 4..], f).ok)
    ensures !more && !outside ==> Decode(s[i..], f) == Run(next, ok)
  {
    hide Kept, Join1, Join2, Join3, DecMap, Decode, Known, ReadsOutside;
    ghost var y := s[i..];
    more, ok, count, outside, next := false, false, n, false, [];
    assert sofar + [] == sofar;
    var b1;
    b1, outside := Lookup(s, i, f);
    if outside {
      return;
    }
    assert y[0] == s[i];
    if b1 == UNKN {
      EndsAtOne(y, f);
      return;
    }
    if |s| <= i + 1 {
      ok := f.nonPad && b1 << 2 == 0;
      EndsAtOne(y, f);
      return;
    }
    var b2;
    b2, outside := Lookup(s, i + 1, f);
    if outside {
      return;
    }
    assert y[1] == s[i + 1];
    if b2 == UNKN {
      EndsAtOne(y, f);
      return;
    }
    Emit(out, size, count, Join1(b1, b2), before, sofar);
    count, next := count + 1, [Join1(b1, b2)];
    if |s| <= i + 2 {
      ok := f.nonPad && (b2 << 4) & 0xF0 == 0;
      EndsAtTwo(y, b1, b2, f, Run([], ok));
      return;
    }
    var b3;
    b3, outside := Lookup(s, i + 2, f);
    if outside {
      return;
    }
    assert y[2] == s[i + 2];
    if b3 == UNKN {
      ok := !f.nonPad && s[i + 2] == PAD && i + 3 < |s| && s[i + 3] == PAD && i + 4 == |s|;
      assert i + 3 < |s| ==> y[3] == s[i + 3];
      EndsAtTwo(y, b1, b2, f, Run([], ok));
      return;
    }
    Emit(out, size, count, Join2(b2, b3), before, sofar + next);
    assert sofar + next + [Join2(b2, b3)] == sofar + (next + [Join2(b2, b3)]);
    count, next := count + 1, next + [Join2(b2, b3)];
    if |s| <= i + 3 {
      ok := f.nonPad && b3 << 6 == 0;
      EndsAtThree(y, b1, b2, b3, f, Run([], ok));
      return;
    }
    var b4;
    b4, outside := Lookup(s, i + 3, f);
    if outside {
      return;
    }
    assert y[3] == s[i + 3];
    if b4 == UNKN {
      ok := !f.nonPad && s[i + 3] == PAD && i + 4 == |s|;
      EndsAtThree(y, b1, b2, b3, f, Run([], ok));
      return;
    }
    Emit(out, size, count, Join3(b3, b4), before, sofar + next);
    assert sofar + next + [Join3(b3, b4)] == sofar + (next + [Join3(b3, b4)]);
    count, next := count + 1, next + [Join3(b3, b4)];
    DecodeGroup(y, f);
    assert y[4..] == s[i + 4..];
    more := i + 4 < |s|;
    ok := true;
    DecodeEmpty(f);
    assert !more ==> y[4..] == [] && next + [] == next;
  }
}
