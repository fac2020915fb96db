/** libnetq/dbc/DBCJ1939.c: identifiers, and the segmentation of a message into transport frames announced by a
    broadcast message (section 5.10 of SAE J1939-21). */
module J1939 {
  import opened Words

  // ---------- identifiers

  /** NQDBCJ1939Mkpdu1. */
  function Mkpdu1(p: bv32, pgn: bv32, da: bv32, sa: bv32): bv32 {
    (p << 26) | (pgn << 8) | (da << 8) | sa
  }

  function GetP(id: bv32): bv32 { (id >> 26) & 7 }
  function GetR(id: bv32): bv32 { (id >> 25) & 1 }
  function GetDP(id: bv32): bv32 { (id >> 24) & 1 }
  function GetPF(id: bv32): bv32 { (id >> 16) & 0xFF }
  function GetSA(id: bv32): bv32 { id & 0xFF }
  predicate IsPDU1(id: bv32) { GetPF(id) < 240 }
  function GetDA(id: bv32): bv32 { if IsPDU1(id) then (id >> 8) & 0xFF else 255 }

  /** The fields of an identifier of the first kind come back out of it. */
  lemma Mkpdu1Fields(p: bv32, pgn: bv32, da: bv32, sa: bv32)
    requires p <= 7 && pgn < 0xF000 && pgn & 0xFF == 0 && da <= 0xFF && sa <= 0xFF
    ensures GetP(Mkpdu1(p, pgn, da, sa)) == p
    ensures GetPF(Mkpdu1(p, pgn, da, sa)) << 8 == pgn
    ensures GetSA(Mkpdu1(p, pgn, da, sa)) == sa
  {
  }

  lemma Mkpdu1Address(p: bv32, pgn: bv32, da: bv32, sa: bv32)
    requires p <= 7 && pgn < 0xF000 && pgn & 0xFF == 0 && da <= 0xFF && sa <= 0xFF
    ensures GetDA(Mkpdu1(p, pgn, da, sa)) == da
    ensures GetR(Mkpdu1(p, pgn, da, sa)) == 0 && GetDP(Mkpdu1(p, pgn, da, sa)) == 0
  {
  }

  /** NQDBCJ1939SetSA and NQDBCJ1939SetDA. */
  function SetSA(id: bv32, sa: bv32): bv32 { (id & 0xFFFFFF00) | sa }
  function SetDA(id: bv32, da: bv32): bv32 { if IsPDU1(id) then (id & 0xFFFF00FF) | (da << 8) else id }

  /** They change their field and nothing else: setting the old value again gives the old identifier. */
  lemma SetSource(id: bv32, x: bv32)
    requires x <= 0xFF
    ensures GetSA(SetSA(id, x)) == x && SetSA(SetSA(id, x), GetSA(id)) == id
  {
  }

  lemma SetDestination(id: bv32, x: bv32)
    requires x <= 0xFF && IsPDU1(id)
    ensures GetDA(SetDA(id, x)) == x && SetDA(SetDA(id, x), GetDA(id)) == id
  {
  }

  /** What lies where in the 29 bits: three bits of priority, one reserved bit, the data page, eight bits of format,
      eight of the destination or the group extension, and eight of the source. */
  lemma IdentifierLayout(id: bv32)
    ensures id % 0x2000_0000
            == GetP(id) * 0x400_0000 + GetR(id) * 0x200_0000 + GetDP(id) * 0x100_0000 + GetPF(id) * 0x1_0000 + (id / 0x100 % 0x100) * 0x100 + GetSA(id)
    ensures GetP(id) < 8 && GetR(id) < 2 && GetDP(id) < 2 && GetPF(id) < 0x100 && GetSA(id) < 0x100
    ensures GetDA(id) == if GetPF(id) < 240 then id / 0x100 % 0x100 else 255
  {
  }

  /** The identifiers made, and the bits that setting an address changes. */
  lemma MadeLayout(p: bv32, pgn: bv32, da: bv32, sa: bv32)
    requires p <= 7 && pgn < 0xF000 && pgn & 0xFF == 0 && da <= 0xFF && sa <= 0xFF
    ensures Mkpdu1(p, pgn, da, sa) == p * 0x400_0000 + pgn * 0x100 + da * 0x100 + sa
  {
  }

  lemma SetLayout(id: bv32, x: bv32)
    requires x <= 0xFF
    ensures SetSA(id, x) == id - id % 0x100 + x
    ensures SetDA(id, x) == if GetPF(id) < 240 then id - (id / 0x100 % 0x100) * 0x100 + x * 0x100 else id
  {
  }

  // ---------- the message as frames

  datatype Frame = Frame(id: bv32, size: nat, data: seq<Byte>)

  /** Who sends what to whom. */
  datatype Header = Header(p: bv32, pgn: nat, da: bv32, sa: bv32)

  const BAM: Byte := 32
  const PGN_TPCM: bv32 := 60416
  const PGN_TPDT: bv32 := 60160
  const FRAMES := 256
  const DATA_MAX := 1785

  const NOTHING: seq<Byte> := [0, 0, 0, 0, 0, 0, 0, 0]

  /** The number of data frames for `n` bytes. */
  function Packets(n: nat): nat {
    (n + 6) / 7
  }

  /** The bytes of data frame `k`. */
  function Chunk(bytes: seq<Byte>, k: nat): seq<Byte>
    requires 0 < k <= Packets(|bytes|)
  {
    bytes[7 * (k - 1)..if 7 * k < |bytes| then 7 * k else |bytes|]
  }

  function Fill(n: nat): (r: seq<Byte>)
    ensures |r| == n && forall i :: 0 <= i < n ==> r[i] == 0xFF
  {
    seq(n, _ => 0xFF)
  }

  function DataFrame(h: Header, bytes: seq<Byte>, k: nat): Frame
    requires 0 < k <= Packets(|bytes|) && k < 256
  {
    var c := Chunk(bytes, k);
    Frame(Mkpdu1(h.p, PGN_TPDT, h.da, h.sa), 1 + |c|, [k] + c + Fill(7 - |c|))
  }

  /** The announcement: total size and number of packets, and the group that is transported. */
  function Announcement(h: Header, n: nat): Frame
    requires n <= DATA_MAX
  {
    Frame(Mkpdu1(h.p, PGN_TPCM, h.da, h.sa), 8,
          [BAM, n % 256, n / 256, Packets(n), 0xFF, h.pgn % 256, h.pgn / 256 % 256, h.pgn / 65536 % 256])
  }

  /** All frames of a builder that has been given `bytes`. */
  function Frames(h: Header, bytes: seq<Byte>): (r: seq<Frame>)
    requires |bytes| <= DATA_MAX
    ensures |r| == FRAMES
  {
    seq(FRAMES, k requires 0 <= k < FRAMES =>
      if k == 0 then Announcement(h, |bytes|)
      else if k <= Packets(|bytes|) then DataFrame(h, bytes, k)
      else Frame(0, 0, NOTHING))
  }

  /** The payloads of the data frames from `k` to `last`, one behind the other. */
  function Payload(frames: seq<Frame>, k: nat, last: nat): seq<Byte>
    requires last < |frames| && forall i :: 0 <= i < |frames| ==> |frames[i].data| == 8
    decreases last + 1 - k
  {
    if k > last then [] else frames[k].data[1..] + Payload(frames, k + 1, last)
  }

  lemma DataFrameShape(h: Header, bytes: seq<Byte>, k: nat)
    requires |bytes| <= DATA_MAX && 0 < k <= Packets(|bytes|)
    ensures k < 256 && 0 < |Chunk(bytes, k)| <= 7 && |DataFrame(h, bytes, k).data| == 8
    ensures DataFrame(h, bytes, k).data[0] == k && DataFrame(h, bytes, k).data[1..] == Chunk(bytes, k) + Fill(7 - |Chunk(bytes, k)|)
    ensures k < Packets(|bytes|) ==> |Chunk(bytes, k)| == 7
  {
  }

  /** The bytes from data frame `k` on. */
  function From(bytes: seq<Byte>, k: nat): seq<Byte>
    requires k > 0
  {
    if 7 * (k - 1) < |bytes| then bytes[7 * (k - 1)..] else []
  }

  lemma FromStep(bytes: seq<Byte>, k: nat)
    requires 0 < k <= Packets(|bytes|)
    ensures var c := Chunk(bytes, k);
      && From(bytes, k) == c + From(bytes, k + 1)
      && (k < Packets(|bytes|) ==> |c| == 7) && (k == Packets(|bytes|) ==> From(bytes, k + 1) == [] && 7 - |c| == 7 * k - |bytes|)
  {
    var a, b := 7 * (k - 1), 7 * k;
    if b < |bytes| {
      assert bytes[a..] == bytes[a..b] + bytes[b..];
    } else {
      assert bytes[a..] == bytes[a..|bytes|] + [];
    }
  }

  lemma {:induction false} PayloadFrom(h: Header, bytes: seq<Byte>, k: nat)
    requires |bytes| <= DATA_MAX && 0 < k <= Packets(|bytes|) + 1
    requires forall i :: 0 <= i < FRAMES ==> |Frames(h, bytes)[i].data| == 8
    ensures var n := Packets(|bytes|);
      Payload(Frames(h, bytes), k, n) == if k <= n then From(bytes, k) + Fill(7 * n - |bytes|) else []
    decreases Packets(|bytes|) + 1 - k
  {
    hide Frames, DataFrame, From, Chunk, Packets, Fill;
    var n := Packets(|bytes|);
    if k <= n {
      PayloadFrom(h, bytes, k + 1);
      FrameCarries(h, bytes, k);
      var c, more, fill := Chunk(bytes, k), From(bytes, k + 1), Fill(7 * n - |bytes|);
      if k < n {
        assert c + (more + fill) == c + more + fill;
      } else {
        assert c + fill + [] == c + [] + fill;
      }
    }
  }

  lemma FrameCarries(h: Header, bytes: seq<Byte>, k: nat)
    requires |bytes| <= DATA_MAX && 0 < k <= Packets(|bytes|)
    ensures var n := Packets(|bytes|); var f := Frames(h, bytes)[k]; var c := Chunk(bytes, k);
      && k < n + 1 <= 256 && 7 * n - |bytes| >= 0 && |f.data| == 8 && f.data[1..] == c + (if k < n then [] else Fill(7 * n - |bytes|))
      && From(bytes, k) == c + From(bytes, k + 1) && (k == n ==> From(bytes, k + 1) == [])
  {
    DataFrameShape(h, bytes, k);
    FromStep(bytes, k);
    assert Frames(h, bytes)[k] == DataFrame(h, bytes, k);
    assert Fill(0) == [];
  }

  lemma FramesAreFull(h: Header, bytes: seq<Byte>)
    requires |bytes| <= DATA_MAX
    ensures forall i :: 0 <= i < FRAMES ==> |Frames(h, bytes)[i].data| == 8
  {
    forall i: nat | i < FRAMES ensures |Frames(h, bytes)[i].data| == 8 {
      if 0 < i <= Packets(|bytes|) { DataFrameShape(h, bytes, i); }
    }
  }

  /** The receiver's side: the announcement gives the size and the number of packets, they carry the numbers 1, 2
      and so on, and their payloads make up the message and nothing but fill behind it. */
  lemma FramesCarryMessage(h: Header, bytes: seq<Byte>)
    requires 0 < |bytes| <= DATA_MAX
    ensures FramesOk(h, bytes)
  {
    FramesAreFull(h, bytes);
    PayloadFrom(h, bytes, 1);
    var f := Frames(h, bytes);
    var n := Packets(|bytes|);
    assert f[0] == Announcement(h, |bytes|);
    forall k | 1 <= k <= n ensures f[k].data[0] == k {
      DataFrameShape(h, bytes, k);
      assert f[k] == DataFrame(h, bytes, k);
    }
    assert From(bytes, 1) == bytes;
  }

  ghost predicate FramesOk(h: Header, bytes: seq<Byte>)
    requires 0 < |bytes| <= DATA_MAX
  {
    var f := Frames(h, bytes);
    var n := Packets(|bytes|);
    && (forall i :: 0 <= i < FRAMES ==> |f[i].data| == 8)
    && (f[0].data[1] as nat) + 256 * (f[0].data[2] as nat) == |bytes| && f[0].data[3] == n && 7 * (n - 1) < |bytes| <= 7 * n
    && (forall k :: 1 <= k <= n ==> f[k].data[0] == k)
    && Payload(f, 1, n) == bytes + Fill(7 * n - |bytes|)
  }

  /** The frames number by number (section 5.10 of SAE J1939-21): the announcement has format 0xEC and control byte
      32, and names the group, low byte first; data frames have format 0xEB and are as long as what they carry; the
      frames behind them are not in use. */
  lemma FramesLayout(h: Header, bytes: seq<Byte>, k: nat)
    requires 0 < |bytes| <= DATA_MAX && h.p <= 7 && h.da <= 0xFF && h.sa <= 0xFF && k < FRAMES
    ensures var f := Frames(h, bytes)[k]; var address := h.da * 0x100 + h.sa;
      if k == 0 then
        && f.id == h.p * 0x400_0000 + 0xEC_0000 + address && f.size == 8
        && f.data == [32, |bytes| % 256, |bytes| / 256, (|bytes| + 6) / 7, 255, h.pgn % 256, h.pgn / 256 % 256, h.pgn / 65536 % 256]
      else if 7 * (k - 1) < |bytes| then
        && f.id == h.p * 0x400_0000 + 0xEB_0000 + address
        && f.size == 1 + (if |bytes| < 7 * k then |bytes| - 7 * (k - 1) else 7)
      else f == Frame(0, 0, NOTHING)
  {
    hide Mkpdu1;
    FrameIdentifiers(h);
    var f, n := Frames(h, bytes)[k], Packets(|bytes|);
    if k == 0 {
      assert f == Announcement(h, |bytes|);
    } else if k <= n {
      assert f == DataFrame(h, bytes, k) && 7 * (k - 1) < |bytes|;
      DataFrameShape(h, bytes, k);
    } else {
      assert 7 * (k - 1) >= |bytes| && f == Frame(0, 0, NOTHING);
    }
  }

  lemma FrameIdentifiers(h: Header)
    requires h.p <= 7 && h.da <= 0xFF && h.sa <= 0xFF
    ensures var address := h.da * 0x100 + h.sa;
      && Mkpdu1(h.p, PGN_TPCM, h.da, h.sa) == h.p * 0x400_0000 + 0xEC_0000 + address
      && Mkpdu1(h.p, PGN_TPDT, h.da, h.sa) == h.p * 0x400_0000 + 0xEB_0000 + address
  {
  }

  // ---------- frames while they are being filled

  /** The frames after some bytes of an append: the announcement is still the old one, and what is behind the data
      in the last frame does not matter. */
  ghost predicate Filling(h: Header, announced: nat, bytes: seq<Byte>, f: seq<Frame>) {
    && |f| == FRAMES && announced <= |bytes| <= DATA_MAX
    && f[0] == Announcement(h, announced)
    && (forall k :: 0 < k < Packets(|bytes|) ==> f[k] == DataFrame(h, bytes, k))
    && (Packets(|bytes|) > 0 ==> Part(h, bytes, f[Packets(|bytes|)]))
    && forall k :: Packets(|bytes|) < k < FRAMES ==> f[k] == Frame(0, 0, NOTHING)
  }

  /** The last frame, up to its size. */
  predicate Part(h: Header, bytes: seq<Byte>, f: Frame)
    requires 0 < |bytes| <= DATA_MAX
  {
    var n := Packets(|bytes|);
    var c := Chunk(bytes, n);
    f.id == Mkpdu1(h.p, PGN_TPDT, h.da, h.sa) && f.size == 1 + |c| <= 8 == |f.data| && f.data[..f.size] == [n] + c
  }

  /** One byte more. */
  function Put(h: Header, sn: nat, f: seq<Frame>, b: Byte): seq<Frame>
    requires |f| == FRAMES && sn < FRAMES && (f[sn].size >= 8 ==> sn + 1 < 256 && |f[sn + 1].data| == 8)
    requires f[sn].size < 8 ==> |f[sn].data| == 8
  {
    if f[sn].size >= 8 then f[sn + 1 := Frame(Mkpdu1(h.p, PGN_TPDT, h.da, h.sa), 2, f[sn + 1].data[0 := sn + 1][1 := b])]
    else f[sn := f[sn].(size := f[sn].size + 1, data := f[sn].data[f[sn].size := b])]
  }

  lemma StartsFilled(h: Header, bytes: seq<Byte>)
    requires |bytes| <= DATA_MAX
    ensures Filling(h, |bytes|, bytes, Frames(h, bytes))
  {
    if bytes != [] { DataFrameShape(h, bytes, Packets(|bytes|)); }
  }

  lemma PutFits(h: Header, announced: nat, bytes: seq<Byte>, f: seq<Frame>)
    requires Filling(h, announced, bytes, f) && |bytes| < DATA_MAX
    ensures var sn := Packets(|bytes|);
      && sn < FRAMES && (f[sn].size >= 8 ==> sn + 1 < 256 && |f[sn + 1].data| == 8) && (f[sn].size < 8 ==> |f[sn].data| == 8)
      && (f[sn].size >= 8 <==> |bytes| % 7 == 0)
  {
    if bytes != [] { DataFrameShape(h, bytes, Packets(|bytes|)); }
  }

  lemma ChunkStays(h: Header, bytes: seq<Byte>, b: Byte, k: nat)
    requires |bytes| < DATA_MAX && 0 < k && 7 * k <= |bytes|
    ensures DataFrame(h, bytes + [b], k) == DataFrame(h, bytes, k)
  {
    assert Chunk(bytes + [b], k) == Chunk(bytes, k);
  }

  lemma PutKeeps(h: Header, announced: nat, bytes: seq<Byte>, f: seq<Frame>, b: Byte)
    requires Filling(h, announced, bytes, f) && |bytes| < DATA_MAX
    ensures var sn := Packets(|bytes|);
      && sn < FRAMES && (f[sn].size >= 8 ==> sn + 1 < 256 && |f[sn + 1].data| == 8) && (f[sn].size < 8 ==> |f[sn].data| == 8)
      && Filling(h, announced, bytes + [b], Put(h, sn, f, b))
  {
    PutFits(h, announced, bytes, f);
    var sn := Packets(|bytes|);
    var g, more := Put(h, sn, f, b), bytes + [b];
    if |bytes| % 7 == 0 {
      if sn > 0 { FullFrame(h, bytes, f[sn]); }
      assert Chunk(more, sn + 1) == [b];
      forall k | 0 < k < Packets(|more|) ensures g[k] == DataFrame(h, more, k) {
        ChunkStays(h, bytes, b, k);
      }
    } else {
      assert Chunk(more, sn) == Chunk(bytes, sn) + [b];
      var size := f[sn].size;
      assert g[sn].data[..size + 1] == f[sn].data[..size] + [b];
      forall k | 0 < k < Packets(|more|) ensures g[k] == DataFrame(h, more, k) {
        ChunkStays(h, bytes, b, k);
      }
    }
  }

  lemma FullFrame(h: Header, bytes: seq<Byte>, f: Frame)
    requires 0 < |bytes| <= DATA_MAX && |bytes| % 7 == 0 && Part(h, bytes, f)
    ensures f == DataFrame(h, bytes, Packets(|bytes|))
  {
    DataFrameShape(h, bytes, Packets(|bytes|));
    assert f.data[..8] == f.data;
  }

  /** Filling up the last frame and renewing the announcement completes the frames. */
  lemma Filled(h: Header, announced: nat, bytes: seq<Byte>, f: seq<Frame>)
    requires Filling(h, announced, bytes, f) && bytes != []
    ensures var n := Packets(|bytes|); var last := f[n]; var a := f[0];
      && 0 < n < 256 && last.size <= 8 == |last.data| && |a.data| == 8
      && f[n := last.(data := last.data[..last.size] + Fill(8 - last.size))]
          [0 := a.(data := a.data[1 := |bytes| % 256][2 := |bytes| / 256][3 := n])] == Frames(h, bytes)
  {
    var n := Packets(|bytes|);
    DataFrameShape(h, bytes, n);
    var last, a := f[n], f[0];
    var done := last.(data := last.data[..last.size] + Fill(8 - last.size));
    assert done == DataFrame(h, bytes, n);
    assert a.data[1 := |bytes| % 256][2 := |bytes| / 256][3 := n] == Announcement(h, |bytes|).data;
  }

  // ---------- the builder

  class TPBuilder {
    var p: bv32
    var sa: bv32
    var da: bv32
    var sn: nat
    var nbyte: nat
    const frames: array<Frame>
    ghost const pgn: nat
    ghost var bytes: seq<Byte>

    ghost function Head(): Header
      reads this
    {
      Header(p, pgn, da, sa)
    }

    ghost predicate Valid()
      reads this, frames
    {
      && frames.Length == FRAMES && |bytes| <= DATA_MAX && nbyte == |bytes| && sn == Packets(|bytes|)
      && frames[..] == Frames(Head(), bytes)
    }

    /** NQDBCJ1939TPBuilder_init. */
    constructor (p: bv32, pgn: nat, da: bv32, sa: bv32)
      ensures Valid() && fresh(frames) && bytes == [] && Head() == Header(p, pgn, da, sa)
    {
      this.p, this.sa, this.da, this.pgn := p, sa, da, pgn;
      sn, nbyte, bytes := 0, 0, [];
      frames := new Frame[FRAMES](_ => Frame(0, 0, NOTHING));
      new;
      frames[0] := Frame(Mkpdu1(p, PGN_TPCM, da, sa), 8, [BAM, 0, 0, 0, 0xFF, pgn % 256, pgn / 256 % 256, pgn / 65536 % 256]);
      assert frames[0] == Announcement(Head(), 0);
      assert frames[..] == Frames(Head(), bytes);
    }

    /** One turn of the loop of NQDBCJ1939TPBuilder_append; `frame` is the frame the byte may still fit in. */
    method PutByte(frame: nat, b: Byte) returns (next: nat)
      requires frames.Length == FRAMES && frame == sn < FRAMES
      requires frames[frame].size >= 8 ==> frame + 1 < 256 && |frames[frame + 1].data| == 8
      requires frames[frame].size < 8 ==> |frames[frame].data| == 8
      modifies this`sn, this`nbyte, frames
      ensures nbyte == old(nbyte) + 1 && next == sn == old(sn) + if old(frames[frame].size) >= 8 then 1 else 0
      ensures frames[..] == Put(Head(), old(sn), old(frames[..]), b)
    {
      next := frame;
      if frames[next].size >= 8 {
        next := next + 1;
        sn := sn + 1;
        frames[next] := Frame(Mkpdu1(p, PGN_TPDT, da, sa), 1, frames[next].data[0 := sn]);
      }
      var f := frames[next];
      frames[next] := f.(size := f.size + 1, data := f.data[f.size := b]);
      nbyte := nbyte + 1;
    }

    /** The end of NQDBCJ1939TPBuilder_append: the last frame is filled up and the announcement renewed. */
    method Complete(frame: nat)
      requires frames.Length == FRAMES && 0 < frame == sn < 256 && nbyte <= DATA_MAX && |frames[0].data| == 8
      requires frames[frame].size <= 8 == |frames[frame].data|
      modifies frames
      ensures var f, a := old(frames[frame]), old(frames[0]);
        frames[..] == old(frames[..])[frame := f.(data := f.data[..f.size] + Fill(8 - f.size))]
                                     [0 := a.(data := a.data[1 := nbyte % 256][2 := nbyte / 256][3 := sn])]
    {
      var f := frames[frame];
      if f.size < 8 {
        frames[frame] := f.(data := f.data[..f.size] + Fill(8 - f.size));
      } else {
        assert f.data[..8] + Fill(0) == f.data;
      }
      var a := frames[0];
      frames[0] := a.(data := a.data[1 := nbyte % 256][2 := nbyte / 256][3 := sn]);
    }

    /** NQDBCJ1939TPBuilder_append. */
    method Append(data: seq<Byte>) returns (ok: bool)
      requires Valid()
      modifies this`sn, this`nbyte, this`bytes, frames
      ensures Valid() && ok == (0 < |data| <= DATA_MAX - |old(bytes)|)
      ensures bytes == if ok then old(bytes) + data else old(bytes)
    {
      hide Filling, Frames, Put, Mkpdu1, Packets;
      if |data| == 0 || DATA_MAX - nbyte < |data| {
        return false;
      }
      var frame, rest := sn, 0;
      StartsFilled(Head(), bytes);
      while rest < |data|
        invariant rest <= |data| && bytes == old(bytes) + data[..rest] && nbyte == |bytes| && frame == sn == Packets(nbyte)
        invariant Filling(Head(), old(nbyte), bytes, frames[..])
      {
        PutFits(Head(), old(nbyte), bytes, frames[..]);
        PutKeeps(Head(), old(nbyte), bytes, frames[..], data[rest]);
        NextPacket(nbyte);
        frame := PutByte(frame, data[rest]);
        bytes := bytes + [data[rest]];
        rest := rest + 1;
        assert data[..rest] == data[..rest - 1] + [data[rest - 1]];
      }
      assert data[..rest] == data;
      Filled(Head(), old(nbyte), bytes, frames[..]);
      Complete(frame);
      ok := true;
    }
  }

  lemma NextPacket(n: nat)
    ensures Packets(n + 1) == Packets(n) + if n % 7 == 0 then 1 else 0
  {
  }
}
