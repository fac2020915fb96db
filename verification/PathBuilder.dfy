/** NQPathJoin over flat memory, and its two uses: into a separate buffer, and in place into the text of
    a path builder. */
module PathBuilder {
  import opened Words
  import opened PathSpec
  import opened PathNormal
  import opened PathDryRun
  import opened PathJoin

  /** `rest` is what the reader has left of `strs`. */
  ghost predicate Consumed(read: PathRead, strs: seq<string>, rest: seq<string>)
    reads read, read.mem
  {
    && read.Unread(rest) && |strs| == |read.paths| && read.curr <= |strs|
    && (read.pos.None? ==> rest == strs[read.curr..])
    && (read.pos.Some? ==>
         && read.curr < |strs| && rest != [] && rest[1..] == strs[read.curr + 1..]
         && read.paths[read.curr] <= read.pos.value
         && read.pos.value + |rest[0]| == read.paths[read.curr] + |strs[read.curr]|)
  }

  /** The strings that are read: each lies outside the buffer [buf, buf + len), but the first may start
      the buffer. */
  ghost predicate Apart(paths: seq<nat>, strs: seq<string>, buf: nat, len: nat) {
    |paths| == |strs| &&
    forall j :: 0 <= j < |paths| ==> (j == 0 && paths[0] == buf) || paths[j] + |strs[j]| < buf || buf + len <= paths[j]
  }

  predicate InPlace(read: PathRead, buf: nat)
    reads read
  {
    read.curr == 0 && |read.paths| > 0 && read.paths[0] == buf
  }

  /** While the buffer's own text is read the writer stays behind the reader; where the writer would need
      a separator the reader stands before one, and once all text was dropped it has gone further. */
  ghost predicate Behind(read: PathRead, buf: nat, text: string, rest: seq<string>)
    requires read.pos.Some? ==> rest != []
    reads read
  {
    InPlace(read, buf) ==>
      if read.pos.None? then read.count == 0 && text == "" else
        && buf + |text| <= read.pos.value
        && (|Append(text, "")| == |text| || rest[0] == "" || IsSeparator(rest[0][0]))
        && (text == "" ==> buf < read.pos.value && (rest[0] == "" || IsSeparator(rest[0][0])))
  }

  lemma CStringFrame(m: seq<char>, m': seq<char>, a: nat, b: nat, p: nat, s: string)
    requires CString(m, p, s) && |m'| == |m| && (b <= p || p + |s| < a)
    requires forall i :: 0 <= i < |m| && !(a <= i < b) ==> m'[i] == m[i]
    ensures CString(m', p, s)
  {
    assert m'[p..p + |s|] == m[p..p + |s|];
  }

  /** One segment more is at most its own length and a separator more. */
  lemma RenderGrows(n: Norm, s: string)
    requires Normal(n) && Clean(s)
    ensures |Render(Push(n, s))| <= |Append(Render(n), "")| + |s|
  {
    if s == ".." {
      if n.stack != [] { RenderPop(n); } else if n.root == Relative { RenderUp(n); }
    } else if s != "." {
      RenderName(n, s);
    }
    AppendParts(Render(n), s);
  }

  ghost predicate Joining(read: PathRead, write: PathWrite, strs: seq<string>, rest: seq<string>, n: Norm)
    reads read, write, read.mem, write.mem
  {
    && read.mem == write.mem && Consumed(read, strs, rest)
    && (write.dry ==> write.Dried())
    && (!write.dry ==> write.Built(n) && Apart(read.paths, strs, write.start, write.end - write.start)
                       && Behind(read, write.start, Render(n), rest))
    && (read.count == 0 ==> write.length == 0)
  }

  /** Where the segment that was just read lies: in the string of the current path. */
  lemma SegmentInString(read: PathRead, strs: seq<string>, rest: seq<string>, left: seq<string>, curr: nat, pos: Option<nat>)
    requires curr <= read.curr < |read.paths| == |strs| && read.pos.Some? && read.Unread(left)
    requires if pos.None? then rest == strs[curr..] else
      curr < |strs| && rest != [] && rest[1..] == strs[curr + 1..] && read.paths[curr] <= pos.value
      && pos.value + |rest[0]| == read.paths[curr] + |strs[curr]|
    requires |rest| == |strs| - curr && left[1..] == rest[read.curr - curr + 1..]
    requires read.pos.value + |left[0]| == |rest[read.curr - curr]| +
      (if read.curr == curr && pos.Some? then pos.value else read.paths[read.curr])
    ensures left[1..] == strs[read.curr + 1..]
    ensures read.pos.value + |left[0]| == read.paths[read.curr] + |strs[read.curr]|
  {
    var d := read.curr - curr;
    if d > 0 && pos.Some? {
      assert rest[d] == rest[1..][d - 1] == strs[read.curr];
      assert rest[d + 1..] == rest[1..][d..] == strs[curr + 1..][d..];
    }
  }

  /** The segment just read is out of the writer's way. */
  lemma InTheClear(write: PathWrite, paths: seq<nat>, strs: seq<string>, curr: nat, o: nat, s: string, text: string)
    requires curr < |paths| == |strs| && write.start <= write.end && Apart(paths, strs, write.start, write.end - write.start)
    requires paths[curr] <= o && o + |s| <= paths[curr] + |strs[curr]|
    requires curr == 0 && paths[0] == write.start ==>
      write.start + |Append(text, "")| <= o && (text == "" ==> o == write.start || write.start + 2 <= o)
    ensures write.OutOfTheWay(At(o), s, text)
  {
  }

  /** What was unread stays readable when the writer has changed [start, position). */
  lemma StillUnread(m: seq<char>, m': seq<char>, write: PathWrite, paths: seq<nat>, strs: seq<string>, curr: nat, pos: nat,
                    position: nat, left: seq<string>)
    requires |m| == |m'| && forall i :: 0 <= i < |m| && !(write.start <= i < position) ==> m'[i] == m[i]
    requires curr < |paths| == |strs| && |left| == |paths| - curr && left[1..] == strs[curr + 1..]
    requires write.start <= write.end && Apart(paths, strs, write.start, write.end - write.start) && position <= write.end
    requires paths[curr] <= pos && pos + |left[0]| == paths[curr] + |strs[curr]| && CString(m, pos, left[0])
    requires curr == 0 && paths[0] == write.start ==> position <= pos
    requires forall j :: 1 <= j < |left| ==> CString(m, paths[curr + j], left[j])
    ensures CString(m', pos, left[0])
    ensures forall j :: 1 <= j < |left| ==> CString(m', paths[curr + j], left[j])
  {
    CStringFrame(m, m', write.start, position, pos, left[0]);
    forall j | 1 <= j < |left| ensures CString(m', paths[curr + j], left[j]) {
      assert left[j] == left[1..][j - 1] == strs[curr + j];
      CStringFrame(m, m', write.start, position, paths[curr + j], left[j]);
    }
  }

  /** The writer may copy segment `s` behind `text` and will not disturb what is left to read. */
  ghost predicate Ready(read: PathRead, write: PathWrite, segment: Source, s: string, text: string, left: seq<string>)
    reads read, write.mem
  {
    && write.OutOfTheWay(segment, s, text)
    && read.pos.Some? && left != []
    && (InPlace(read, write.start) ==>
         && write.start + |Append(text, "")| + |s| <= read.pos.value
         && (segment.At? ==> left[0] == "" || IsSeparator(left[0][0]))
         && (segment.Slash? ==> text == ""))
  }

  /** What reading one segment establishes. */
  method ReadTurn(read: PathRead, write: PathWrite, ghost strs: seq<string>, ghost rest: seq<string>, ghost n: Norm)
    returns (segment: Option<Source>, length: nat, ghost left: seq<string>, ghost s: string)
    requires Joining(read, write, strs, rest, n)
    modifies read
    ensures var p := old(Pending(rest, read.count > 0));
      && (segment.Some? <==> p != [])
      && (segment.Some? ==> s == p[0] && |s| == length && Pending(left, true) == p[1..])
    ensures segment.Some? ==>
      && read.count > 0 && read.pos.Some? && Consumed(read, strs, left) && write.Holds(segment.value, s)
      && (if segment.value.Slash? then write.length == 0 else Clean(s))
      && (!write.dry ==> Ready(read, write, segment.value, s, Render(n), left))
  {
    hide CString, Render, Append, Pending, Tokens, AllTokens, Clean, Normal, FirstOk;
    ghost var curr, pos := read.curr, read.pos;
    segment, length, left := read.Next(rest);
    s := "";
    if segment.Some? {
      s := if segment.value.Slash? then "/" else write.mem[segment.value.offset..segment.value.offset + length];
      SegmentInString(read, strs, rest, left, curr, pos);
      if !write.dry {
        ClearOfText(write, Render(n));
        if segment.value.At? {
          InTheClear(write, read.paths, strs, read.curr, segment.value.offset, s, Render(n));
        }
      }
    }
  }

  lemma ClearOfText(write: PathWrite, text: string)
    requires write.Written(text)
    ensures |Append(text, "")| <= |text| + 1 && (text == "" ==> Append(text, "") == "") && (write.length == 0 <==> text == "")
  {
  }

  lemma GrowsLittle(n: Norm, segment: Source, s: string)
    requires Normal(n) && (if segment.Slash? then s == "/" && Render(n) == "" else Clean(s))
    ensures s != "" && Normal(Push(n, s))
    ensures |Render(Push(n, s))| <= |Append(Render(n), "")| + |s|
    ensures segment.Slash? ==> Render(Push(n, s)) == "/" && Append("/", "") == "/"
    ensures |Append(Render(Push(n, s)), "")| <= |Render(Push(n, s))| + 1
  {
    PushNormal(n, s);
    if segment.Slash? {
      RootsByText(n);
    } else {
      RenderGrows(n, s);
    }
  }

  /** Writing the segment that was read. */
  method WriteTurn(read: PathRead, write: PathWrite, segment: Source, length: nat,
                   ghost strs: seq<string>, ghost left: seq<string>, ghost n: Norm, ghost s: string)
    requires read.mem == write.mem && read.count > 0 && read.pos.Some? && Consumed(read, strs, left)
    requires |s| == length && write.Holds(segment, s) && if segment.Slash? then write.length == 0 else Clean(s)
    requires write.dry ==> write.Dried()
    requires !write.dry ==> write.Built(n) && Apart(read.paths, strs, write.start, write.end - write.start)
    requires !write.dry ==> Ready(read, write, segment, s, Render(n), left) && write.start + |Render(Push(n, s))| <= write.end
    modifies write, write.mem
    ensures s != "" && Joining(read, write, strs, left, Push(n, s))
    ensures write.dry ==> write.Counters() == DryPush(old(write.Counters()), s) && write.mem[..] == old(write.mem[..])
    ensures forall i :: 0 <= i < write.mem.Length && !(write.start <= i < write.end) ==> write.mem[i] == old(write.mem[i])
  {
    hide CString, Render, Append, Push, DryPush, Clean, Normal, FirstOk, Apart, SegmentLength;
    ghost var m := write.mem[..];
    if !write.dry {
      assert segment.Slash? ==> Render(n) == "";
      GrowsLittle(n, segment, s);
    }
    write.Push(segment, length, n, s);
    if !write.dry {
      StillUnread(m, write.mem[..], write, read.paths, strs, read.curr, read.pos.value, write.position, left);
    } else {
      assert write.mem[..] == m;
    }
  }

  lemma {:induction false} PushAllSnoc(n: Norm, segments: seq<string>, k: nat)
    requires k < |segments|
    ensures PushAll(n, segments[..k + 1]) == Push(PushAll(n, segments[..k]), segments[k])
  {
    assert segments[..k + 1] == segments[..k] + [segments[k]];
    PushAllConcat(n, segments[..k], [segments[k]]);
    assert [segments[k]][1..] == [];
  }

  lemma {:induction false} DrySnoc(d: Dry, segments: seq<string>, s: string)
    requires s != "" && forall i :: 0 <= i < |segments| ==> segments[i] != ""
    ensures forall i :: 0 <= i < |segments + [s]| ==> (segments + [s])[i] != ""
    ensures DryPushAll(d, segments + [s]) == DryPush(DryPushAll(d, segments), s)
    decreases |segments|
  {
    var all := segments + [s];
    if segments == [] {
      assert all[1..] == [];
    } else {
      assert all[1..] == segments[1..] + [s];
      DrySnoc(DryPush(d, segments[0]), segments[1..], s);
    }
  }

  /** One turn of the loop of NQPathJoin, lines 212-217: the next segment is read and written. */
  method Turn(read: PathRead, write: PathWrite, ghost strs: seq<string>, ghost rest: seq<string>, ghost k: nat)
    returns (more: bool, ghost left: seq<string>)
    requires var segments := Segments(strs);
      k <= |segments| && Joining(read, write, strs, rest, PushAll(EMPTY, segments[..k])) && Pending(rest, read.count > 0) == segments[k..]
    requires !write.dry ==> DryJoin(strs) <= write.end - write.start
    modifies read, write, write.mem
    ensures more <==> k < |Segments(strs)|
    ensures more ==> Joining(read, write, strs, left, PushAll(EMPTY, Segments(strs)[..k + 1]))
    ensures more ==> Pending(left, read.count > 0) == Segments(strs)[k + 1..]
    ensures more && write.dry ==> Segments(strs)[k] != "" && write.Counters() == DryPush(old(write.Counters()), Segments(strs)[k])
    ensures !more ==> write.Counters() == old(write.Counters())
    ensures !more ==> if write.dry then write.Dried() else write.Built(PushAll(EMPTY, Segments(strs)[..k]))
    ensures write.dry ==> write.mem[..] == old(write.mem[..])
    ensures forall i :: 0 <= i < write.mem.Length && !(write.start <= i < write.end) ==> write.mem[i] == old(write.mem[i])
  {
    hide CString, Render, Append, Push, Clean, Normal, FirstOk, DryPush, DryJoin, Tokens, AllTokens, Rooted, PushAll, Apart;
    ghost var n := PushAll(EMPTY, Segments(strs)[..k]);
    var segment, length;
    ghost var s;
    segment, length, left, s := ReadTurn(read, write, strs, rest, n);
    more := segment.Some?;
    if more {
      PushAllSnoc(EMPTY, Segments(strs), k);
      DryJoinCovers(strs, k + 1);
      WriteTurn(read, write, segment.value, length, strs, left, n, s);
    }
  }

  /** NQPathJoin: lines 201-220. `strs` are the strings at `paths`. With `dry` the buffer is NULL. */
  method JoinPath(mem: array<char>, paths: seq<nat>, dry: bool, buf: nat, len: nat, ghost strs: seq<string>) returns (result: nat)
    requires |paths| == |strs| && forall j :: 0 <= j < |paths| ==> CString(mem[..], paths[j], strs[j])
    requires !dry ==> buf + len <= mem.Length && DryJoin(strs) <= len && Apart(paths, strs, buf, len)
    modifies mem
    ensures dry ==> result == DryJoin(strs) && mem[..] == old(mem[..])
    ensures !dry ==> result == |PathSpec.Join(strs)| <= len && mem[buf..buf + result] == PathSpec.Join(strs)
    ensures !dry && result < len ==> mem[buf + result] == NUL
    ensures forall i :: 0 <= i < mem.Length && (dry || !(buf <= i < buf + len)) ==> mem[i] == old(mem[i])
  {
    hide CString, Render, Append, Push, Clean, Normal, FirstOk, DryPush, DryFinish, PathSpec.Finish, Tokens, AllTokens, Rooted,
      Apart, Consumed, Behind, PushAll, Segments;
    var read := new PathRead(mem, paths);
    var write := new PathWrite(mem, dry, buf, len);
    ghost var rest, k, segments := strs, 0, Segments(strs);
    SegmentsNonEmpty(strs);
    assert segments[..0] == [] && segments[0..] == segments && mem[..] == old(mem[..]);
    StartsEmpty();
    StartsJoining(read, write, strs);
    PendingAll(strs);
    var more := true;
    while more
      invariant fresh(read) && fresh(write) && write.mem == mem && write.dry == dry
      invariant !dry ==> write.start == buf && write.end == buf + len
      invariant k <= |segments|
      invariant more ==> Joining(read, write, strs, rest, PushAll(EMPTY, segments[..k])) && Pending(rest, read.count > 0) == segments[k..]
      invariant !more ==> k == |segments| && if dry then write.Dried() else write.Built(PushAll(EMPTY, segments[..k]))
      invariant dry ==> write.Counters() == DryPushAll(START, segments[..k]) && mem[..] == old(mem[..])
      invariant forall i :: 0 <= i < mem.Length && (dry || !(buf <= i < buf + len)) ==> mem[i] == old(mem[i])
      decreases more, |segments| - k
    {
      ghost var left;
      more, left := Turn(read, write, strs, rest, k);
      if more {
        DryNext(segments, k);
        rest, k := left, k + 1;
      }
    }
    assert segments[..k] == segments;
    DryJoinCovers(strs, 0);
    result := write.Finish(PushAll(EMPTY, segments));
  }

  lemma DryNext(segments: seq<string>, k: nat)
    requires k < |segments| && forall i :: 0 <= i < |segments| ==> segments[i] != ""
    ensures DryPushAll(START, segments[..k + 1]) == DryPush(DryPushAll(START, segments[..k]), segments[k])
  {
    DrySnoc(START, segments[..k], segments[k]);
    assert segments[..k] + [segments[k]] == segments[..k + 1];
  }

  lemma PendingAll(strs: seq<string>)
    ensures Pending(strs, false) == Segments(strs)
  {
  }

  lemma SegmentsNonEmpty(paths: seq<string>)
    ensures forall i :: 0 <= i < |Segments(paths)| ==> Segments(paths)[i] != ""
  {
    SegmentsDelivered(paths);
  }

  lemma StartsJoining(read: PathRead, write: PathWrite, strs: seq<string>)
    requires read.mem == write.mem && read.curr == 0 && read.pos.None? && read.count == 0 && |strs| == |read.paths|
    requires forall j :: 0 <= j < |strs| ==> CString(read.mem[..], read.paths[j], strs[j])
    requires write.length == 0 && write.segmentCount == 0
    requires if write.dry then write.Dried() else write.Written("") && Apart(read.paths, strs, write.start, write.end - write.start)
    ensures Joining(read, write, strs, strs, EMPTY)
  {
    StartsEmpty();
    assert strs[0..] == strs;
    assert read.Later(0, strs);
  }

  lemma StartsEmpty()
    ensures Render(EMPTY) == "" && Normal(EMPTY) && PushAll(EMPTY, []) == EMPTY
  {
  }

  // ---------- the result is a C string again

  lemma {:induction false} TokensWithoutNul(s: string)
    requires NUL !in s
    ensures forall i :: 0 <= i < |Tokens(s)| ==> NUL !in Tokens(s)[i]
    decreases |s|
  {
    if s != "" {
      if IsSeparator(s[0]) {
        TokensWithoutNul(s[1..]);
      } else {
        TokensWithoutNul(s[SegmentLength(s)..]);
      }
    }
  }

  lemma {:induction false} AllTokensWithoutNul(paths: seq<string>)
    requires forall j :: 0 <= j < |paths| ==> NUL !in paths[j]
    ensures forall i :: 0 <= i < |AllTokens(paths)| ==> NUL !in AllTokens(paths)[i]
  {
    if paths != [] {
      TokensWithoutNul(paths[0]);
      AllTokensWithoutNul(paths[1..]);
    }
  }

  ghost predicate WithoutNul(n: Norm) {
    (n.root.Drive? ==> n.root.letter != NUL) && forall i :: 0 <= i < |n.stack| ==> NUL !in n.stack[i]
  }

  lemma {:induction false} PushAllWithoutNul(n: Norm, segments: seq<string>)
    requires WithoutNul(n) && forall i :: 0 <= i < |segments| ==> NUL !in segments[i]
    ensures WithoutNul(PushAll(n, segments))
    decreases |segments|
  {
    if segments != [] {
      PushAllWithoutNul(Push(n, segments[0]), segments[1..]);
    }
  }

  lemma {:induction false} TextWithoutNul(root: Root, parts: seq<string>)
    requires (root.Drive? ==> root.letter != NUL) && forall i :: 0 <= i < |parts| ==> NUL !in parts[i]
    ensures NUL !in Text(root, parts)
  {
    if parts != [] {
      TextWithoutNul(root, parts[..|parts| - 1]);
    }
  }

  lemma JoinWithoutNul(paths: seq<string>)
    requires forall j :: 0 <= j < |paths| ==> NUL !in paths[j]
    ensures NUL !in PathSpec.Join(paths)
  {
    AllTokensWithoutNul(paths);
    PushAllWithoutNul(EMPTY, Segments(paths));
    var n := PushAll(EMPTY, Segments(paths));
    TextWithoutNul(n.root, Parts(n));
  }

  // ---------- the uses

  /** NQPath_join: lines 243-252. The block at `buf` has exactly the size the dry run asked for. */
  method PathJoinExact(mem: array<char>, paths: seq<nat>, buf: nat, ghost strs: seq<string>) returns (length: nat)
    requires |paths| == |strs| && forall j :: 0 <= j < |paths| ==> CString(mem[..], paths[j], strs[j])
    requires buf + DryJoin(strs) <= mem.Length && Apart(paths, strs, buf, DryJoin(strs))
    modifies mem
    ensures length == |PathSpec.Join(strs)| && buf + length <= mem.Length && mem[buf..buf + length] == PathSpec.Join(strs)
  {
    hide CString, DryJoin, PathSpec.Join, Apart;
    length := JoinPath(mem, paths, true, 0, 0, strs);
    length := JoinPath(mem, paths, false, buf, length, strs);
  }

  const MAX_CAPACITY := 0xFFFF

  /** pathBuilderExpandCapacity: lines 303-306. */
  function NewCapacity(capacity: nat, needed: nat): (r: nat)
    ensures r > capacity && r >= needed
  {
    var grown := capacity + capacity / 4 + 1;
    if needed > grown then needed else grown
  }

  /** A builder grows by more than a quarter, and by no more than that unless it needs it. */
  predicate GrowsByQuarter(before: nat, needed: nat, after: nat) {
    4 * after > 5 * before && after >= needed && (after == needed || 4 * after <= 5 * before + 4)
  }

  /** struct NQPathBuilder: `characters` is where its text is, with room for `capacity` characters. */
  class Builder {
    const mem: array<char>
    var characters: nat
    var length: nat
    var capacity: nat

    constructor (mem: array<char>, buffer: nat)
      requires buffer + 80 <= mem.Length
      modifies mem
      ensures this.mem == mem && Holds("") && capacity == 80 && characters == buffer
    {
      this.mem := mem;
      characters, length, capacity := buffer, 0, 80;
      new;
      mem[buffer] := NUL;
    }

    ghost predicate Holds(text: string)
      reads this, mem
    {
      && length == |text| < capacity && characters + capacity <= mem.Length
      && CString(mem[..], characters, text)
    }

    /** pathBuilderJoin: lines 324-336. `block` is where the allocator would put the new text. The join is
        made in place, from the builder's own text and the strings at `paths`. */
    method JoinPaths(paths: seq<nat>, block: nat, ghost text: string, ghost strs: seq<string>) returns (ok: bool)
      requires Holds(text) && |paths| == |strs| && forall j :: 0 <= j < |paths| ==> CString(mem[..], paths[j], strs[j])
      requires var size := NewCapacity(capacity, DryJoin([text] + strs) + 1);
        && block + size <= mem.Length
        && (characters + capacity <= block || block + size <= characters)
        && forall j :: 0 <= j < |paths| ==> paths[j] + |strs[j]| < block || block + size <= paths[j]
      modifies this, mem
      ensures ok <==> NewCapacity(old(capacity), DryJoin([text] + strs) + 1) <= 65535
      ensures ok ==> Holds(PathSpec.Join([text] + strs)) && capacity == NewCapacity(old(capacity), DryJoin([text] + strs) + 1)
      ensures ok ==> GrowsByQuarter(old(capacity), DryJoin([text] + strs) + 1, capacity)
      ensures !ok ==> Holds(text) && capacity == old(capacity)
    {
      hide PathSpec.Join, DryJoin, CString, Apart;
      ghost var all := [text] + strs;
      var own := [characters] + paths;
      OwnStrings(mem[..], characters, paths, text, strs);
      var needed := JoinPath(mem, own, true, 0, 0, all);
      ghost var m0 := mem[..];
      var size := NewCapacity(capacity, needed + 1);
      if MAX_CAPACITY < size {
        return false;
      }
      CopyBlock(block, text);
      KeptStrings(m0, mem[..], block, block + size, paths, strs);
      characters, capacity := block, size;
      own := [characters] + paths;
      OwnStrings(mem[..], characters, paths, text, strs);
      length := JoinInPlace(mem, own, block, needed + 1, all);
      ok := true;
    }

    /** memcpy of the text and its NUL into the new block. */
    method CopyBlock(block: nat, ghost text: string)
      requires Holds(text) && block + length + 1 <= mem.Length
      requires characters + length < block || block + length < characters
      modifies mem
      ensures CString(mem[..], block, text)
      ensures forall i :: 0 <= i < mem.Length && !(block <= i <= block + length) ==> mem[i] == old(mem[i])
    {
      var from, n := characters, length + 1;
      assert forall i :: 0 <= i < length ==> mem[..][from + i] == text[i];
      forall i | 0 <= i < n {
        mem[block + i] := mem[from + i];
      }
      assert mem[..][block..block + length] == text;
    }
  }

  lemma OwnStrings(m: seq<char>, p: nat, paths: seq<nat>, text: string, strs: seq<string>)
    requires CString(m, p, text) && |paths| == |strs| && forall j :: 0 <= j < |paths| ==> CString(m, paths[j], strs[j])
    ensures forall j :: 0 <= j < |[p] + paths| ==> CString(m, ([p] + paths)[j], ([text] + strs)[j])
  {
  }

  lemma KeptStrings(m: seq<char>, m': seq<char>, a: nat, b: nat, paths: seq<nat>, strs: seq<string>)
    requires |m| == |m'| && forall i :: 0 <= i < |m| && !(a <= i < b) ==> m'[i] == m[i]
    requires |paths| == |strs| && forall j :: 0 <= j < |paths| ==> CString(m, paths[j], strs[j])
    requires forall j :: 0 <= j < |paths| ==> paths[j] + |strs[j]| < a || b <= paths[j]
    ensures forall j :: 0 <= j < |paths| ==> CString(m', paths[j], strs[j])
  {
    forall j | 0 <= j < |paths| ensures CString(m', paths[j], strs[j]) {
      CStringFrame(m, m', a, b, paths[j], strs[j]);
    }
  }

  /** The second call of NQPathJoin: the first path is the buffer itself. */
  method JoinInPlace(mem: array<char>, paths: seq<nat>, buf: nat, len: nat, ghost strs: seq<string>) returns (length: nat)
    requires |paths| == |strs| > 0 && paths[0] == buf && buf + len <= mem.Length && len == DryJoin(strs) + 1
    requires forall j :: 0 <= j < |paths| ==> CString(mem[..], paths[j], strs[j])
    requires forall j :: 1 <= j < |paths| ==> paths[j] + |strs[j]| < buf || buf + len <= paths[j]
    modifies mem
    ensures length == |PathSpec.Join(strs)| < len && CString(mem[..], buf, PathSpec.Join(strs))
  {
    StringsAreStrings(mem[..], paths, strs);
    JoinWithoutNul(strs);
    hide PathSpec.Join, DryJoin, CString;
    DryJoinCovers(strs, 0);
    length := JoinPath(mem, paths, false, buf, len, strs);
    assert mem[..][buf..buf + length] == PathSpec.Join(strs);
    IsCString(mem[..], buf, PathSpec.Join(strs));
  }

  lemma StringsAreStrings(m: seq<char>, paths: seq<nat>, strs: seq<string>)
    requires |paths| == |strs| && forall j :: 0 <= j < |paths| ==> CString(m, paths[j], strs[j])
    ensures forall j :: 0 <= j < |strs| ==> NUL !in strs[j]
  {
    forall j | 0 <= j < |strs| ensures NUL !in strs[j] {
      assert CString(m, paths[j], strs[j]);
    }
  }

  lemma IsCString(m: seq<char>, p: nat, s: string)
    requires p + |s| < |m| && m[p..p + |s|] == s && m[p + |s|] == NUL && NUL !in s
    ensures CString(m, p, s)
  {
  }

  // ---------- how often a builder can be joined

  /** The least capacity after `k` successful joins: each one asks for a quarter more, whether it needs it
      or not. */
  function LeastCapacity(k: nat): nat {
    if k == 0 then 80 else NewCapacity(LeastCapacity(k - 1), 0)
  }

  lemma {:induction false} CapacityGrows(sizes: seq<nat>, needs: seq<nat>)
    requires |sizes| == |needs| + 1 && sizes[0] == 80
    requires forall k :: 0 <= k < |needs| ==> sizes[k + 1] == NewCapacity(sizes[k], needs[k])
    ensures LeastCapacity(|needs|) <= sizes[|needs|]
  {
    if needs != [] {
      var k := |needs| - 1;
      CapacityGrows(sizes[..k + 1], needs[..k]);
    }
  }

  lemma LeastStart()
    ensures LeastCapacity(0) == 80
  {
  }

  lemma FiveJoins(k: nat, c0: nat, c1: nat, c2: nat, c3: nat, c4: nat, c5: nat)
    requires LeastCapacity(k) == c0
    requires c1 == c0 + c0 / 4 + 1 && c2 == c1 + c1 / 4 + 1 && c3 == c2 + c2 / 4 + 1 && c4 == c3 + c3 / 4 + 1 && c5 == c4 + c4 / 4 + 1
    ensures LeastCapacity(k + 5) == c5
  {
    assert LeastCapacity(k + 1) == c1;
    assert LeastCapacity(k + 2) == c2;
    assert LeastCapacity(k + 3) == c3;
    assert LeastCapacity(k + 4) == c4;
  }

  /** However short its text stays, a builder that is not cleared accepts at most 29 joins: the 30th asks
      for more than 65535 characters. */
  lemma ThirtiethJoinRefused(sizes: seq<nat>, needs: seq<nat>)
    requires |sizes| == 31 && |needs| == 30 && sizes[0] == 80
    requires forall k :: 0 <= k < |needs| ==> sizes[k + 1] == NewCapacity(sizes[k], needs[k])
    ensures sizes[30] > 65535
  {
    hide LeastCapacity;
    CapacityGrows(sizes, needs);
    LeastStart();
    FiveJoins(0, 80, 101, 127, 159, 199, 249);
    FiveJoins(5, 249, 312, 391, 489, 612, 766);
    FiveJoins(10, 766, 958, 1198, 1498, 1873, 2342);
    FiveJoins(15, 2342, 2928, 3661, 4577, 5722, 7153);
    FiveJoins(20, 7153, 8942, 11178, 13973, 17467, 21834);
    FiveJoins(25, 21834, 27293, 34117, 42647, 53309, 66637);
  }
}