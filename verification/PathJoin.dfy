/** libnetq/fs/Path.c: the reader and the writer over one flat memory, so that the output buffer may be
    the very string that is being read. */
module PathJoin {
  import opened Words
  import opened PathSpec
  import opened PathNormal
  import opened PathDryRun

  /** Where a segment's characters are: the constant "/" or memory. */
  datatype Source = Slash | At(offset: nat)

  /** A NUL-terminated string `s` at offset `p`. */
  ghost predicate CString(m: seq<char>, p: nat, s: string) {
    p + |s| < |m| && m[p..p + |s|] == s && m[p + |s|] == NUL && NUL !in s
  }

  /** What `first` keeps of the text: enough to recognise the bare roots. A first segment of three or more
      characters may leave anything there, because it is read back after memmove has moved it. */
  ghost predicate FirstOk(text: string, first0: char, first1: char) {
    text == "" || if text[0] == '/' then first0 == '/' else
      (SegmentLength(text) == 1 ==> first0 == text[0])
      && (SegmentLength(text) == 2 ==> first0 == text[0] && first1 == text[1])
  }

  lemma FirstOkAppend(text: string, s: string, first0: char, first1: char)
    requires FirstOk(text, first0, first1) && text != "" && Clean(s)
    ensures FirstOk(Append(text, s), first0, first1)
    ensures |text| == 1 ==> FirstOk(Append(text, s), first0, '/')
  {
    if text[0] != '/' {
      SegmentLengthSplit(text, '/', s);
      assert Append(text, s) == text + ['/'] + s;
    }
  }

  lemma AppendParts(text: string, s: string)
    ensures Append(text, s) == Append(text, "") + s
    ensures |text| <= |Append(text, "")| <= |text| + 1
    ensures text == "" ==> Append(text, "") == ""
    ensures text != "" && text != "/" ==> |Append(text, "")| == |text| + 1
  {
  }

  /** The first characters after a segment was written: `f0`, `f1` before, `g0`, `g1` after, `c0` and `c1`
      what was found at the segment's old place. */
  lemma NotedFirst(text: string, s: string, f0: char, f1: char, g0: char, g1: char, c0: char, c1: char)
    requires FirstOk(text, f0, f1) && Clean(s)
    requires |s| <= 2 && text == "" ==> c0 == s[0] && (|s| == 2 ==> c1 == s[1])
    requires text == "" ==> g0 == c0 && (|s| == 2 ==> g1 == c1)
    requires text != "" ==> g0 == f0
    requires text != "" && text != "/" ==> g1 == f1 || (|text| == 1 && g1 == '/')
    ensures FirstOk(Append(text, s), g0, g1)
  {
    if text == "" {
      TokensOfClean(s);
    } else {
      FirstOkAppend(text, s, f0, f1);
    }
  }

  /** Taking the last segment away leaves a start that `first` still matches. */
  lemma FirstOkTake(text: string, s: string, first0: char, first1: char)
    requires FirstOk(Append(text, s), first0, first1)
    ensures FirstOk(text, first0, first1)
  {
    if text != "" && text[0] != '/' {
      SegmentLengthSplit(text, '/', s);
      assert Append(text, s) == text + ['/'] + s;
    }
  }

  lemma NormTidy(n: Norm)
    requires Normal(n)
    ensures Tidy(Render(n))
  {
    PartsClean(n);
    TextTidy(n.root, Parts(n));
  }

  lemma RenderName(n: Norm, s: string)
    requires Normal(n) && Name(s)
    ensures Render(Push(n, s)) == Append(Render(n), s)
  {
    if n == EMPTY && DriveLike(s) {
      assert Render(Push(n, s)) == s;
    } else {
      RenderPush(n, s);
    }
  }

  lemma LoneSlash(text: string, first0: char, first1: char)
    requires Tidy(text) && FirstOk(text, first0, first1)
    ensures PosixRoot(|text|, first0) <==> text == "/"
  {
    if |text| == 1 {
      assert text[1..] == "";
    }
  }

  /** The tests on `first` see what they should. */
  lemma RootTests(n: Norm, first0: char, first1: char)
    requires Normal(n) && FirstOk(Render(n), first0, first1)
    ensures PosixRoot(|Render(n)|, first0) <==> n == Norm(Posix, 0, [])
    ensures DriveRoot(|Render(n)|, first0, first1) <==> n.root.Drive? && n.stack == []
  {
    var text := Render(n);
    PartsClean(n);
    TextTidy(n.root, Parts(n));
    RootsByText(n);
    if |text| == 1 {
      assert text[1..] == "";
    } else if |text| == 2 {
      assert text[1..][1..] == "";
    }
  }

  /** struct PathWrite. With `dry` the buffer pointer is NULL and start, position and end are all equal. */
  class PathWrite {
    const mem: array<char>
    const dry: bool
    const start: nat
    const end: nat
    var position: nat
    var first0: char
    var first1: char
    var length: nat
    var segmentCount: nat

    /** pathWriteInit: with `dry` there is no buffer. */
    constructor (mem: array<char>, dry: bool, buf: nat, len: nat)
      requires !dry ==> buf + len <= mem.Length
      ensures this.mem == mem && this.dry == dry && segmentCount == 0 && length == 0
      ensures !dry ==> Written("") && start == buf && end == buf + len
      ensures dry ==> Dried() && Counters() == START
    {
      this.mem := mem;
      this.dry := dry;
      start := if dry then 0 else buf;
      position := if dry then 0 else buf;
      end := if dry then 0 else buf + len;
      first0, first1 := '\0', '\0';
      length := 0;
      segmentCount := 0;
    }

    ghost function Counters(): Dry
      reads this
    {
      Dry(length, segmentCount, first0, first1)
    }

    /** The buffer holds `text` so far. */
    ghost predicate Written(text: string)
      reads this, mem
    {
      && !dry && start <= position <= end <= mem.Length
      && mem[start..position] == text && length == |text|
      && FirstOk(text, first0, first1)
    }

    ghost predicate Dried()
      reads this
    {
      dry && start == position == end
    }

    method Put(c: char)
      requires Dried() || (!dry && start <= position < end <= mem.Length)
      modifies this`position, mem
      ensures dry ==> mem[..] == old(mem[..]) && position == old(position)
      ensures !dry ==> position == old(position) + 1 && mem[..] == old(mem[..])[old(position) := c]
    {
      if position < end {
        mem[position] := c;
        position := position + 1;
      }
    }

    function Char(segment: Source, k: nat): char
      requires segment.At? ==> segment.offset + k < mem.Length
      reads mem
    {
      if segment.Slash? then '/' else mem[segment.offset + k]
    }

    /** memmove of the segment to the writer's position: lines 112-116. */
    method Copy(segment: Source, count: nat)
      requires segment.Slash? ==> count == 1
      requires segment.At? ==> segment.offset + count <= mem.Length
      requires Dried() || (!dry && start <= position && position + count <= end <= mem.Length)
      modifies this`position, mem
      ensures dry ==> mem[..] == old(mem[..]) && position == old(position)
      ensures !dry ==>
        && position == old(position) + count
        && (forall i :: 0 <= i < count ==> mem[old(position) + i] == old(Char(segment, i)))
        && (forall i :: 0 <= i < mem.Length && !(old(position) <= i < position) ==> mem[i] == old(mem[i]))
    {
      var n := if count < end - position then count else end - position;
      if n != 0 {
        if segment.Slash? {
          mem[position] := '/';
        } else {
          var at, from := position, segment.offset;
          forall i | 0 <= i < n {
            mem[at + i] := mem[from + i];
          }
        }
        position := position + n;
      }
    }

    /** The segment's characters are `s`. */
    ghost predicate Holds(segment: Source, s: string)
      reads mem
    {
      match segment
      case Slash => s == "/"
      case At(offset) => offset + |s| <= mem.Length && mem[offset..offset + |s|] == s
    }

    /** Writing behind `text` does not reach the segment before it is copied: it lies outside the buffer,
        or at least one separator further on when one is to be written, or two characters further on
        when all text so far has been dropped. */
    ghost predicate OutOfTheWay(segment: Source, s: string, text: string)
      reads mem
    {
      match segment
      case Slash => true
      case At(offset) =>
        || offset + |s| <= start || end <= offset
        || (start + |Append(text, "")| <= offset && (text == "" ==> offset == start || start + 2 <= offset))
    }

    method NoteSeparator()
      modifies this`first0, this`first1, this`length
      ensures Counters() == Note(old(Counters()), old(length), '/').(length := old(length) + 1)
    {
      if length == 0 { first0 := '/'; } else if length == 1 { first1 := '/'; }
      length := length + 1;
    }

    /** Lines 118-124. */
    method NoteSegment(segment: Source, len: nat)
      requires len > 0 && (segment.Slash? ==> len == 1) && (segment.At? ==> segment.offset + len <= mem.Length)
      modifies this`first0, this`first1, this`length
      ensures length == old(length) + len
      ensures first0 == if old(length) == 0 then Char(segment, 0) else old(first0)
      ensures first1 == if old(length) == 1 then Char(segment, 0)
                        else if old(length) == 0 && 2 <= len then Char(segment, 1) else old(first1)
    {
      if length == 0 {
        first0 := Char(segment, 0);
        if 2 <= len { first1 := Char(segment, 1); }
      } else if length == 1 {
        first1 := Char(segment, 0);
      }
      length := length + len;
    }

    /** The separator of lines 104-110. */
    method WriteSeparator(ghost text: string)
      requires Dried() || (Written(text) && Tidy(text) && start + |Append(text, "")| <= end)
      modifies this`position, this`first0, this`first1, this`length, mem
      ensures dry ==> Dried() && mem[..] == old(mem[..])
      ensures dry ==> Counters() == if old(length) > 0 && !PosixRoot(old(length), old(first0))
        then Note(old(Counters()), old(length), '/').(length := old(length) + 1) else old(Counters())
      ensures !dry ==> start <= position <= end <= mem.Length && mem[start..position] == Append(text, "") && length == |Append(text, "")|
      ensures !dry ==> first0 == old(first0) && (first1 == old(first1) || (first1 == '/' && |text| == 1 && text != "/"))
      ensures forall i :: 0 <= i < mem.Length && !(old(position) <= i < position) ==> mem[i] == old(mem[i])
    {
      if !dry { LoneSlash(text, first0, first1); }
      if length > 0 && !PosixRoot(length, first0) {
        ghost var before := mem[..];
        Put('/');
        NoteSeparator();
        if !dry {
          assert mem[start..position] == before[start..position - 1] + ['/'];
        }
      }
    }

    /** The copy in terms of texts; short segments further on, or already in place, are left intact. */
    method CopyText(segment: Source, len: nat, ghost s: string)
      requires |s| == len > 0 && Holds(segment, s)
      requires Dried() || (!dry && start <= position && position + len <= end <= mem.Length)
      modifies this`position, mem
      ensures dry ==> position == old(position) && mem[..] == old(mem[..])
      ensures !dry ==> start <= position <= end && mem[start..position] == old(mem[start..position]) + s
      ensures forall i :: 0 <= i < mem.Length && !(old(position) <= i < position) ==> mem[i] == old(mem[i])
      ensures (dry || segment.Slash? || segment.offset == old(position) || segment.offset >= old(position) + len
               || segment.offset + len <= old(position)) ==> Holds(segment, s)
    {
      ghost var from, before := position, mem[..];
      CharsHeld(segment, s);
      hide Char;
      Copy(segment, len);
      if !dry {
        ghost var m := mem[..];
        assert forall i :: 0 <= i < len ==> m[from + i] == s[i];
        assert forall i :: 0 <= i < |m| && !(from <= i < from + len) ==> m[i] == before[i];
        TextCopied(before, m, start, from, s);
        if segment.At? && (segment.offset == from || segment.offset >= from + len || segment.offset + len <= from) {
          Undisturbed(before, m, segment.offset, from, s);
        }
      }
    }

    lemma CharsHeld(segment: Source, s: string)
      requires Holds(segment, s)
      ensures segment.At? ==> segment.offset + |s| <= mem.Length
      ensures forall i :: 0 <= i < |s| ==> Char(segment, i) == s[i]
    {
    }

    static lemma TextCopied(before: seq<char>, m: seq<char>, start: nat, from: nat, s: string)
      requires |m| == |before| && start <= from && from + |s| <= |m|
      requires forall i :: 0 <= i < |s| ==> m[from + i] == s[i]
      requires forall i :: 0 <= i < |m| && !(from <= i < from + |s|) ==> m[i] == before[i]
      ensures m[start..from + |s|] == before[start..from] + s
    {
      assert m[from..from + |s|] == s;
      assert m[start..from] == before[start..from];
    }

    static lemma Undisturbed(before: seq<char>, m: seq<char>, o: nat, from: nat, s: string)
      requires |m| == |before| && o + |s| <= |m| && from + |s| <= |m| && before[o..o + |s|] == s
      requires forall i :: 0 <= i < |s| ==> m[from + i] == s[i]
      requires forall i :: 0 <= i < |m| && !(from <= i < from + |s|) ==> m[i] == before[i]
      requires o == from || o >= from + |s| || o + |s| <= from
      ensures m[o..o + |s|] == s
    {
      if o != from { assert m[o..o + |s|] == before[o..o + |s|]; }
    }

    lemma HoldsChars(segment: Source, s: string)
      requires s != "" && Holds(segment, s)
      ensures Char(segment, 0) == s[0] && (|s| > 1 ==> segment.At? && Char(segment, 1) == s[1])
    {
      if segment.At? { assert mem[segment.offset..segment.offset + |s|] == s; }
    }

    /** Lines 104-124: a separator where one is needed, then the segment. */
    method WriteOut(segment: Source, len: nat, ghost text: string, ghost s: string)
      requires |s| == len > 0 && Holds(segment, s) && Clean(s)
      requires Dried() || (Written(text) && Tidy(text) && start + |Append(text, s)| <= end && OutOfTheWay(segment, s, text))
      modifies this`position, this`first0, this`first1, this`length, mem
      ensures dry ==> Dried() && Counters() == Count(old(Counters()), s) && mem[..] == old(mem[..])
      ensures !dry ==> Written(Append(text, s))
      ensures forall i :: 0 <= i < mem.Length && !(old(position) <= i < position) ==> mem[i] == old(mem[i])
    {
      hide Append, FirstOk, Tidy, SegmentLength, Char;
      AppendParts(text, s);
      WriteSeparator(text);
      assert !dry ==> |mem[start..position]| == |Append(text, "")|;
      assert old(position) <= position;
      assert segment.At? ==> mem[segment.offset..segment.offset + len] == old(mem[segment.offset..segment.offset + len]);
      assert s != "";
      hide Clean;
      assert !dry ==> position + len <= end;
      if !dry && text == "" {
        assert position == start;
        assert segment.At? && len <= 2 ==>
          segment.offset == position || segment.offset >= position + len || segment.offset + len <= position;
      }
      CopyText(segment, len, s);
      assert text == "" && len <= 2 ==> Holds(segment, s);
      ghost var c0, c1 := Char(segment, 0), if len > 1 then Char(segment, 1) else NUL;
      if Holds(segment, s) { HoldsChars(segment, s); }
      NoteSegment(segment, len);
      if !dry {
        NotedFirst(text, s, old(first0), old(first1), first0, first1, c0, c1);
      }
    }

    /** Lines 85-92: back to the last separator, which is kept only where it is the root. */
    method TakeBack(ghost text: string, ghost last: string)
      requires Written(Append(text, last)) && Clean(last)
      modifies this`position, this`length
      ensures Written(text)
    {
      ghost var from, u := position, Append(text, last);
      ghost var at := |Append(text, "")|;
      AppendParts(text, last);
      assert forall i :: start <= i < from ==> mem[i] == u[i - start];
      while start < position
        invariant start + at <= position <= from
        decreases position
      {
        position := position - 1;
        if mem[position] == '/' {
          if start == position {
            position := position + 1;
          }
          break;
        }
      }
      length := position - start;
      assert mem[start..position] == text;
      FirstOkTake(text, last, first0, first1);
    }

    /** The real run has built `n`. */
    ghost predicate Built(n: Norm)
      reads this, mem
    {
      Written(Render(n)) && segmentCount == |n.stack| && Normal(n)
    }

    /** Lines 69-75. */
    method PushRoot(ghost n: Norm, ghost s: string)
      requires s == "/" && length == 0
      requires Dried() || (Built(n) && start < end)
      modifies this`position, this`first0, this`length, mem
      ensures dry ==> Dried() && Counters() == DryPush(old(Counters()), s) && mem[..] == old(mem[..])
      ensures !dry ==> Built(PathSpec.Push(n, s))
      ensures forall i :: 0 <= i < mem.Length && !(start <= i < position) ==> mem[i] == old(mem[i])
    {
      if !dry { RootsByText(n); }
      Put('/');
      first0 := '/';
      length := length + 1;
      assert !dry ==> mem[start..position] == "/";
    }

    /** Lines 80-99, and what follows when the segment is ".." and has to be written. */
    method PushUp(segment: Source, ghost n: Norm)
      requires segment.At? && Holds(segment, "..")
      requires Dried() || (Built(n) && start + |Render(PathSpec.Push(n, ".."))| <= end && OutOfTheWay(segment, "..", Render(n)))
      modifies this`position, this`first0, this`first1, this`length, this`segmentCount, mem
      ensures dry ==> Dried() && Counters() == DryPush(old(Counters()), "..") && mem[..] == old(mem[..])
      ensures !dry ==> Built(PathSpec.Push(n, ".."))
      ensures forall i :: 0 <= i < mem.Length && !(start <= i < position) ==> mem[i] == old(mem[i])
    {
      hide Render, SegmentLength, Append, FirstOk, Tidy;
      if !dry {
        RootTests(n, first0, first1);
        NormTidy(n);
        PushNormal(n, "..");
      }
      if segmentCount != 0 {
        segmentCount := segmentCount - 1;
        if dry {
          return;
        }
        RenderPop(n);
        TakeBack(Render(PathSpec.Push(n, "..")), n.stack[|n.stack| - 1]);
        return;
      } else if PosixRoot(length, first0) {
        return;
      } else if DriveRoot(length, first0, first1) {
        return;
      }
      if !dry { RenderUp(n); }
      WriteOut(segment, 2, if dry then "" else Render(n), "..");
    }

    /** Lines 100-124 for an ordinary name. */
    method PushName(segment: Source, len: nat, ghost n: Norm, ghost s: string)
      requires segment.At? && |s| == len && Holds(segment, s) && Name(s)
      requires Dried() || (Built(n) && start + |Render(PathSpec.Push(n, s))| <= end && OutOfTheWay(segment, s, Render(n)))
      modifies this`position, this`first0, this`first1, this`length, this`segmentCount, mem
      ensures dry ==> Dried() && Counters() == DryPush(old(Counters()), s) && mem[..] == old(mem[..])
      ensures !dry ==> Built(PathSpec.Push(n, s))
      ensures forall i :: 0 <= i < mem.Length && !(start <= i < position) ==> mem[i] == old(mem[i])
    {
      hide Render, SegmentLength, Append, FirstOk, Tidy;
      assert len == 2 && Char(segment, 1) == ':' && IsAlpha(Char(segment, 0)) <==> DriveLike(s);
      if length != 0 || !(len == 2 && Char(segment, 1) == ':' && IsAlpha(Char(segment, 0))) {
        segmentCount := segmentCount + 1;
      }
      if !dry {
        RootsByText(n);
        NormTidy(n);
        PushNormal(n, s);
        RenderName(n, s);
      }
      WriteOut(segment, len, if dry then "" else Render(n), s);
    }

    /** pathWritePush: lines 62-125. Without a buffer it counts, with one it keeps the text of a stack. */
    method Push(segment: Source, len: nat, ghost n: Norm, ghost s: string)
      requires |s| == len && Holds(segment, s)
      requires if segment.Slash? then length == 0 else Clean(s)
      requires Dried() || (Built(n) && start + |Render(PathSpec.Push(n, s))| <= end && OutOfTheWay(segment, s, Render(n)))
      modifies this`position, this`first0, this`first1, this`length, this`segmentCount, mem
      ensures s != "" && (dry ==> Dried() && Counters() == DryPush(old(Counters()), s) && mem[..] == old(mem[..]))
      ensures !dry ==> Built(PathSpec.Push(n, s))
      ensures forall i :: 0 <= i < mem.Length && !(start <= i < position) ==> mem[i] == old(mem[i])
    {
      hide Render, SegmentLength, Append, Tidy, FirstOk, DryPush, PathSpec.Push;
      CharsOf(segment, s);
      if len == 1 {
        if Char(segment, 0) == '.' {
          assert s == ".";
          PushDot(n, Counters());
          return;
        }
        if length == 0 && Char(segment, 0) == '/' {
          assert s == "/";
          if !dry { RootFits(n); }
          PushRoot(n, s);
          return;
        }
      }
      assert Clean(s) && s != ".";
      if len == 2 && Char(segment, 0) == '.' && Char(segment, 1) == '.' {
        assert s == "..";
        PushUp(segment, n);
      } else {
        assert s != "..";
        PushName(segment, len, n, s);
      }
    }

    lemma CharsOf(segment: Source, s: string)
      requires Holds(segment, s)
      ensures segment.At? ==> segment.offset + |s| <= mem.Length
      ensures forall k :: 0 <= k < |s| ==> Char(segment, k) == s[k]
    {
    }

    /** pathWriteFinish: lines 127-145. */
    method Finish(ghost n: Norm) returns (result: nat)
      requires Dried() || (Built(n) && start + |PathSpec.Finish(n)| <= end)
      modifies this`position, this`length, mem
      ensures dry ==> result == DryFinish(old(Counters())) && mem[..] == old(mem[..])
      ensures !dry ==> result == |PathSpec.Finish(n)| && start + result <= end <= mem.Length
      ensures !dry ==> mem[start..start + result] == PathSpec.Finish(n)
      ensures !dry && start + result < end ==> mem[start + result] == NUL
      ensures forall i :: 0 <= i < mem.Length && !(start <= i < end) ==> mem[i] == old(mem[i])
    {
      if !dry {
        RootsByText(n);
        RootTests(n, first0, first1);
      }
      ghost var before := if dry then [] else mem[start..position];
      if length == 0 {
        Put('.');
        length := length + 1;
      } else if DriveRoot(length, first0, first1) {
        Put('/');
        length := length + 1;
      }
      assert !dry ==> before <= mem[start..position];
      assert !dry ==> mem[start..position] == PathSpec.Finish(n);
      if position < end {
        mem[position] := NUL;
      }
      assert !dry ==> mem[start..position] == PathSpec.Finish(n);
      result := length;
    }
  }

  lemma PushDot(n: Norm, d: Dry)
    ensures Push(n, ".") == n && DryPush(d, ".") == d
  {
  }

  lemma RootFits(n: Norm)
    requires Normal(n) && |Render(n)| == 0
    ensures |Render(Push(n, "/"))| == 1
  {
    RootsByText(n);
  }

  // ---------- the reader

  /** What is still to be delivered when the characters `rest` are still unread and nothing has been
      delivered yet (`fresh`) or something has. */
  function Pending(rest: seq<string>, begun: bool): seq<string> {
    if begun then AllTokens(rest) else Segments(rest)
  }

  /** struct PathRead; the terminating NULL of the array of paths is its length. */
  class PathRead {
    const mem: array<char>
    const paths: seq<nat>
    var curr: nat
    var pos: Option<nat>
    var count: nat

    constructor (mem: array<char>, paths: seq<nat>)
      ensures this.mem == mem && this.paths == paths && curr == 0 && pos == None && count == 0
    {
      this.mem := mem;
      this.paths := paths;
      curr, pos, count := 0, None, 0;
    }

    /** The paths from index `from` on are `later`. */
    ghost predicate Later(from: nat, later: seq<string>)
      reads mem
    {
      from + |later| == |paths| && forall j :: 0 <= j < |later| ==> CString(mem[..], paths[from + j], later[j])
    }

    /** The reader stands inside a path whose rest is `s`. */
    ghost predicate Inside(s: string, later: seq<string>)
      reads this, mem
    {
      pos.Some? && curr < |paths| && CString(mem[..], pos.value, s) && Later(curr + 1, later)
    }

    ghost predicate Between(later: seq<string>)
      reads this, mem
    {
      pos.None? && Later(curr, later)
    }

    /** What is unread: the rest of the current path, if the reader is inside one, and the others. */
    ghost predicate Unread(rest: seq<string>)
      reads this, mem
    {
      if pos.None? then Between(rest) else rest != [] && Inside(rest[0], rest[1..])
    }

    /** Lines 176-183: over the separators; the very first one is delivered as the root. */
    method SkipSeparators(ghost s: string, ghost later: seq<string>) returns (root: bool, ghost left: string)
      requires Inside(s, later)
      modifies this`pos, this`count
      ensures Inside(left, later) && Tokens(left) == Tokens(s)
      ensures root <==> old(count) == 0 && s != "" && IsSeparator(s[0])
      ensures count == if root then 1 else old(count)
      ensures !root ==> left == "" || !IsSeparator(left[0])
      ensures !root && (s == "" || !IsSeparator(s[0])) ==> left == s && pos == old(pos)
      ensures pos.value + |left| == old(pos.value) + |s|
      ensures |left| <= |s| && (s != "" && IsSeparator(s[0]) ==> |left| < |s|)
    {
      hide CString, Later, Tokens;
      left, root := s, false;
      Head(s);
      while mem[pos.value] != NUL && IsSeparator(mem[pos.value])
        invariant Inside(left, later) && Tokens(left) == Tokens(s) && count == old(count)
        invariant count == 0 || s == "" || !IsSeparator(s[0]) ==> left == s || count > 0
        invariant s == "" || !IsSeparator(s[0]) ==> left == s && pos == old(pos)
        invariant count == 0 ==> left == s
        invariant left == s || |left| < |s|
        invariant pos.value + |left| == old(pos.value) + |s|
        invariant pos.value < mem.Length && if left == "" then mem[pos.value] == NUL else mem[pos.value] == left[0] != NUL
        decreases |left|
      {
        Advance(left, 1);
        SkipOne(left);
        pos := Some(pos.value + 1);
        left := left[1..];
        Head(left);
        if count == 0 {
          count := count + 1;
          root := true;
          return;
        }
      }
    }

    lemma SkipOne(s: string)
      requires s != "" && IsSeparator(s[0])
      ensures Tokens(s) == Tokens(s[1..])
    {
    }

    /** The character at the reader's position. */
    lemma Head(s: string)
      requires pos.Some? && CString(mem[..], pos.value, s)
      ensures pos.value < mem.Length
      ensures if s == "" then mem[pos.value] == NUL else mem[pos.value] == s[0] != NUL
    {
    }

    lemma Advance(s: string, k: nat)
      requires pos.Some? && CString(mem[..], pos.value, s) && k <= |s|
      ensures CString(mem[..], pos.value + k, s[k..])
    {
    }

    /** Lines 186-191: one segment. */
    method TakeSegment(ghost s: string, ghost later: seq<string>) returns (start: nat, length: nat)
      requires Inside(s, later) && s != "" && !IsSeparator(s[0])
      modifies this`pos, this`count
      ensures length == SegmentLength(s) > 0 && Inside(s[length..], later) && count == old(count) + 1
      ensures start == old(pos.value) && pos == Some(start + length)
      ensures start + length <= mem.Length && mem[start..start + length] == s[..length] && Clean(s[..length])
    {
      hide CString, Later, SegmentLength, Clean;
      ghost var m := mem[..];
      ghost var r, k := s[1..], 1;
      start := pos.value;
      HeadAt(m, start, s);
      AdvanceAt(m, start, s);
      SegmentStep(s);
      pos := Some(pos.value + 1);
      HeadAt(m, start + 1, r);
      while mem[pos.value] != NUL && !IsSeparator(mem[pos.value])
        invariant k + |r| == |s| && r == s[k..] && pos == Some(start + k) && CString(m, start + k, r) && m == mem[..]
        invariant SegmentLength(s) == k + SegmentLength(r)
        invariant count == old(count) && curr == old(curr) && k > 0
        invariant start + k < |m| && if r == "" then m[start + k] == NUL else m[start + k] == r[0] != NUL
        decreases |r|
      {
        AdvanceAt(m, start + k, r);
        SegmentStep(r);
        DropOne(s, k);
        pos := Some(pos.value + 1);
        r, k := r[1..], k + 1;
        HeadAt(m, start + k, r);
      }
      SegmentEnds(r);
      length := pos.value - start;
      count := count + 1;
      PrefixAt(m, start, s, length);
      CleanPrefix(s);
    }

    static lemma HeadAt(m: seq<char>, p: nat, s: string)
      requires CString(m, p, s)
      ensures p < |m| && if s == "" then m[p] == NUL else m[p] == s[0] != NUL
    {
    }

    static lemma AdvanceAt(m: seq<char>, p: nat, s: string)
      requires CString(m, p, s) && s != ""
      ensures CString(m, p + 1, s[1..])
    {
    }

    static lemma PrefixAt(m: seq<char>, p: nat, s: string, k: nat)
      requires CString(m, p, s) && k <= |s|
      ensures p + k <= |m| && m[p..p + k] == s[..k]
    {
      assert m[p..p + |s|][..k] == m[p..p + k];
    }

    lemma DropOne(s: string, k: nat)
      requires k < |s|
      ensures s[k..][1..] == s[k + 1..]
    {
    }

    lemma CleanPrefix(s: string)
      requires s != "" && !IsSeparator(s[0])
      ensures Clean(s[..SegmentLength(s)]) && SegmentLength(s) > 0
    {
    }

    lemma SegmentStep(s: string)
      requires s != "" && !IsSeparator(s[0])
      ensures SegmentLength(s) == 1 + SegmentLength(s[1..])
    {
    }

    lemma SegmentEnds(s: string)
      requires s == "" || IsSeparator(s[0])
      ensures SegmentLength(s) == 0
    {
    }

    /** Where the unread characters of the current path begin. */
    function Here(): nat
      requires curr < |paths|
      reads this
    {
      if pos.Some? then pos.value else paths[curr]
    }

    /** Nothing of `rest` is left in the current path; on to the next. */
    lemma ExhaustedPath(later: seq<string>, begun: bool)
      ensures Pending([""] + later, begun) == Pending(later, begun)
    {
      assert ([""] + later)[1..] == later;
      assert AllTokens([""] + later) == [] + AllTokens(later);
      assert Rooted([""] + later) == Rooted(later);
    }

    /** Separators in front do not matter once something was delivered; before that the first is the root. */
    lemma PendingRoot(s: string, later: seq<string>)
      requires s != "" && IsSeparator(s[0])
      ensures Pending([s] + later, false) == ["/"] + AllTokens([s] + later)
    {
    }

    lemma PendingTokens(s: string, t: string, later: seq<string>, begun: bool)
      requires Tokens(s) == Tokens(t) && (begun || s == t)
      ensures Pending([s] + later, begun) == Pending([t] + later, begun)
      ensures AllTokens([s] + later) == AllTokens([t] + later)
    {
      assert ([s] + later)[1..] == later && ([t] + later)[1..] == later;
    }

    lemma PendingName(s: string, later: seq<string>, begun: bool)
      requires s != "" && !IsSeparator(s[0])
      ensures Pending([s] + later, begun) == [s[..SegmentLength(s)]] + Pending([s[SegmentLength(s)..]] + later, true)
    {
      hide SegmentLength, Tokens, AllTokens, Rooted;
      var n := SegmentLength(s);
      TokensStep(s);
      NotRooted(s, later);
      AllTokensFirst(s, later);
      AllTokensFirst(s[n..], later);
      assert [s[..n]] + Tokens(s[n..]) + AllTokens(later) == [s[..n]] + (Tokens(s[n..]) + AllTokens(later));
    }

    lemma NotRooted(s: string, later: seq<string>)
      requires s != "" && !IsSeparator(s[0])
      ensures !Rooted([s] + later)
    {
    }

    lemma AllTokensFirst(s: string, later: seq<string>)
      ensures AllTokens([s] + later) == Tokens(s) + AllTokens(later)
    {
      hide Tokens;
      assert ([s] + later)[1..] == later;
    }

    /** Lines 176-192 inside one path. */
    method NextInPath(ghost s: string, ghost later: seq<string>) returns (segment: Option<Source>, length: nat, ghost t: string)
      requires Inside(s, later)
      modifies this`pos, this`count
      ensures Inside(t, later) && pos.value + |t| == old(pos.value) + |s|
      ensures segment.None? ==> count == old(count) && Pending([s] + later, count > 0) == Pending(later, count > 0)
      ensures segment.Some? ==> count > 0
      ensures segment == Some(Slash) ==> length == 1 && old(count) == 0
      ensures segment == Some(Slash) ==> Pending([s] + later, false) == ["/"] + Pending([t] + later, true)
      ensures segment == Some(Slash) ==> old(pos.value) < pos.value
      ensures segment.Some? && segment.value.At? ==>
        var o := segment.value.offset;
        && length > 0 && pos.value == o + length <= mem.Length && Clean(mem[o..o + length])
        && Pending([s] + later, old(count) > 0) == [mem[o..o + length]] + Pending([t] + later, true)
        && (t == "" || IsSeparator(t[0]))
        && old(pos.value) <= o && (s != "" && IsSeparator(s[0]) ==> old(pos.value) < o && old(count) > 0)
        && (s == "" || !IsSeparator(s[0]) ==> o == old(pos.value))
    {
      hide CString, Later, Tokens, AllTokens, Rooted, SegmentLength, Clean;
      ghost var begun := count > 0;
      var root: bool;
      root, t := SkipSeparators(s, later);
      if root {
        PendingRoot(s, later);
        PendingTokens(s, t, later, true);
        return Some(Slash), 1, t;
      }
      PendingTokens(s, t, later, begun);
      HeadAt(mem[..], pos.value, t);
      if mem[pos.value] != NUL {
        PendingName(t, later, begun);
        EndsAtSeparator(t);
        var start: nat;
        ghost var u := t;
        start, length := TakeSegment(t, later);
        t := u[length..];
        return Some(At(start)), length, t;
      }
      ExhaustedPath(later, begun);
      segment, length := None, 0;
    }

    /** pathReadNext: lines 169-199. `rest` is what was unread, `left` what is left. */
    method Next(ghost rest: seq<string>) returns (segment: Option<Source>, length: nat, ghost left: seq<string>)
      requires Unread(rest)
      modifies this`curr, this`pos, this`count
      ensures Unread(left) && old(curr) <= curr
      ensures segment.None? ==> Pending(rest, old(count) > 0) == []
      ensures segment.Some? ==> count > 0 && curr < |paths| && pos.Some? && |rest| == |paths| - old(curr)
      ensures segment.Some? ==> left[1..] == rest[curr - old(curr) + 1..]
      ensures segment.Some? ==> Here() + |left[0]| == |rest[curr - old(curr)]| + (if curr == old(curr) then old(Here()) else paths[curr])
      ensures segment == Some(Slash) ==> length == 1 && old(count) == 0 && Pending(rest, false) == ["/"] + Pending(left, true)
      ensures segment == Some(Slash) ==> (if curr == old(curr) then old(Here()) else paths[curr]) < Here()
      ensures segment.Some? && segment.value.At? ==>
        var o := segment.value.offset;
        && length > 0 && o + length <= mem.Length && Here() == o + length && Clean(mem[o..o + length])
        && Pending(rest, old(count) > 0) == [mem[o..o + length]] + Pending(left, true)
        && (left[0] == "" || IsSeparator(left[0][0]))
        && (if curr == old(curr) then old(Here()) else paths[curr]) <= o
        && (curr == old(curr) && rest[0] != "" && IsSeparator(rest[0][0]) ==> old(Here()) < o && old(count) > 0)
        && (curr == old(curr) && (rest[0] == "" || !IsSeparator(rest[0][0])) ==> o == old(Here()))
    {
      hide CString, Later, Tokens, AllTokens, Rooted, Pending, Clean;
      left := rest;
      UnreadLength(rest);
      while curr < |paths|
        invariant Unread(left) && count == old(count) && old(curr) <= curr <= |paths|
        invariant |rest| == |paths| - old(curr) && left == rest[curr - old(curr)..]
        invariant (curr == old(curr) ==> pos == old(pos)) && (curr > old(curr) ==> pos.None?)
        invariant Pending(left, count > 0) == Pending(rest, count > 0)
        decreases |paths| - curr
      {
        UnreadLength(left);
        ghost var s, later := left[0], left[1..];
        assert left == [s] + later;
        assert later == rest[curr - old(curr) + 1..];
        if pos.None? {
          pos := Some(paths[curr]);
          OpenPath(s, later);
        }
        ghost var t: string;
        segment, length, t := NextInPath(s, later);
        if segment.Some? {
          left := [t] + later;
          assert left[1..] == later;
          return;
        }
        curr := curr + 1;
        pos := None;
        left := later;
      }
      NothingPending(count > 0);
      segment, length := None, 0;
    }

    lemma UnreadLength(rest: seq<string>)
      requires Unread(rest)
      ensures curr <= |paths| && |rest| == |paths| - curr
    {
    }

    lemma NothingPending(begun: bool)
      ensures Pending([], begun) == []
    {
    }

    lemma EndsAtSeparator(s: string)
      ensures s[SegmentLength(s)..] == "" || IsSeparator(s[SegmentLength(s)..][0])
    {
    }

    lemma OpenPath(s: string, later: seq<string>)
      requires curr < |paths| && pos == Some(paths[curr]) && Later(curr, [s] + later)
      ensures Inside(s, later)
    {
      assert ([s] + later)[0] == s;
      assert forall j :: 0 <= j < |later| ==> ([s] + later)[j + 1] == later[j];
    }
  }
}
