/** The dry run of libnetq/fs/Path.c: with no buffer the writer only counts, and it does not take back
    what ".." removes. Its count is enough for the real run, at every point of it. */
module PathDryRun {
  import opened PathSpec
  import opened PathNormal

  /** The writer's counters; `first0` and `first1` are the first two characters it has produced. */
  datatype Dry = Dry(length: nat, segmentCount: nat, first0: char, first1: char)

  predicate PosixRoot(length: nat, first0: char) {
    length == 1 && first0 == '/'
  }

  predicate DriveRoot(length: nat, first0: char, first1: char) {
    length == 2 && first1 == ':' && IsAlpha(first0)
  }

  /** The cells of ctx->first after `c` was produced at offset `at`. */
  function Note(d: Dry, at: nat, c: char): Dry {
    if at == 0 then d.(first0 := c) else if at == 1 then d.(first1 := c) else d
  }

  /** The last part of pathWritePush, lines 104-124: a separator if one is needed, then the segment. */
  function Count(d: Dry, s: string): Dry
    requires s != ""
  {
    var a := if d.length > 0 && !PosixRoot(d.length, d.first0) then Note(d, d.length, '/').(length := d.length + 1) else d;
    var b := Note(a, a.length, s[0]);
    var c := if a.length == 0 && |s| >= 2 then Note(b, 1, s[1]) else b;
    c.(length := a.length + |s|)
  }

  /** pathWritePush without a buffer. */
  function DryPush(d: Dry, s: string): Dry
    requires s != ""
  {
    if s == "." then d
    else if s == "/" && d.length == 0 then d.(first0 := '/', length := 1)
    else if s == ".." then
      if d.segmentCount != 0 then d.(segmentCount := d.segmentCount - 1)
      else if PosixRoot(d.length, d.first0) || DriveRoot(d.length, d.first0, d.first1) then d
      else Count(d, s)
    else if d.length != 0 || !DriveLike(s) then Count(d.(segmentCount := d.segmentCount + 1), s)
    else Count(d, s)
  }

  function DryPushAll(d: Dry, segments: seq<string>): Dry
    requires forall i :: 0 <= i < |segments| ==> segments[i] != ""
    decreases |segments|
  {
    if segments == [] then d else DryPushAll(DryPush(d, segments[0]), segments[1..])
  }

  function DryFinish(d: Dry): nat {
    if d.length == 0 then 1
    else if DriveRoot(d.length, d.first0, d.first1) then 3
    else d.length
  }

  ghost predicate Delivered(segments: seq<string>) {
    forall i :: 0 <= i < |segments| ==> Clean(segments[i]) || (segments[i] == "/" && i == 0)
  }

  /** How the counters relate to the path the real run has built by then. The two may count different
      segments: after a relative start was popped away the real run takes "C:" for a drive, the dry run
      for a name. */
  ghost predicate Covers(d: Dry, n: Norm) {
    && Normal(n)
    && |Render(n)| <= d.length
    && (d.length == 0 ==> n == EMPTY)
    && (PosixRoot(d.length, d.first0) ==> n == Norm(Posix, 0, []))
    && (DriveRoot(d.length, d.first0, d.first1) ==> n.root.Drive? && n.stack == [])
    && (n.root.Drive? ==> DriveRoot(d.length, d.first0, d.first1) || d.length >= 3)
    && (d.segmentCount == |n.stack| || (n.root.Drive? && d.segmentCount == |n.stack| + 1))
  }

  lemma RenderPush(n: Norm, s: string)
    requires Normal(n) && Name(s) && !(n == EMPTY && DriveLike(s))
    ensures Render(Push(n, s)) == Append(Render(n), s)
  {
    var m := Push(n, s);
    assert Parts(m) == Parts(n) + [s];
    assert Parts(m)[..|Parts(m)| - 1] == Parts(n);
  }

  lemma RenderPop(n: Norm)
    requires n.stack != []
    ensures Render(n) == Append(Render(Push(n, "..")), n.stack[|n.stack| - 1])
  {
    assert Parts(n)[..|Parts(n)| - 1] == Parts(Push(n, ".."));
  }

  lemma RenderUp(n: Norm)
    requires n.root == Relative && n.stack == []
    ensures Render(Push(n, "..")) == Append(Render(n), "..")
  {
    var m := Push(n, "..");
    assert Parts(m)[..|Parts(m)| - 1] == Parts(n);
  }

  /** The text that has been written last ends in a whole part, so it is no bare root. */
  lemma NoBareRoot(root: Root, front: string, last: string)
    requires Clean(last) && Tidy(front) && (front == "" <==> root == Relative) && (front == "" ==> !DriveLike(last))
    requires root.Drive? ==> |front| >= 2
    ensures var r := Append(front, last);
      && r != "" && r != "/" && !(|r| == 2 && DriveRoot(2, r[0], r[1])) && (root.Drive? ==> |r| >= 2)
  {
    hide Clean, Tidy;
    TidyAppend(front, last);
    var r := Append(front, last);
    if |r| == 2 && front == "/" {
      assert r[0] == '/';
    }
  }

  lemma {:induction false} DriveTextLong(root: Root, parts: seq<string>)
    requires root.Drive?
    ensures |Text(root, parts)| >= 2
    decreases |parts|
  {
    if parts != [] { DriveTextLong(root, parts[..|parts| - 1]); }
  }

  lemma RootsOfParts(n: Norm)
    requires Normal(n) && Parts(n) != []
    ensures var r := Render(n);
      && r != "" && r != "/" && !(|r| == 2 && DriveRoot(2, r[0], r[1])) && (n.root.Drive? ==> |r| >= 2)
  {
    hide Tidy, Clean, Append, DriveLike;
    PartsClean(n);
    var parts := Parts(n);
    var front, last := parts[..|parts| - 1], parts[|parts| - 1];
    if front != [] || n.root != Relative {
      var text := Text(n.root, front);
      TextHead(n.root, front);
      TextTidy(n.root, front);
      if n.root.Drive? { DriveTextLong(n.root, front); }
      if n.root == Relative { LaterPart(text, last); } else { NoBareRoot(n.root, text, last); }
    } else {
      assert parts == [last] && Text(n.root, front) == "";
      FirstPartNoDrive(n, last);
      EmptyTidy();
      NoBareRoot(n.root, "", last);
    }
  }

  lemma EmptyTidy()
    ensures Tidy("")
  {
  }

  /** Behind other text there is a separator, so nothing of two characters looks like a drive. */
  lemma LaterPart(text: string, last: string)
    requires Clean(last) && Tidy(text) && text != ""
    ensures var r := Append(text, last); r != "" && r != "/" && !(|r| == 2 && DriveRoot(2, r[0], r[1]))
  {
    hide Tidy;
    TidyAppend(text, last);
    var r := Append(text, last);
    if |r| == 2 { assert text == "/" && r == "/" + last; }
  }

  lemma FirstPartNoDrive(n: Norm, last: string)
    requires Normal(n) && n.root == Relative && Parts(n) == [last]
    ensures Clean(last) && !DriveLike(last)
  {
    assert Parts(n)[0] == last;
    if n.ups > 0 { assert last == ".."; } else { assert n.stack == [last]; }
  }

  /** The two tests on the first characters and the length recognise exactly the bare roots. */
  lemma RootsByText(n: Norm)
    requires Normal(n)
    ensures var r := Render(n);
      && (r == "" <==> n == EMPTY)
      && (r == "/" <==> n == Norm(Posix, 0, []))
      && (|r| == 2 && DriveRoot(2, r[0], r[1]) <==> n.root.Drive? && n.stack == [])
      && (n.root.Drive? ==> |r| >= 2)
  {
    hide Text;
    if Parts(n) == [] {
      assert n.ups == 0 && n.stack == [];
      TextOfNothing(n.root);
    } else {
      RootsOfParts(n);
    }
  }

  lemma TextOfNothing(root: Root)
    ensures Text(root, []) == RootText(root)
  {
  }

  /** One segment more: the count still covers what the real run has built. */
  lemma CoversPush(d: Dry, n: Norm, s: string)
    requires Covers(d, n) && (Clean(s) || (s == "/" && d.length == 0))
    ensures Covers(DryPush(d, s), Push(n, s)) && d.length <= DryPush(d, s).length
  {
    hide Render;
    PushNormal(n, s);
    if s == ".." {
      CoversUp(d, n);
    } else if s == "/" {
      RootsByText(Push(n, s));
      CoversRoot(d, n);
    } else if s != "." {
      CoversName(d, n, s);
    }
  }

  lemma CoversRoot(d: Dry, n: Norm)
    requires Covers(d, n) && d.length == 0
    ensures Covers(DryPush(d, "/"), Push(n, "/"))
  {
    assert Text(Posix, Parts(Norm(Posix, 0, []))) == "/";
  }

  lemma CoversUp(d: Dry, n: Norm)
    requires Covers(d, n)
    ensures Covers(DryPush(d, ".."), Push(n, "..")) && d.length <= DryPush(d, "..").length
  {
    hide Render, Text;
    PushNormal(n, "..");
    RootsByText(n);
    RootsByText(Push(n, ".."));
    if n.stack != [] { RenderPop(n); } else if n.root == Relative { RenderUp(n); }
  }

  lemma CoversName(d: Dry, n: Norm, s: string)
    requires Covers(d, n) && Name(s)
    ensures Covers(DryPush(d, s), Push(n, s)) && d.length <= DryPush(d, s).length
  {
    hide Render, Text;
    PushNormal(n, s);
    RootsByText(n);
    RootsByText(Push(n, s));
    if !(n == EMPTY && DriveLike(s)) { RenderPush(n, s); } else { DriveText(s); }
  }

  lemma DriveText(s: string)
    requires DriveLike(s)
    ensures |Render(Push(EMPTY, s))| == 2
  {
    assert Parts(Push(EMPTY, s)) == [];
  }

  const START := Dry(0, 0, '\0', '\0')

  lemma CoversLength(d: Dry, n: Norm)
    requires Covers(d, n)
    ensures |Render(n)| <= d.length
  {
  }

  /** The dry run never takes anything back. */
  lemma {:induction false} DryGrows(d: Dry, segments: seq<string>)
    requires forall i :: 0 <= i < |segments| ==> segments[i] != ""
    ensures d.length <= DryPushAll(d, segments).length
    decreases |segments|
  {
    if segments != [] {
      DryGrows(DryPush(d, segments[0]), segments[1..]);
    }
  }

  lemma {:induction false} CoversPushAll(d: Dry, n: Norm, segments: seq<string>, k: nat)
    requires Covers(d, n) && Delivered(segments) && k <= |segments|
    requires segments != [] && segments[0] == "/" ==> d.length == 0
    ensures Covers(DryPushAll(d, segments), PushAll(n, segments))
    ensures |Render(PushAll(n, segments[..k]))| <= DryPushAll(d, segments).length
    decreases |segments|
  {
    hide Covers, DryPush, Push, Render;
    if segments == [] {
      assert segments[..k] == [];
      CoversLength(d, n);
    } else {
      var rest := segments[1..];
      assert forall i :: 0 <= i < |rest| ==> rest[i] == segments[i + 1] && Clean(rest[i]);
      assert rest != [] ==> !IsSeparator(rest[0][0]) && rest[0] != "/";
      CoversPush(d, n, segments[0]);
      CoversPushAll(DryPush(d, segments[0]), Push(n, segments[0]), rest, if k == 0 then 0 else k - 1);
      if k == 0 {
        assert rest[..0] == [] && segments[..0] == [];
        CoversLength(d, n);
        DryGrows(DryPush(d, segments[0]), rest);
      } else {
        assert segments[..k][1..] == rest[..k - 1];
      }
    }
  }

  lemma SegmentsDelivered(paths: seq<string>)
    ensures Delivered(Segments(paths))
  {
    AllTokensClean(paths);
  }

  /** NQPathJoin(paths, NULL, 0). */
  function DryJoin(paths: seq<string>): nat {
    SegmentsDelivered(paths);
    DryFinish(DryPushAll(START, Segments(paths)))
  }

  /** The space the real run needs never exceeds what the dry run has counted: neither after any number
      of segments nor for the finished path. */
  lemma DryJoinCovers(paths: seq<string>, k: nat)
    requires k <= |Segments(paths)|
    ensures |Render(PushAll(EMPTY, Segments(paths)[..k]))| <= DryJoin(paths)
    ensures |Join(paths)| <= DryJoin(paths)
  {
    SegmentsDelivered(paths);
    CoversPushAll(START, EMPTY, Segments(paths), k);
    RootsByText(PushAll(EMPTY, Segments(paths)));
  }

  // ---------- when the dry run is exact

  /** No ".." takes back a name. */
  ghost predicate TakesNothingBack(n: Norm, segments: seq<string>) {
    forall k :: 0 <= k < |segments| && segments[k] == ".." ==> PushAll(n, segments[..k]).stack == []
  }

  /** The counters are those of the text that the real run has built by then. */
  ghost predicate Exactly(d: Dry, n: Norm) {
    && Normal(n) && d.length == |Render(n)| && d.segmentCount == |n.stack|
    && (d.length > 0 ==> d.first0 == Render(n)[0]) && (d.length > 1 ==> d.first1 == Render(n)[1])
  }

  lemma CountExactly(d: Dry, text: string, s: string)
    requires s != "" && d.length == |text| && (|text| > 0 ==> d.first0 == text[0]) && (|text| > 1 ==> d.first1 == text[1])
    ensures var c, t := Count(d, s), Append(text, s);
      c.length == |t| && c.segmentCount == d.segmentCount && c.first0 == t[0] && (|t| > 1 ==> c.first1 == t[1])
  {
    var t := Append(text, s);
    if text == "" {
      assert t == s;
    } else if text == "/" {
      assert t[0] == '/' && t[1] == s[0];
    } else if |text| == 1 {
      assert text != "/" && t[0] == text[0] && t[1] == '/';
    } else {
      assert t[0] == text[0] && t[1] == text[1];
    }
  }

  lemma ExactlyPush(d: Dry, n: Norm, s: string)
    requires Exactly(d, n) && (Clean(s) || (s == "/" && d.length == 0)) && (s == ".." ==> n.stack == [])
    ensures Exactly(DryPush(d, s), Push(n, s))
  {
    hide Render, Text;
    PushNormal(n, s);
    RootsByText(n);
    if s == "/" {
      SlashIs();
    } else if s == ".." {
      if n.root == Relative {
        RenderUp(n);
        CountExactly(d, Render(n), s);
      }
    } else if s != "." {
      if n == EMPTY && DriveLike(s) {
        DriveIs(s);
        CountExactly(d, "", s);
      } else {
        RenderPush(n, s);
        CountExactly(d.(segmentCount := d.segmentCount + 1), Render(n), s);
      }
    }
  }

  lemma SlashIs()
    ensures Render(Norm(Posix, 0, [])) == "/"
  {
    assert Parts(Norm(Posix, 0, [])) == [];
  }

  lemma DriveIs(s: string)
    requires DriveLike(s)
    ensures Render(Push(EMPTY, s)) == s == Append("", s)
  {
    assert Parts(Push(EMPTY, s)) == [];
  }

  lemma {:induction false} ExactlyPushAll(d: Dry, n: Norm, segments: seq<string>)
    requires Exactly(d, n) && Delivered(segments) && TakesNothingBack(n, segments)
    requires segments != [] && segments[0] == "/" ==> d.length == 0
    ensures Exactly(DryPushAll(d, segments), PushAll(n, segments))
    decreases |segments|
  {
    hide Exactly, DryPush, Push;
    if segments != [] {
      var s, rest := segments[0], segments[1..];
      assert segments[..0] == [];
      assert s == ".." ==> PushAll(n, segments[..0]).stack == [];
      ExactlyPush(d, n, s);
      forall k | 0 <= k < |rest| && rest[k] == ".." ensures PushAll(Push(n, s), rest[..k]).stack == [] {
        assert segments[k + 1] == ".." && segments[..k + 1][0] == s && segments[..k + 1][1..] == rest[..k];
      }
      assert forall i :: 0 <= i < |rest| ==> rest[i] == segments[i + 1] && Clean(rest[i]);
      assert rest != [] ==> !IsSeparator(rest[0][0]) && rest[0] != "/";
      ExactlyPushAll(DryPush(d, s), Push(n, s), rest);
    }
  }

  /** When no ".." takes a name back the dry run tells the length of the joined path exactly. */
  lemma DryIsExact(paths: seq<string>)
    requires TakesNothingBack(EMPTY, Segments(paths))
    ensures DryJoin(paths) == |Join(paths)|
  {
    hide Render, Push, DryPush;
    SegmentsDelivered(paths);
    RootsByText(EMPTY);
    ExactlyPushAll(START, EMPTY, Segments(paths));
    RootsByText(PushAll(EMPTY, Segments(paths)));
  }
}
