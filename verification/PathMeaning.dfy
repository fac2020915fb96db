/** What a joined path means: its text, kind by kind, and where it leads. */
module PathMeaning {
  import opened PathSpec
  import opened PathNormal

  // ---------- the text

  /** The parts with a separator between them. */
  function Between(parts: seq<string>): string {
    if parts == [] then "" else if |parts| == 1 then parts[0] else parts[0] + "/" + Between(parts[1..])
  }

  lemma {:induction false} BetweenLast(parts: seq<string>)
    requires |parts| > 1
    ensures Between(parts) == Between(parts[..|parts| - 1]) + "/" + parts[|parts| - 1]
    decreases |parts|
  {
    var front, last := parts[..|parts| - 1], parts[|parts| - 1];
    if |parts| > 2 {
      BetweenLast(parts[1..]);
      assert parts[1..][..|parts| - 2] == front[1..];
      var rest := Between(front[1..]);
      assert parts[0] + "/" + (rest + "/" + last) == parts[0] + "/" + rest + "/" + last;
    } else {
      assert parts[1..] == [last] && front == [parts[0]];
    }
  }

  function Expected(root: Root, parts: seq<string>): string {
    match root
    case Relative => Between(parts)
    case Posix => "/" + Between(parts)
    case Drive(letter) => [letter, ':'] + (if parts == [] then "" else "/" + Between(parts))
  }

  lemma {:induction false} TextIs(root: Root, parts: seq<string>)
    requires forall i :: 0 <= i < |parts| ==> Clean(parts[i])
    ensures Text(root, parts) == Expected(root, parts)
  {
    hide Between, Clean, Expected, Append;
    if parts == [] {
      NoParts(root);
    } else {
      TextIs(root, parts[..|parts| - 1]);
      OnePartMore(root, parts);
    }
  }

  lemma NoParts(root: Root)
    ensures Expected(root, []) == RootText(root)
  {
  }

  lemma OnePartMore(root: Root, parts: seq<string>)
    requires parts != [] && forall i :: 0 <= i < |parts| ==> Clean(parts[i])
    ensures Append(Expected(root, parts[..|parts| - 1]), parts[|parts| - 1]) == Expected(root, parts)
  {
    var front, last := parts[..|parts| - 1], parts[|parts| - 1];
    if front == [] {
      assert parts == [last];
      hide Clean;
      assert root.Drive? ==> [root.letter, ':'] + "" + "/" + last == [root.letter, ':'] + ("/" + last);
    } else {
      BetweenLast(parts);
      NotOnlyRoot(front);
      hide Between, Clean;
      var b := Between(front);
      assert "/" + b + "/" + last == "/" + (b + "/" + last);
      assert root.Drive? ==> [root.letter, ':'] + ("/" + b) + "/" + last == [root.letter, ':'] + ("/" + (b + "/" + last));
    }
  }

  lemma NotOnlyRoot(parts: seq<string>)
    requires parts != [] && forall i :: 0 <= i < |parts| ==> Clean(parts[i])
    ensures Between(parts) != "" && Between(parts) != "/" && "/" + Between(parts) != "/"
  {
  }

  /** The text of a joined path: "." for nothing, and otherwise its root ("", "/" or a drive with a separator) and then
      its parts with one separator between any two. */
  lemma JoinText(paths: seq<string>)
    ensures var n := PushAll(EMPTY, Segments(paths)); var parts := seq(n.ups, _ => "..") + n.stack;
      Join(paths) == match n.root
        case Relative => if parts == [] then "." else Between(parts)
        case Posix => "/" + Between(parts)
        case Drive(letter) => [letter, ':', '/'] + Between(parts)
  {
    JoinNormal(paths);
    var n := PushAll(EMPTY, Segments(paths));
    PartsClean(n);
    TextIs(n.root, Parts(n));
    assert seq(n.ups, _ => "..") == Ups(n.ups);
    hide PushAll, Segments, Clean, Text, Between;
    if n.root.Drive? {
      var c := [n.root.letter, ':'];
      assert c + ("/" + Between(Parts(n))) == [n.root.letter, ':', '/'] + Between(Parts(n));
      assert c + "" + "/" == [n.root.letter, ':', '/'];
      DriveParts(n);
    }
  }

  lemma DriveParts(n: Norm)
    requires Normal(n) && n.root.Drive?
    ensures Parts(n) == n.stack && (n.stack == [] ==> Between(Parts(n)) == "")
  {
  }

  // ---------- where it leads

  /** A directory: the tree it is in, and the names from the top of it. */
  datatype Place = Place(root: Root, names: seq<string>)

  function Parent(p: Place): Place {
    if p.names == [] then p else p.(names := p.names[..|p.names| - 1])
  }

  /** One segment further. */
  function Walk(p: Place, segments: seq<string>): Place
    decreases |segments|
  {
    if segments == [] then p else
      var s := segments[0];
      Walk(if s == "." then p else if s == ".." then Parent(p) else p.(names := p.names + [s]), segments[1..])
  }

  /** Where the segments of a path lead from `p`. A separator or a drive at the beginning leads to the top of a tree. */
  function Lead(p: Place, segments: seq<string>): Place {
    if segments == [] then p
    else if segments[0] == "/" then Walk(Place(Posix, []), segments[1..])
    else if DriveLike(segments[0]) then Walk(Place(Drive(segments[0][0]), []), segments[1..])
    else Walk(p, segments)
  }

  function Up(p: Place, k: nat): Place {
    if k == 0 then p else Parent(Up(p, k - 1))
  }

  /** Where a normal path leads. */
  function At(p: Place, n: Norm): Place {
    if n.root == Relative then var u := Up(p, n.ups); u.(names := u.names + n.stack) else Place(n.root, n.stack)
  }

  /** Behind segments of which nothing is left comes one that looks like a drive. */
  ghost predicate LateDrive(segments: seq<string>) {
    exists k :: 0 < k < |segments| && PushAll(EMPTY, segments[..k]) == EMPTY && DriveLike(segments[k])
  }

  lemma WalkOne(p: Place, s: string)
    ensures Walk(p, [s]) == if s == "." then p else if s == ".." then Parent(p) else p.(names := p.names + [s])
  {
    assert [s][1..] == [];
  }

  /** One name more below, or one less. */
  lemma Below(p: Place, n: Norm, s: string)
    ensures At(p, n.(stack := n.stack + [s])) == At(p, n).(names := At(p, n).names + [s])
    ensures n.stack != [] ==> At(p, n.(stack := n.stack[..|n.stack| - 1])) == Parent(At(p, n))
  {
    hide Up;
    var u := if n.root == Relative then Up(p, n.ups).names else [];
    assert u + (n.stack + [s]) == u + n.stack + [s];
    if n.stack != [] {
      var k := |n.stack| - 1;
      assert (u + n.stack)[..|u| + k] == u + n.stack[..k];
      assert [] + n.stack == n.stack;
    }
  }

  /** Without names one more ".." leads up, except at the top of a tree. */
  lemma Above(p: Place, n: Norm)
    requires n.stack == [] && (n.root != Relative ==> n.ups == 0)
    ensures At(p, if n.root == Relative then n.(ups := n.ups + 1) else n) == Parent(At(p, n))
  {
    var u := Up(p, n.ups);
    assert u.names + [] == u.names && Parent(u).names + [] == Parent(u).names;
  }

  lemma WalkStep(p: Place, n: Norm, s: string)
    requires Normal(n) && Clean(s) && !(n == EMPTY && DriveLike(s))
    ensures At(p, Push(n, s)) == Walk(At(p, n), [s])
  {
    WalkOne(At(p, n), s);
    Below(p, n, s);
    if n.stack == [] { Above(p, n); }
    hide Walk, At, Parent, DriveLike;
  }

  lemma {:induction false} WalkAll(p: Place, n: Norm, segments: seq<string>)
    requires Normal(n) && (forall i :: 0 <= i < |segments| ==> Clean(segments[i]))
    requires forall k :: 0 <= k < |segments| && DriveLike(segments[k]) ==> PushAll(n, segments[..k]) != EMPTY
    ensures At(p, PushAll(n, segments)) == Walk(At(p, n), segments)
    decreases |segments|
  {
    if segments != [] {
      var s, rest := segments[0], segments[1..];
      assert segments[..0] == [];
      WalkStep(p, n, s);
      PushNormal(n, s);
      forall k | 0 <= k < |rest| && DriveLike(rest[k]) ensures PushAll(Push(n, s), rest[..k]) != EMPTY {
        assert segments[..k + 1][0] == s && segments[..k + 1][1..] == rest[..k];
        assert DriveLike(segments[k + 1]);
      }
      WalkAll(p, Push(n, s), rest);
      assert [s][1..] == [];
    }
  }

  lemma {:induction false} KeepsRoot(n: Norm, segments: seq<string>)
    requires n.root != Relative
    ensures PushAll(n, segments).root == n.root
    decreases |segments|
  {
    if segments != [] { KeepsRoot(Push(n, segments[0]), segments[1..]); }
  }

  lemma SegmentsAre(paths: seq<string>)
    ensures forall i :: 0 <= i < |Segments(paths)| ==> Clean(Segments(paths)[i]) || (i == 0 && Segments(paths)[i] == "/")
  {
    AllTokensClean(paths);
  }

  /** Where the segments of some paths lead is where the normal path leads, unless a late drive is among them. */
  lemma LeadIsAt(p: Place, paths: seq<string>)
    requires !LateDrive(Segments(paths))
    ensures Lead(p, Segments(paths)) == At(p, PushAll(EMPTY, Segments(paths)))
  {
    var ss := Segments(paths);
    SegmentsAre(paths);
    StartsHere(p);
    if ss != [] {
      var s, rest := ss[0], ss[1..];
      hide Segments;
      if s == "/" || DriveLike(s) {
        var n := Push(EMPTY, s);
        assert n.root != Relative && Normal(n);
        forall k | 0 <= k < |rest| ensures PushAll(n, rest[..k]) != EMPTY { KeepsRoot(n, rest[..k]); }
        WalkAll(p, n, rest);
      } else {
        forall k | 0 <= k < |ss| && DriveLike(ss[k]) ensures PushAll(EMPTY, ss[..k]) != EMPTY {}
        WalkAll(p, EMPTY, ss);
      }
    }
  }

  lemma StartsHere(p: Place)
    ensures At(p, EMPTY) == p && Normal(EMPTY)
  {
    assert p.names + [] == p.names;
  }

  /** A joined path has no late drive in it. */
  lemma JoinedIsEarly(n: Norm)
    requires Normal(n)
    ensures !LateDrive(Segments([Finish(n)]))
  {
    var ss := Segments([Finish(n)]);
    FinishSegments(n);
    hide Segments, Finish, Push, PushAll;
    if n.root == Relative && n != EMPTY {
      assert ss == Parts(n);
      forall k | 0 < k < |ss| ensures PushAll(EMPTY, ss[..k]) != EMPTY { RelativePrefix(n, k); }
    } else if n != EMPTY {
      forall k | 0 < k < |ss| ensures PushAll(EMPTY, ss[..k]) != EMPTY { RootedPrefix(ss, k); }
    }
  }

  lemma RelativePrefix(n: Norm, k: nat)
    requires Normal(n) && n.root == Relative && 0 < k <= |Parts(n)|
    ensures PushAll(EMPTY, Parts(n)[..k]) != EMPTY
  {
    hide PushAll, Push;
    if k <= n.ups {
      assert Parts(n)[..k] == Ups(k);
      PushUps(0, k);
    } else {
      var m := k - n.ups;
      assert Parts(n)[..k] == Ups(n.ups) + n.stack[..m];
      PushAllConcat(EMPTY, Ups(n.ups), n.stack[..m]);
      PushUps(0, n.ups);
      PushNames(Norm(Relative, n.ups, []), n.stack[..m]);
    }
  }

  lemma RootedPrefix(ss: seq<string>, k: nat)
    requires 0 < k <= |ss| && (ss[0] == "/" || DriveLike(ss[0]))
    ensures PushAll(EMPTY, ss[..k]) != EMPTY
  {
    assert ss[..k][0] == ss[0];
    KeepsRoot(Push(EMPTY, ss[0]), ss[..k][1..]);
  }

  lemma FinishSegments(n: Norm)
    requires Normal(n)
    ensures var ss := Segments([Finish(n)]);
      if n == EMPTY then ss == ["."]
      else ss == (if n.root == Posix then ["/"] else []) + RootTokens(n.root) + Parts(n)
  {
    if n == EMPTY {
      TokensOfClean(".");
      assert ["."][1..] == [];
    } else if n.root.Drive? && n.stack == [] {
      var drive := [n.root.letter, ':'];
      TokensOfClean(drive);
      TokensSplit(drive, '/', "");
      assert Finish(n) == drive + ['/'] + "";
      assert [Finish(n)][1..] == [] && Tokens("") == [] && AllTokens([Finish(n)]) == [drive];
      assert Parts(n) == [];
    } else {
      SegmentsOfText(n);
    }
  }

  /** A joined path leads from every directory to where the segments lead one by one, if and only if no segment that
      looks like a drive comes behind segments of which nothing is left. */
  lemma JoinLeads(paths: seq<string>)
    ensures (forall p: Place :: Lead(p, Segments([Join(paths)])) == Lead(p, Segments(paths))) <==> !LateDrive(Segments(paths))
  {
    JoinNormal(paths);
    var n := PushAll(EMPTY, Segments(paths));
    JoinedIsEarly(n);
    FinishReadsBack(n);
    forall p: Place ensures Lead(p, Segments([Join(paths)])) == At(p, n) {
      LeadIsAt(p, [Join(paths)]);
    }
    if LateDrive(Segments(paths)) {
      LateDriveLeadsElsewhere(paths);
    } else {
      forall p: Place ensures Lead(p, Segments(paths)) == At(p, n) { LeadIsAt(p, paths); }
    }
  }

  lemma {:induction false} WalkStays(p: Place, segments: seq<string>)
    ensures Walk(p, segments).root == p.root
    decreases |segments|
  {
    if segments != [] {
      var s := segments[0];
      WalkStays(if s == "." then p else if s == ".." then Parent(p) else p.(names := p.names + [s]), segments[1..]);
    }
  }

  lemma LateDriveLeadsElsewhere(paths: seq<string>)
    requires LateDrive(Segments(paths))
    ensures var n := PushAll(EMPTY, Segments(paths)); n.root.Drive? && Lead(Place(Posix, []), Segments(paths)) != At(Place(Posix, []), n)
  {
    var ss, p := Segments(paths), Place(Posix, []);
    SegmentsAre(paths);
    hide Segments;
    var k :| 0 < k < |ss| && PushAll(EMPTY, ss[..k]) == EMPTY && DriveLike(ss[k]);
    assert ss == ss[..k] + [ss[k]] + ss[k + 1..];
    PushAllConcat(EMPTY, ss[..k] + [ss[k]], ss[k + 1..]);
    PushAllConcat(EMPTY, ss[..k], [ss[k]]);
    assert [ss[k]][1..] == [];
    KeepsRoot(Push(EMPTY, ss[k]), ss[k + 1..]);
    assert ss[..k][0] == ss[0];
    if ss[0] == "/" || DriveLike(ss[0]) { KeepsRoot(Push(EMPTY, ss[0]), ss[..k][1..]); }
    WalkStays(p, ss);
  }

  /** An input with a late drive: a directory named like a drive inside the current one. */
  lemma LateDriveInput()
    ensures LateDrive(Segments(["./C:"])) && Join(["./C:"]) == "C:/"
  {
    TokensSplit(".", '/', "C:");
    TokensOfClean(".");
    TokensOfClean("C:");
    assert "." + ['/'] + "C:" == "./C:";
    assert ["./C:"][1..] == [];
    var ss := Segments(["./C:"]);
    assert ss == [".", "C:"];
    assert ss[..1] == ["."] && ["."][1..] == [] && [".", "C:"][1..] == ["C:"] && ["C:"][1..] == [];
    assert PushAll(EMPTY, ss[..1]) == EMPTY && DriveLike(ss[1]);
    JoinText(["./C:"]);
    assert PushAll(EMPTY, ss) == Norm(Drive('C'), 0, []);
    assert Between([]) == "" && ['C', ':', '/'] + "" == "C:/";
    assert seq(0, _ => "..") + [] == [];
  }

  /** No joined path is a drive without a separator behind it. */
  lemma NoBareDrive(paths: seq<string>)
    ensures !DriveLike(Join(paths))
  {
    JoinNormal(paths);
    JoinText(paths);
    var n := PushAll(EMPTY, Segments(paths));
    var parts := seq(n.ups, _ => "..") + n.stack;
    hide Join, PushAll, Segments;
    match n.root {
      case Relative =>
        if |parts| == 1 {
          assert n.ups == 0 ==> parts == n.stack;
        } else if |parts| > 1 {
          LongOrSlashed(parts);
        }
      case Posix =>
      case Drive(letter) =>
    }
  }

  lemma LongOrSlashed(parts: seq<string>)
    requires |parts| > 1 && forall i :: 0 <= i < |parts| ==> parts[i] != ""
    ensures |Between(parts)| > 2
  {
    assert parts[1..][0] == parts[1];
  }
}
