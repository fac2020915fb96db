/** A joined path is in normal form, and joining it again changes nothing. */
module PathNormal {
  import opened PathSpec

  lemma {:induction false} PushAllConcat(n: Norm, a: seq<string>, b: seq<string>)
    ensures PushAll(n, a + b) == PushAll(PushAll(n, a), b)
    decreases |a|
  {
    if a == [] {
      assert a + b == b;
    } else {
      assert (a + b)[1..] == a[1..] + b;
      PushAllConcat(Push(n, a[0]), a[1..], b);
    }
  }

  lemma {:induction false} PushUps(k: nat, m: nat)
    ensures PushAll(Norm(Relative, k, []), Ups(m)) == Norm(Relative, k + m, [])
    decreases m
  {
    if m > 0 {
      assert Ups(m)[1..] == Ups(m - 1);
      PushUps(k + 1, m - 1);
    }
  }

  lemma {:induction false} PushNames(n: Norm, names: seq<string>)
    requires forall i :: 0 <= i < |names| ==> Name(names[i])
    requires n == EMPTY && names != [] ==> !DriveLike(names[0])
    ensures PushAll(n, names) == n.(stack := n.stack + names)
    decreases |names|
  {
    if names == [] {
      assert n.stack + names == n.stack;
    } else {
      assert Push(n, names[0]) == n.(stack := n.stack + [names[0]]);
      PushNames(Push(n, names[0]), names[1..]);
      assert n.stack + [names[0]] + names[1..] == n.stack + names;
    }
  }

  lemma {:induction false} TextHead(root: Root, parts: seq<string>)
    requires forall i :: 0 <= i < |parts| ==> Clean(parts[i])
    ensures Text(root, parts) == "" <==> root == Relative && parts == []
    ensures root == Posix ==> Text(root, parts)[0] == '/'
    ensures root.Drive? ==> Text(root, parts)[0] == root.letter
    ensures root == Relative && |parts| > 0 ==> |parts[0]| > 0 && Text(root, parts)[0] == parts[0][0]
  {
    if parts != [] {
      TextHead(root, parts[..|parts| - 1]);
    }
  }

  lemma PartsClean(n: Norm)
    requires Normal(n)
    ensures forall i :: 0 <= i < |Parts(n)| ==> Clean(Parts(n)[i])
  {
  }

  /** Reading a written path delivers its root, its ".." and its names. */
  lemma SegmentsOfText(n: Norm)
    requires Normal(n)
    ensures Segments([Render(n)]) == (if n.root == Posix then ["/"] else []) + RootTokens(n.root) + Parts(n)
  {
    PartsClean(n);
    TextHead(n.root, Parts(n));
    TokensOfText(n.root, Parts(n));
    var text := Render(n);
    assert [text][1..] == [];
    assert AllTokens([text]) == Tokens(text);
    assert Rooted([text]) <==> n.root == Posix;
  }

  lemma PushSegmentsOfText(n: Norm)
    requires Normal(n)
    ensures PushAll(EMPTY, (if n.root == Posix then ["/"] else []) + RootTokens(n.root) + Parts(n)) == n
  {
    var lead := (if n.root == Posix then ["/"] else []) + RootTokens(n.root);
    assert lead == match n.root case Posix => ["/"] case Drive(letter) => [[letter, ':']] case Relative => [];
    assert PushAll(EMPTY, lead) == Norm(n.root, 0, []) by {
      if lead != [] { assert lead[1..] == []; }
    }
    PushAllConcat(EMPTY, lead, Parts(n));
    PushAllConcat(Norm(n.root, 0, []), Ups(n.ups), n.stack);
    if n.root == Relative {
      PushUps(0, n.ups);
    } else {
      assert Ups(n.ups) == [];
    }
    PushNames(Norm(n.root, n.ups, []), n.stack);
    assert [] + n.stack == n.stack;
  }

  lemma FinishReadsBack(n: Norm)
    requires Normal(n)
    ensures PushAll(EMPTY, Segments([Finish(n)])) == n
  {
    if n == EMPTY {
      TokensOfClean(".");
      assert Segments(["."]) == ["."] by { assert ["."][1..] == []; }
      assert ["."][1..] == [];
    } else if n.root.Drive? && n.stack == [] {
      var drive := [n.root.letter, ':'];
      TokensOfClean(drive);
      TokensSplit(drive, '/', "");
      var text := drive + ['/'] + "";
      assert Finish(n) == text;
      assert [text][1..] == [];
      assert Tokens("") == [];
      assert AllTokens([text]) == [drive];
      assert Segments([text]) == [drive];
      assert [drive][1..] == [];
    } else {
      SegmentsOfText(n);
      PushSegmentsOfText(n);
    }
  }

  /** Joining a joined path again returns it unchanged. */
  lemma JoinIdempotent(paths: seq<string>)
    ensures Join([Join(paths)]) == Join(paths)
  {
    JoinNormal(paths);
    FinishReadsBack(PushAll(EMPTY, Segments(paths)));
  }

  predicate AllEmpty(paths: seq<string>) {
    forall i :: 0 <= i < |paths| ==> paths[i] == ""
  }

  lemma {:induction false} SegmentsConcat(first: seq<string>, rest: seq<string>)
    ensures AllTokens(first + rest) == AllTokens(first) + AllTokens(rest)
    ensures Rooted(first + rest) == if AllEmpty(first) then Rooted(rest) else Rooted(first)
  {
    if first == [] {
      assert first + rest == rest;
    } else {
      assert (first + rest)[1..] == first[1..] + rest;
      SegmentsConcat(first[1..], rest);
      assert AllEmpty(first) <==> first[0] == "" && AllEmpty(first[1..]);
    }
  }

  lemma {:induction false} NotRooted(n: Norm, tokens: seq<string>)
    requires n.root != Posix && forall i :: 0 <= i < |tokens| ==> Clean(tokens[i])
    ensures PushAll(n, tokens).root != Posix
    decreases |tokens|
  {
    if tokens != [] {
      NotRooted(Push(n, tokens[0]), tokens[1..]);
    }
  }

  lemma {:induction false} StaysRooted(n: Norm, tokens: seq<string>)
    requires n.root == Posix
    ensures PushAll(n, tokens).root == Posix
    decreases |tokens|
  {
    if tokens != [] {
      StaysRooted(Push(n, tokens[0]), tokens[1..]);
    }
  }

  lemma RootIsVisible(n: Norm)
    requires Normal(n)
    ensures Finish(n) != "" && (Finish(n)[0] == '/' <==> n.root == Posix)
  {
    PartsClean(n);
    TextHead(n.root, Parts(n));
  }

  lemma JoinedSegments(first: seq<string>, rest: seq<string>)
    ensures PushAll(EMPTY, Segments([Join(first)] + rest)) == PushAll(EMPTY, Segments(first) + AllTokens(rest))
  {
    hide Tokens, AllTokens, Push, Render;
    JoinNormal(first);
    var n := PushAll(EMPTY, Segments(first));
    var text := Finish(n);
    FinishReadsBack(n);
    RootIsVisible(n);
    hide Finish;
    SegmentsConcat([text], rest);
    assert !AllEmpty([text]) by { assert [text][0] != ""; }
    assert Segments([text] + rest) == Segments([text]) + AllTokens(rest);
    PushAllConcat(EMPTY, Segments([text]), AllTokens(rest));
    PushAllConcat(EMPTY, Segments(first), AllTokens(rest));
  }

  /** Joining in two steps is joining at once, except when the first step had nothing but empty strings
      and the rest starts with a separator: then the first step has become "." and the root is lost. */
  lemma JoinInTwoSteps(first: seq<string>, rest: seq<string>)
    ensures Join([Join(first)] + rest) == Join(first + rest) <==> !(AllEmpty(first) && Rooted(rest))
  {
    hide Finish, Push, PushAll, AllTokens, Rooted;
    if AllEmpty(first) && Rooted(rest) {
      RootLost(first, rest);
    } else {
      JoinedSegments(first, rest);
      SegmentsConcat(first, rest);
      if AllEmpty(first) {
        EmptyTokens(first);
      }
      assert Segments(first + rest) == Segments(first) + AllTokens(rest);
    }
  }

  lemma {:induction false} EmptyTokens(first: seq<string>)
    requires AllEmpty(first)
    ensures AllTokens(first) == [] && !Rooted(first)
  {
    if first != [] {
      EmptyTokens(first[1..]);
    }
  }

  lemma RootLost(first: seq<string>, rest: seq<string>)
    requires AllEmpty(first) && Rooted(rest)
    ensures Join([Join(first)] + rest) != Join(first + rest)
  {
    JoinedSegments(first, rest);
    EmptyTokens(first);
    SegmentsConcat(first, rest);
    JoinNormal(first + rest);
    JoinNormal([Join(first)] + rest);
    AllTokensClean(rest);
    var tokens := AllTokens(rest);
    assert Segments(first) + tokens == tokens;
    NotRooted(EMPTY, tokens);
    assert (["/"] + tokens)[1..] == tokens;
    assert [] + tokens == tokens;
    StaysRooted(Norm(Posix, 0, []), tokens);
    RootIsVisible(PushAll(EMPTY, tokens));
    RootIsVisible(PushAll(EMPTY, ["/"] + tokens));
  }

  // ---------- the normal form of the text

  /** Single separators only, all of them '/', and none at the end but that of the root. */
  ghost predicate Tidy(text: string) {
    && (forall i :: 0 <= i < |text| ==> text[i] != '\\')
    && (forall i :: 0 <= i < |text| - 1 ==> !(IsSeparator(text[i]) && IsSeparator(text[i + 1])))
    && (text != "" && text != "/" ==> !IsSeparator(text[|text| - 1]))
  }

  lemma TidyAppend(text: string, part: string)
    requires Tidy(text) && Clean(part)
    ensures Tidy(Append(text, part)) && Append(text, part) != "" && Append(text, part) != "/"
  {
    var r := Append(text, part);
    var k := |r| - |part|;
    assert forall i :: 0 <= i < |text| ==> r[i] == text[i];
    assert forall i :: k <= i < |r| ==> r[i] == part[i - k];
    assert r[|r| - 1] == part[|part| - 1];
  }

  lemma {:induction false} TextTidy(root: Root, parts: seq<string>)
    requires (root.Drive? ==> IsAlpha(root.letter)) && forall i :: 0 <= i < |parts| ==> Clean(parts[i])
    ensures Tidy(Text(root, parts))
  {
    if parts != [] {
      TextTidy(root, parts[..|parts| - 1]);
      TidyAppend(Text(root, parts[..|parts| - 1]), parts[|parts| - 1]);
    }
  }

  /** ".." only as a leading run, and none in a path that starts at "/" or at a drive. */
  ghost predicate LeadingUps(tokens: seq<string>, absolute: bool) {
    && (forall i, j :: 0 <= i < j < |tokens| && tokens[j] == ".." ==> tokens[i] == "..")
    && (absolute ==> forall i :: 0 <= i < |tokens| ==> tokens[i] != "..")
  }

  /** Every joined path is ".", a drive root such as "C:/", or a tidy path without "." in which ".." only
      leads relative paths. */
  lemma JoinNormalForm(paths: seq<string>)
    ensures var r := Join(paths); var tokens := Tokens(r);
      || r == "."
      || (|r| == 3 && DriveLike(r[..2]) && r[2] == '/')
      || (r != "" && Tidy(r) && (forall i :: 0 <= i < |tokens| ==> Clean(tokens[i]) && tokens[i] != ".")
          && LeadingUps(tokens, r[0] == '/' || (tokens != [] && DriveLike(tokens[0]))))
  {
    JoinNormal(paths);
    var n := PushAll(EMPTY, Segments(paths));
    if n.root.Drive? && n.stack == [] {
      assert Parts(n) == [];
    } else if n != EMPTY {
      PartsClean(n);
      TextTidy(n.root, Parts(n));
      TokensOfText(n.root, Parts(n));
      RootIsVisible(n);
      TokensLead(n);
    }
  }

  lemma TokensLead(n: Norm)
    requires Normal(n) && n != EMPTY
    ensures var tokens := RootTokens(n.root) + Parts(n);
      && (forall i :: 0 <= i < |tokens| ==> Clean(tokens[i]) && tokens[i] != ".")
      && LeadingUps(tokens, n.root == Posix || (tokens != [] && DriveLike(tokens[0])))
  {
  }

  /** An input whose root is lost: nothing, and then "/a". */
  lemma RootLostInput()
    ensures Join([Join([""])] + ["/a"]) != Join([""] + ["/a"])
  {
    hide Join;
    assert AllEmpty([""]) && Rooted(["/a"]);
    JoinInTwoSteps([""], ["/a"]);
  }
}
