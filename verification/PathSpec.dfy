/** What libnetq/fs/Path.c computes: the segments of several path strings are folded onto a stack, and
    the stack is written out again. */
module PathSpec {

  const NUL := '\0'

  predicate IsSeparator(c: char) {
    c == '/' || c == '\\'
  }

  predicate IsAlpha(c: char) {
    'a' <= c <= 'z' || 'A' <= c <= 'Z'
  }

  // ---------- reading

  /** The length of the segment that `s` starts with. */
  function SegmentLength(s: string): (n: nat)
    ensures n <= |s|
    ensures forall i :: 0 <= i < n ==> !IsSeparator(s[i])
    ensures n < |s| ==> IsSeparator(s[n])
  {
    if s == "" || IsSeparator(s[0]) then 0 else 1 + SegmentLength(s[1..])
  }

  /** The segments of one path: the non-empty pieces between separators. */
  function Tokens(s: string): seq<string>
    decreases |s|
  {
    if s == "" then []
    else if IsSeparator(s[0]) then Tokens(s[1..])
    else [s[..SegmentLength(s)]] + Tokens(s[SegmentLength(s)..])
  }

  function AllTokens(paths: seq<string>): seq<string> {
    if paths == [] then [] else Tokens(paths[0]) + AllTokens(paths[1..])
  }

  /** The very first character read is a separator. */
  predicate Rooted(paths: seq<string>) {
    paths != [] && if paths[0] == "" then Rooted(paths[1..]) else IsSeparator(paths[0][0])
  }

  /** What pathReadNext delivers one by one; a leading separator counts as the segment "/". */
  function Segments(paths: seq<string>): seq<string> {
    (if Rooted(paths) then ["/"] else []) + AllTokens(paths)
  }

  // ---------- the stack

  datatype Root = Relative | Posix | Drive(letter: char)

  /** A normal path: where it starts, how many ".." lead it, and the names below. */
  datatype Norm = Norm(root: Root, ups: nat, stack: seq<string>)

  const EMPTY := Norm(Relative, 0, [])

  predicate DriveLike(s: string) {
    |s| == 2 && s[1] == ':' && IsAlpha(s[0])
  }

  function Push(n: Norm, s: string): Norm {
    if s == "." then n
    else if s == "/" then (if n == EMPTY then n.(root := Posix) else n)
    else if s == ".." then
      if n.stack != [] then n.(stack := n.stack[..|n.stack| - 1])
      else if n.root != Relative then n
      else n.(ups := n.ups + 1)
    else if n == EMPTY && DriveLike(s) then n.(root := Drive(s[0]))
    else n.(stack := n.stack + [s])
  }

  function PushAll(n: Norm, segments: seq<string>): Norm
    decreases |segments|
  {
    if segments == [] then n else PushAll(Push(n, segments[0]), segments[1..])
  }

  // ---------- writing

  function RootText(root: Root): string {
    match root
    case Relative => ""
    case Posix => "/"
    case Drive(letter) => [letter, ':']
  }

  /** `part` written behind `text`. */
  function Append(text: string, part: string): string {
    if text == "" || text == "/" then text + part else text + "/" + part
  }

  function Text(root: Root, parts: seq<string>): string {
    if parts == [] then RootText(root) else Append(Text(root, parts[..|parts| - 1]), parts[|parts| - 1])
  }

  function Ups(n: nat): (r: seq<string>)
    ensures |r| == n && forall i :: 0 <= i < n ==> r[i] == ".."
  {
    seq(n, _ => "..")
  }

  function Parts(n: Norm): seq<string> {
    Ups(n.ups) + n.stack
  }

  function Render(n: Norm): string {
    Text(n.root, Parts(n))
  }

  function Finish(n: Norm): string {
    if n == EMPTY then "."
    else if n.root.Drive? && n.stack == [] then Render(n) + "/"
    else Render(n)
  }

  /** The joined path. */
  function Join(paths: seq<string>): string {
    Finish(PushAll(EMPTY, Segments(paths)))
  }

  // ---------- normal paths

  /** A segment as the reader delivers it: not empty, no separator in it. */
  ghost predicate Clean(s: string) {
    s != "" && forall i :: 0 <= i < |s| ==> !IsSeparator(s[i])
  }

  /** A segment that stands for itself. */
  ghost predicate Name(s: string) {
    Clean(s) && s != "." && s != ".."
  }

  ghost predicate Normal(n: Norm) {
    && (forall i :: 0 <= i < |n.stack| ==> Name(n.stack[i]))
    && (n.root != Relative ==> n.ups == 0)
    && (n.root.Drive? ==> IsAlpha(n.root.letter))
    && (n.root == Relative && n.ups == 0 && n.stack != [] ==> !DriveLike(n.stack[0]))
  }

  lemma PushNormal(n: Norm, s: string)
    requires Normal(n) && (Clean(s) || s == "/")
    ensures Normal(Push(n, s))
  {
  }

  lemma {:induction false} PushAllNormal(n: Norm, segments: seq<string>)
    requires Normal(n) && forall i :: 0 <= i < |segments| ==> Clean(segments[i]) || segments[i] == "/"
    ensures Normal(PushAll(n, segments))
    decreases |segments|
  {
    if segments != [] {
      PushNormal(n, segments[0]);
      PushAllNormal(Push(n, segments[0]), segments[1..]);
    }
  }

  lemma {:induction false} TokensClean(s: string)
    ensures forall i :: 0 <= i < |Tokens(s)| ==> Clean(Tokens(s)[i])
    decreases |s|
  {
    if s != "" {
      if IsSeparator(s[0]) {
        TokensClean(s[1..]);
      } else {
        TokensClean(s[SegmentLength(s)..]);
      }
    }
  }

  lemma {:induction false} AllTokensClean(paths: seq<string>)
    ensures forall i :: 0 <= i < |AllTokens(paths)| ==> Clean(AllTokens(paths)[i])
  {
    if paths != [] {
      TokensClean(paths[0]);
      AllTokensClean(paths[1..]);
    }
  }

  lemma JoinNormal(paths: seq<string>)
    ensures Normal(PushAll(EMPTY, Segments(paths)))
  {
    AllTokensClean(paths);
    PushAllNormal(EMPTY, Segments(paths));
  }

  // ---------- reading a normal path back

  lemma {:induction false} TokensOfClean(s: string)
    requires Clean(s)
    ensures SegmentLength(s) == |s| && Tokens(s) == [s]
  {
    if |s| > 1 {
      TokensOfClean(s[1..]);
    }
    assert s[..|s|] == s && s[|s|..] == "";
  }

  /** Text before a separator is read on its own. */
  lemma {:induction false} TokensSplit(a: string, c: char, b: string)
    requires IsSeparator(c)
    ensures Tokens(a + [c] + b) == Tokens(a) + Tokens(b)
    decreases |a|
  {
    hide Tokens, SegmentLength;
    var s := a + [c] + b;
    if a == "" {
      TokensSkip(s);
      assert s[1..] == b;
    } else if IsSeparator(a[0]) {
      assert s[1..] == a[1..] + [c] + b;
      TokensSplit(a[1..], c, b);
      TokensSkip(s);
      TokensSkip(a);
    } else {
      var n := SegmentLength(a);
      SegmentLengthSplit(a, c, b);
      TokensStep(a);
      assert s[..n] == a[..n] && s[n..] == a[n..] + [c] + b;
      TokensSplit(a[n..], c, b);
      TokensStep(s);
    }
  }

  lemma TokensSkip(s: string)
    requires s != "" && IsSeparator(s[0])
    ensures Tokens(s) == Tokens(s[1..]) && Tokens("") == []
  {
  }

  lemma TokensStep(s: string)
    requires s != "" && !IsSeparator(s[0])
    ensures Tokens(s) == [s[..SegmentLength(s)]] + Tokens(s[SegmentLength(s)..])
  {
  }

  lemma {:induction false} SegmentLengthSplit(a: string, c: char, b: string)
    requires IsSeparator(c)
    ensures SegmentLength(a + [c] + b) == SegmentLength(a)
  {
    if a != "" && !IsSeparator(a[0]) {
      assert (a + [c] + b)[1..] == a[1..] + [c] + b;
      SegmentLengthSplit(a[1..], c, b);
    }
  }

  lemma TokensAppend(text: string, part: string)
    requires Clean(part)
    ensures Tokens(Append(text, part)) == Tokens(text) + [part]
  {
    TokensOfClean(part);
    if text == "" {
      assert Append(text, part) == part;
    } else if text == "/" {
      assert Append(text, part)[1..] == part && text[1..] == "";
    } else if text != "" {
      TokensSplit(text, '/', part);
      assert text + ['/'] + part == text + "/" + part;
    }
  }

  function RootTokens(root: Root): seq<string> {
    match root
    case Drive(letter) => [[letter, ':']]
    case _ => []
  }

  lemma {:induction false} TokensOfText(root: Root, parts: seq<string>)
    requires (root.Drive? ==> IsAlpha(root.letter)) && forall i :: 0 <= i < |parts| ==> Clean(parts[i])
    ensures Tokens(Text(root, parts)) == RootTokens(root) + parts
  {
    if parts == [] {
      if root.Drive? { TokensOfClean([root.letter, ':']); }
    } else {
      var front := parts[..|parts| - 1];
      TokensOfText(root, front);
      TokensAppend(Text(root, front), parts[|parts| - 1]);
      assert RootTokens(root) + front + [parts[|parts| - 1]] == RootTokens(root) + parts;
    }
  }
}
