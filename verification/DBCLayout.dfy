/** Words laid out in a file: which can stand where, and what reading some of them leaves. */
module DBCLayout {
  import opened Words
  import opened DBCLexer
  import opened DBCMachine
  import opened DBCParserModel
  import opened DBCWords

  function WordsOf(xs: seq<Laid>): (ws: seq<Word>)
    ensures |ws| == |xs| && forall i :: 0 <= i < |xs| ==> ws[i] == xs[i].word
  {
    seq(|xs|, i requires 0 <= i < |xs| => xs[i].word)
  }

  predicate AfterDigit(prev: Option<Laid>) {
    prev.Some? && prev.value.gap == "" && prev.value.text != "" && IsDigit(prev.value.text[|prev.value.text| - 1])
  }

  /** The words are written as they should be, and no number with a sign stands right behind a digit. */
  predicate Spread(prev: Option<Laid>, xs: seq<Laid>)
    decreases |xs|
  {
    xs == [] || (LaidOk(xs[0]) && (AfterDigit(prev) ==> !IsSigned(xs[0].word)) && Spread(Some(xs[0]), xs[1..]))
  }

  function Last(prev: Option<Laid>, xs: seq<Laid>): Option<Laid> {
    if xs == [] then prev else Some(xs[|xs| - 1])
  }

  lemma {:induction false} SpreadSplits(prev: Option<Laid>, xs: seq<Laid>, n: nat)
    requires n <= |xs| && Spread(prev, xs)
    ensures Spread(prev, xs[..n]) && Spread(Last(prev, xs[..n]), xs[n..])
    decreases |xs|
  {
    if n == 0 {
      assert xs[..0] == [] && xs[0..] == xs;
    } else {
      SpreadSplits(Some(xs[0]), xs[1..], n - 1);
      assert xs[..n][1..] == xs[1..][..n - 1] && xs[n..] == xs[1..][n - 1..];
      hide LaidOk;
    }
  }

  /** The words are a first part and a second. */
  lemma WordsSplit(xs: seq<Laid>, a: seq<Word>, b: seq<Word>)
    requires WordsOf(xs) == a + b
    ensures |a| <= |xs| && WordsOf(xs[..|a|]) == a && WordsOf(xs[|a|..]) == b && xs == xs[..|a|] + xs[|a|..]
  {
    var n := |a|;
    assert |WordsOf(xs)| == |xs| == n + |b|;
    var u, v := WordsOf(xs[..n]), WordsOf(xs[n..]);
    assert |u| == n && |v| == |b|;
    forall i | 0 <= i < n ensures u[i] == a[i] {
      assert WordsOf(xs)[i] == xs[i].word && (a + b)[i] == a[i];
    }
    forall i | 0 <= i < |b| ensures v[i] == b[i] {
      assert WordsOf(xs)[n + i] == xs[n + i].word && (a + b)[n + i] == b[i];
    }
  }

  /** What the words take in the buffer, at most. */
  function Cost(ws: seq<Word>): nat {
    if ws == [] then 0 else |Data(ws[0])| + 1 + Cost(ws[1..])
  }

  lemma {:induction false} CostConcat(a: seq<Word>, b: seq<Word>)
    ensures Cost(a + b) == Cost(a) + Cost(b)
  {
    hide Data;
    if a == [] {
      assert a + b == b;
    } else {
      CostConcat(a[1..], b);
      assert (a + b)[1..] == a[1..] + b;
    }
  }

  /** A sign is a sign of a number unless it stands right behind a digit. */
  predicate Behind(l: Lexer, prev: Option<Laid>) {
    AfterDigit(prev) || Apart(l)
  }

  /** The words have been read, one after the other, and the lexer is behind them. */
  predicate Read(p: Parser, q: Parser, prev: Option<Laid>, xs: seq<Laid>, accept: Callback) {
    && FitsAll(p, xs, accept) && q == TookAll(p, xs, accept)
    && Behind(q.lexer, Last(prev, xs)) && |q.lexer.text| <= |p.lexer.text| + Cost(WordsOf(xs))
  }

  lemma ReadNothing(p: Parser, prev: Option<Laid>, accept: Callback)
    requires Behind(p.lexer, prev)
    ensures Read(p, p, prev, [], accept)
  {
  }

  lemma ReadBoth(p: Parser, q: Parser, r: Parser, prev: Option<Laid>, xs: seq<Laid>, ys: seq<Laid>, accept: Callback)
    requires Read(p, q, prev, xs, accept) && Read(q, r, Last(prev, xs), ys, accept)
    ensures Read(p, r, prev, xs + ys, accept)
  {
    hide FitsAll, TookAll, Cost, Behind;
    FitsAppend(p, xs, ys, accept);
    TookAppend(p, xs, ys, accept);
    CostConcat(WordsOf(xs), WordsOf(ys));
    assert WordsOf(xs + ys) == WordsOf(xs) + WordsOf(ys);
    if ys == [] { assert xs + ys == xs; }
  }

  lemma {:induction false} RunPrev(l: Lexer, text: string)
    requires Run(l, text).Some? && text != ""
    ensures Run(l, text).value.prev == text[|text| - 1]
    decreases |text|
  {
    hide Apply;
    var m := Advance(Apply(l, text[0]).value, text[0]);
    if text[1..] != "" { RunPrev(m, text[1..]); }
  }

  lemma Written(x: Laid)
    requires LaidOk(x)
    ensures x.text != ""
  {
  }

  /** A word that the parser is ready for: its token is handled, and the spaces behind it are passed over. */
  lemma WordTaken(p: Parser, x: Laid, accept: Callback) returns (l: Lexer, t: Token)
    requires Fits(p, x)
    ensures TokenFor(t, x.word, |p.lexer.text|) && Clean(l, x) && l.start == |l.text| <= |p.lexer.text| + |Data(x.word)| + 1 < BUFFER_SIZE - 1
    ensures Collected(p.lexer, x.text) == Some((l, t)) && Took(p, x, accept) == FeedAll(Handle(p.(lexer := l), t, false, accept), x.gap, accept)
  {
    hide Run, WordOk, Writes, Data, Handle, FeedAll, TokenFor;
    WordEnds(p.lexer, x.word, x.text);
    l, t := Collected(p.lexer, x.text).value.0, Collected(p.lexer, x.text).value.1;
    Written(x);
    RunPrev(p.lexer, x.text);
  }

  /** The lexer right behind the word. */
  predicate Clean(l: Lexer, x: Laid) {
    l.mode == Mode.Init && l.indent == 0 && x.text != "" && (l.prev == x.text[|x.text| - 1] || l.prev == NIL)
  }

  /** The spaces behind the word. */
  lemma GapPassed(q: Parser, x: Laid, accept: Callback)
    requires Rests(q, |q.lexer.text|) && |q.lexer.text| < BUFFER_SIZE - 1 && LaidOk(x) && Clean(q.lexer, x)
    ensures var r := FeedAll(q, x.gap, accept);
      r == q.(lexer := r.lexer) && r.lexer.text == q.lexer.text && Rests(r, |q.lexer.text|) && Behind(r.lexer, Some(x))
  {
    GapTaken(q, x.gap, accept);
  }

  /** One word more. */
  lemma ReadWord(p: Parser, prev: Option<Laid>, x: Laid, accept: Callback)
    requires Fits(p, x) && Behind(Took(p, x, accept).lexer, Some(x)) && |Took(p, x, accept).lexer.text| <= |p.lexer.text| + |Data(x.word)| + 1
    ensures Read(p, Took(p, x, accept), prev, [x], accept)
  {
    hide Took, Fits, Behind, Data;
    var xs := [x];
    assert xs[1..] == [] && TookAll(Took(p, x, accept), [], accept) == Took(p, x, accept) && FitsAll(Took(p, x, accept), [], accept);
    assert Cost(WordsOf(xs)) == |Data(x.word)| + 1 + Cost(WordsOf(xs)[1..]);
  }

  /** Enough room, and nothing in the way of a sign. */
  lemma FitsHere(p: Parser, prev: Option<Laid>, xs: seq<Laid>)
    requires xs != [] && Rests(p, |p.lexer.text|) && Behind(p.lexer, prev) && Spread(prev, xs) && |p.lexer.text| + Cost(WordsOf(xs)) + 3 < BUFFER_SIZE
    ensures Fits(p, xs[0])
  {
    hide LaidOk, Data;
  }
}
