/** Words of a DBC file and how they are written: what is written is read back as the tokens it was written for. */
module DBCWords {
  import opened Words
  import opened DBCLexer
  import opened DBCMachine
  import opened DBCParserModel

  datatype Exponent = Exponent(mark: char, sign: Option<char>, digits: string)

  datatype Numeral = Numeral(sign: Option<char>, whole: string, fraction: Option<string>, exponent: Option<Exponent>)

  /** What a token can be, without the place it was found at. */
  datatype Word = Name(name: string) | Number(numeral: Numeral) | Str(content: string) | Sym(symbol: char)

  function SignText(sign: Option<char>): string {
    if sign.Some? then [sign.value] else ""
  }

  predicate SignOk(sign: Option<char>) {
    sign.Some? ==> sign.value == '+' || sign.value == '-'
  }

  function NumeralText(n: Numeral): string {
    SignText(n.sign) + n.whole + (if n.fraction.Some? then "." + n.fraction.value else "")
    + if n.exponent.Some? then [n.exponent.value.mark] + SignText(n.exponent.value.sign) + n.exponent.value.digits else ""
  }

  predicate NumeralOk(n: Numeral) {
    && SignOk(n.sign) && n.whole != "" && AllDigits(n.whole)
    && (n.fraction.Some? ==> AllDigits(n.fraction.value))
    && (n.exponent.Some? ==>
          && (n.exponent.value.mark == 'e' || n.exponent.value.mark == 'E') && SignOk(n.exponent.value.sign)
          && n.exponent.value.digits != "" && AllDigits(n.exponent.value.digits))
  }

  predicate IsInteger(n: Numeral) {
    n.fraction.None? && n.exponent.None?
  }

  predicate WordOk(w: Word) {
    match w
    case Name(s) => s != "" && IsFirstIdentifier(s[0]) && AllIdentifier(s)
    case Number(n) => NumeralOk(n)
    case Str(_) => true
    case Sym(c) => !IsNextIdentifier(c) && !IsSpace(c) && c != '"' && c != '\r'
  }

  function Kind(w: Word): TokenType {
    match w
    case Name(_) => IdentifierToken
    case Number(n) => if !IsInteger(n) then NumberToken else if n.sign.Some? then SIntegerToken else UIntegerToken
    case Str(_) => StringToken
    case Sym(_) => SymbolToken
  }

  /** The characters of the token. */
  function Data(w: Word): string {
    match w
    case Name(s) => s
    case Number(n) => NumeralText(n)
    case Str(s) => s
    case Sym(c) => [c]
  }

  /** Quotes and backslashes in a string have a backslash in front of them. */
  function Escaped(s: string): string {
    if s == "" then "" else (if s[0] == '"' || s[0] == '\\' then ['\\', s[0]] else [s[0]]) + Escaped(s[1..])
  }

  predicate AllBreaks(s: string) {
    forall i :: 0 <= i < |s| ==> s[i] == '\n' || s[i] == '\r'
  }

  predicate AllSpaces(s: string) {
    forall i :: 0 <= i < |s| ==> IsSpace(s[i])
  }

  /** The text is a way to write the word: any run of line breaks is the end of a line. */
  predicate Writes(text: string, w: Word) {
    if w == Sym('\n') then text != "" && AllBreaks(text)
    else if w.Str? then text == "\"" + Escaped(w.content) + "\""
    else text == Data(w)
  }

  // ---------- the lexer on its own

  /** The lexer after characters that all belong to one token. */
  function Run(l: Lexer, s: string): Option<Lexer>
    decreases |s|
  {
    if s == "" then Some(l) else
      var m := Apply(l, s[0]);
      if m.Some? then Run(Advance(m.value, s[0]), s[1..]) else None
  }

  lemma {:induction false} RunConcat(l: Lexer, a: string, b: string)
    requires Run(l, a).Some?
    ensures Run(l, a + b) == Run(Run(l, a).value, b)
    decreases |a|
  {
    if a == "" {
      assert a + b == b;
    } else {
      assert (a + b)[0] == a[0] && (a + b)[1..] == a[1..] + b;
      RunConcat(Advance(Apply(l, a[0]).value, a[0]), a[1..], b);
    }
  }

  /** The token has gone on by the characters `w`. */
  predicate Grown(l: Lexer, m: Option<Lexer>, mode: Mode, w: string) {
    m.Some? && m.value.mode == mode && m.value.text == l.text + w && m.value.start == l.start && m.value.indent == l.indent
  }

  lemma GrownMore(l: Lexer, a: string, m: Mode, x: string, b: string, n: Mode, y: string)
    requires Grown(l, Run(l, a), m, x) && Grown(Run(l, a).value, Run(Run(l, a).value, b), n, y)
    ensures Grown(l, Run(l, a + b), n, x + y)
  {
    RunConcat(l, a, b);
    hide Run;
    assert l.text + x + y == l.text + (x + y);
  }

  lemma OneMore(l: Lexer, c: char, mode: Mode)
    requires Apply(l, c).Some? && Apply(l, c).value == Put(Apply(l, c).value.(text := l.text), mode, c)
    requires Apply(l, c).value.start == l.start && Apply(l, c).value.indent == l.indent
    ensures Grown(l, Run(l, [c]), mode, [c])
  {
    assert [c][1..] == "";
    var m := Advance(Apply(l, c).value, c);
    assert Run(m, "") == Some(m);
  }

  lemma {:induction false} DigitsRun(l: Lexer, s: string)
    requires AllDigits(s) && l.mode in {SInteger, UInteger, Mode.Number, ExponentNumber}
    ensures Grown(l, Run(l, s), l.mode, s)
    decreases |s|
  {
    if s == "" {
      assert l.text + "" == l.text;
    } else {
      OneMore(l, s[0], l.mode);
      var m := Run(l, [s[0]]).value;
      DigitsRun(m, s[1..]);
      GrownMore(l, [s[0]], l.mode, [s[0]], s[1..], l.mode, s[1..]);
      assert [s[0]] + s[1..] == s;
    }
  }

  lemma {:induction false} NameRun(l: Lexer, s: string)
    requires AllIdentifier(s) && l.mode == CIdentifier
    ensures Grown(l, Run(l, s), CIdentifier, s)
    decreases |s|
  {
    if s == "" {
      assert l.text + "" == l.text;
    } else {
      OneMore(l, s[0], CIdentifier);
      var m := Run(l, [s[0]]).value;
      NameRun(m, s[1..]);
      GrownMore(l, [s[0]], CIdentifier, [s[0]], s[1..], CIdentifier, s[1..]);
      assert [s[0]] + s[1..] == s;
    }
  }

  lemma EscapeRun(l: Lexer, c: char)
    requires l.mode == CString
    ensures Grown(l, Run(l, if c == '"' || c == '\\' then ['\\', c] else [c]), CString, [c])
  {
    if c == '"' || c == '\\' {
      var m := Advance(l.(mode := EscapeCString), '\\');
      OneMore(m, c, CString);
      assert ['\\', c][1..] == [c];
    } else {
      OneMore(l, c, CString);
    }
  }

  lemma {:induction false} StringRun(l: Lexer, s: string)
    requires l.mode == CString
    ensures Grown(l, Run(l, Escaped(s)), CString, s)
    decreases |s|
  {
    if s == "" {
      assert l.text + "" == l.text;
    } else {
      var e := if s[0] == '"' || s[0] == '\\' then ['\\', s[0]] else [s[0]];
      EscapeRun(l, s[0]);
      StringRun(Run(l, e).value, s[1..]);
      GrownMore(l, e, CString, [s[0]], Escaped(s[1..]), CString, s[1..]);
      assert [s[0]] + s[1..] == s;
    }
  }

  /** A sign right behind a digit is a symbol of its own. */
  predicate Apart(l: Lexer) {
    l.mode == Mode.Init && !(l.indent == 0 && IsDigit(l.prev))
  }

  predicate IsSigned(w: Word) {
    w.Number? && w.numeral.sign.Some?
  }

  /** The word can start here. */
  predicate Starts(l: Lexer, w: Word) {
    l.mode == Mode.Init && (IsSigned(w) ==> Apart(l))
  }

  function NumeralMode(n: Numeral): Mode {
    if n.exponent.Some? then ExponentNumber
    else if n.fraction.Some? then Mode.Number
    else if n.sign.Some? then SInteger else UInteger
  }

  /** Where the lexer can be after the whole word. */
  predicate EndsIn(w: Word, mode: Mode) {
    match w
    case Name(_) => mode == CIdentifier
    case Number(n) => mode == NumeralMode(n)
    case Str(_) => mode == FinalCString
    case Sym(c) =>
      if c == '\n' then mode == LF || mode == CRLF
      else mode == AnySymbol || (c == '+' && mode == PlusSymbol) || (c == '-' && mode == MinusSymbol)
  }

  /** The character would go on with the word, or might. */
  predicate Touches(w: Word, c: char) {
    match w
    case Name(_) => IsNextIdentifier(c)
    case Number(_) => IsNextIdentifier(c) || c == '.'
    case Str(_) => false
    case Sym(s) => if s == '\n' then c == '\n' || c == '\r' else (s == '+' || s == '-') && IsDigit(c)
  }

  lemma WholeRun(l: Lexer, n: Numeral)
    requires Starts(l, Word.Number(n)) && NumeralOk(n)
    ensures Grown(l, Run(l, SignText(n.sign) + n.whole), if n.sign.Some? then SInteger else UInteger, SignText(n.sign) + n.whole)
  {
    var c, rest := n.whole[0], n.whole[1..];
    assert [c] + rest == n.whole;
    if n.sign.Some? {
      var s := n.sign.value;
      OneMore(l, s, if s == '+' then PlusSymbol else MinusSymbol);
      var m := Run(l, [s]).value;
      OneMore(m, c, SInteger);
      DigitsRun(Run(m, [c]).value, rest);
      GrownMore(m, [c], SInteger, [c], rest, SInteger, rest);
      GrownMore(l, [s], m.mode, [s], n.whole, SInteger, n.whole);
    } else {
      OneMore(l, c, UInteger);
      DigitsRun(Run(l, [c]).value, rest);
      GrownMore(l, [c], UInteger, [c], rest, UInteger, rest);
      assert "" + n.whole == n.whole;
    }
  }

  lemma FractionRun(l: Lexer, f: string)
    requires (l.mode == SInteger || l.mode == UInteger) && AllDigits(f)
    ensures Grown(l, Run(l, "." + f), Mode.Number, "." + f)
  {
    OneMore(l, '.', Mode.Number);
    DigitsRun(Run(l, ".").value, f);
    GrownMore(l, ".", Mode.Number, ".", f, Mode.Number, f);
  }

  lemma MarkRun(l: Lexer, mark: char, sign: Option<char>)
    requires l.mode in {SInteger, UInteger, Mode.Number} && (mark == 'e' || mark == 'E') && SignOk(sign)
    ensures Grown(l, Run(l, [mark] + SignText(sign)), if sign.Some? then ExponentSignNumber else ExponentSymbolNumber, [mark] + SignText(sign))
  {
    hide Run;
    OneMore(l, mark, ExponentSymbolNumber);
    if sign.Some? {
      OneMore(Run(l, [mark]).value, sign.value, ExponentSignNumber);
      GrownMore(l, [mark], ExponentSymbolNumber, [mark], [sign.value], ExponentSignNumber, [sign.value]);
    } else {
      assert [mark] + "" == [mark];
    }
  }

  lemma PowerRun(l: Lexer, digits: string)
    requires l.mode in {ExponentSymbolNumber, ExponentSignNumber} && digits != "" && AllDigits(digits)
    ensures Grown(l, Run(l, digits), ExponentNumber, digits)
  {
    hide Run;
    var c, rest := digits[0], digits[1..];
    OneMore(l, c, ExponentNumber);
    DigitsRun(Run(l, [c]).value, rest);
    GrownMore(l, [c], ExponentNumber, [c], rest, ExponentNumber, rest);
    assert [c] + rest == digits;
  }

  lemma ExponentRun(l: Lexer, e: Exponent)
    requires l.mode in {SInteger, UInteger, Mode.Number}
    requires (e.mark == 'e' || e.mark == 'E') && SignOk(e.sign) && e.digits != "" && AllDigits(e.digits)
    ensures Grown(l, Run(l, [e.mark] + SignText(e.sign) + e.digits), ExponentNumber, [e.mark] + SignText(e.sign) + e.digits)
  {
    hide Run, SignText;
    var a := [e.mark] + SignText(e.sign);
    MarkRun(l, e.mark, e.sign);
    var m := Run(l, a).value;
    PowerRun(m, e.digits);
    GrownMore(l, a, m.mode, a, e.digits, ExponentNumber, e.digits);
  }

  lemma NumeralRun(l: Lexer, n: Numeral)
    requires Starts(l, Word.Number(n)) && NumeralOk(n)
    ensures Grown(l, Run(l, NumeralText(n)), NumeralMode(n), NumeralText(n))
  {
    hide Run;
    WholeRun(l, n);
    var a := SignText(n.sign) + n.whole;
    var b := a + if n.fraction.Some? then "." + n.fraction.value else "";
    var m := Run(l, a).value;
    if n.fraction.Some? {
      FractionRun(m, n.fraction.value);
      GrownMore(l, a, m.mode, a, "." + n.fraction.value, Mode.Number, "." + n.fraction.value);
    } else {
      assert b == a;
    }
    if n.exponent.Some? {
      var e := n.exponent.value;
      var t := [e.mark] + SignText(e.sign) + e.digits;
      ExponentRun(Run(l, b).value, e);
      GrownMore(l, b, Run(l, b).value.mode, b, t, ExponentNumber, t);
      assert NumeralText(n) == b + t;
    } else {
      assert NumeralText(n) == b;
    }
  }

  /** The lexer has collected the word and nothing else. */
  predicate Collects(l: Lexer, m: Option<Lexer>, w: Word) {
    m.Some? && Grown(l, m, m.value.mode, Data(w)) && EndsIn(w, m.value.mode)
  }

  /** A word is collected whole. */
  lemma WordRun(l: Lexer, w: Word, text: string)
    requires Starts(l, w) && WordOk(w) && Writes(text, w)
    ensures Collects(l, Run(l, text), w)
  {
    hide Run;
    match w {
      case Name(s) => NameWordRun(l, s);
      case Number(n) => NumeralRun(l, n);
      case Str(s) => QuotedRun(l, s);
      case Sym(c) => if c == '\n' { LineEndRun(l, text); } else { SymbolRun(l, c); }
    }
    hide NumeralText, Escaped, Grown;
  }

  lemma SymbolRun(l: Lexer, c: char)
    requires l.mode == Mode.Init && WordOk(Sym(c)) && c != '\n'
    ensures Collects(l, Run(l, [c]), Sym(c))
  {
    OneMore(l, c, ApplyInit(l, c).mode);
  }

  /** Right behind a digit a sign is a symbol, even if a digit follows; anywhere else it would be the sign of a
      number. */
  lemma SignBehindDigit(l: Lexer, c: char, d: char)
    requires l.mode == Mode.Init && (c == '+' || c == '-')
    ensures Run(l, [c]).Some? && TypeOf(Run(l, [c]).value.mode) == Some(SymbolToken)
    ensures !Apart(l) ==> Apply(Run(l, [c]).value, d).None?
    ensures Apart(l) && IsDigit(d) ==> Run(l, [c, d]).Some? && TypeOf(Run(l, [c, d]).value.mode) == Some(SIntegerToken)
  {
    SymbolRun(l, c);
    RunConcat(l, [c], [d]);
    var m := Run(l, [c]).value;
    assert [c] + [d] == [c, d] && [c][1..] == "" && [d][1..] == "";
    if Apart(l) && IsDigit(d) { OneMore(m, d, SInteger); }
  }

  lemma LineEndRun(l: Lexer, text: string)
    requires l.mode == Mode.Init && text != "" && AllBreaks(text)
    ensures Collects(l, Run(l, text), Sym('\n'))
  {
    var m := Advance(ApplyInit(l, text[0]), text[0]);
    assert m.text == l.text + ['\n'];
    BreaksRun(m, text[1..]);
  }

  lemma {:induction false} BreaksRun(l: Lexer, s: string)
    requires (l.mode == LF || l.mode == CRLF) && AllBreaks(s)
    ensures var m := Run(l, s);
      m.Some? && (m.value.mode == LF || m.value.mode == CRLF) && m.value.text == l.text && m.value.start == l.start && m.value.indent == l.indent
    decreases |s|
  {
    if s != "" { BreaksRun(Advance(Apply(l, s[0]).value, s[0]), s[1..]); }
  }

  /** A character that does not touch the word ends it. */
  lemma WordStops(l: Lexer, m: Option<Lexer>, w: Word, c: char)
    requires WordOk(w) && Collects(l, m, w) && !Touches(w, c)
    ensures Apply(m.value, c).None?
  {
  }

  lemma NameWordRun(l: Lexer, s: string)
    requires l.mode == Mode.Init && WordOk(Name(s))
    ensures Grown(l, Run(l, s), CIdentifier, s)
  {
    hide Run;
    OneMore(l, s[0], CIdentifier);
    NameRun(Run(l, [s[0]]).value, s[1..]);
    GrownMore(l, [s[0]], CIdentifier, [s[0]], s[1..], CIdentifier, s[1..]);
    assert [s[0]] + s[1..] == s;
  }

  lemma QuotedRun(l: Lexer, s: string)
    requires l.mode == Mode.Init
    ensures Grown(l, Run(l, "\"" + Escaped(s) + "\""), FinalCString, s)
  {
    var q := "\"";
    var m := Advance(ApplyInit(l, '"'), '"');
    assert q[1..] == "" && Run(m, "") == Some(m) && Run(l, q) == Some(m);
    StringRun(m, s);
    var n := Run(m, Escaped(s)).value;
    var e := Advance(n.(mode := FinalCString), '"');
    assert Run(e, "") == Some(e) && Run(n, q) == Some(e);
    RunConcat(m, Escaped(s), q);
    RunConcat(l, q, Escaped(s) + q);
    assert q + (Escaped(s) + q) == q + Escaped(s) + q;
  }

  // ---------- the parser, word by word

  /** Nothing has stopped the parser, and it waits for the next word; `room` says what the buffer holds at most. */
  predicate Rests(p: Parser, room: nat) {
    && p.error == NoError && p.sel <= SECTION_COUNT && p.lexer.mode == Mode.Init
    && p.lexer.start == |p.lexer.text| <= room < BUFFER_SIZE
  }

  lemma {:induction false} FeedRun(p: Parser, s: string, accept: Callback)
    requires p.error == NoError && Sound(p) && Run(p.lexer, s).Some? && |Run(p.lexer, s).value.text| < BUFFER_SIZE - 1
    ensures FeedAll(p, s, accept) == p.(lexer := Run(p.lexer, s).value)
    decreases |s|
  {
    hide Apply, TakeToken;
    if s != "" {
      ApplyGrows(p.lexer, s[0]);
      RunGrows(Advance(Apply(p.lexer, s[0]).value, s[0]), s[1..]);
      FeedRun(Feed(p, s[0], accept), s[1..], accept);
    }
  }

  lemma ApplyGrows(l: Lexer, c: char)
    requires Apply(l, c).Some?
    ensures var m := Apply(l, c).value; |l.text| <= |m.text| <= |l.text| + 1 && m.start == l.start
  {
  }

  lemma {:induction false} RunGrows(l: Lexer, s: string)
    requires Run(l, s).Some?
    ensures |l.text| <= |Run(l, s).value.text|
    decreases |s|
  {
    if s != "" {
      ApplyGrows(l, s[0]);
      RunGrows(Advance(Apply(l, s[0]).value, s[0]), s[1..]);
    }
  }

  /** The token of a word that stood at the end of the buffer. */
  predicate TokenFor(t: Token, w: Word, at: nat) {
    t.kind == Kind(w) && t.data == Data(w) && t.place == if Data(w) == "" then Static else Buffer(at)
  }

  /** The token that the characters make, and the lexer that has finished it. */
  function Collected(l: Lexer, text: string): Option<(Lexer, Token)> {
    var m := Run(l, text);
    if m.None? || m.value.start > |m.value.text| || !Finish(m.value).TokenDone? then None
    else Some((Finish(m.value).lexer, Finish(m.value).token))
  }

  /** The token that is finished is the word. */
  lemma WordEnds(l: Lexer, w: Word, text: string)
    requires Starts(l, w) && WordOk(w) && Writes(text, w) && l.start == |l.text|
    ensures Collected(l, text).Some? && var (n, t) := Collected(l, text).value;
      && TokenFor(t, w, |l.text|) && n.mode == Mode.Init && n.start == |n.text| <= |l.text| + |Data(w)| + 1
      && n.indent == 0 && n.prev == Run(l, text).value.prev
  {
    WordRun(l, w, text);
    KindOfEnd(w, Run(l, text).value.mode);
    hide Run, WordOk, Writes, EndsIn, Kind, NumeralMode;
    var m := Run(l, text).value;
    assert m.text[m.start..] == Data(w);
  }

  lemma KindOfEnd(w: Word, mode: Mode)
    requires EndsIn(w, mode)
    ensures TypeOf(mode) == Some(Kind(w)) && mode != Mode.Init
  {
  }

  /** A word as it stands in a file, with the spaces behind it. */
  datatype Laid = Laid(word: Word, text: string, gap: string)

  predicate LaidOk(x: Laid) {
    WordOk(x.word) && Writes(x.text, x.word) && AllSpaces(x.gap)
  }

  function Text(xs: seq<Laid>): string {
    if xs == [] then "" else xs[0].text + xs[0].gap + Text(xs[1..])
  }

  /** The parser when the token of the word has been handled and the spaces have been passed over. */
  function Took(p: Parser, x: Laid, accept: Callback): Parser {
    var c := Collected(p.lexer, x.text);
    if c.None? || p.sel > SECTION_COUNT then p
    else FeedAll(Handle(p.(lexer := c.value.0), c.value.1, false, accept), x.gap, accept)
  }

  function TookAll(p: Parser, xs: seq<Laid>, accept: Callback): Parser
    decreases |xs|
  {
    if xs == [] then p else TookAll(Took(p, xs[0], accept), xs[1..], accept)
  }

  lemma {:induction false} TookAppend(p: Parser, xs: seq<Laid>, ys: seq<Laid>, accept: Callback)
    ensures TookAll(p, xs + ys, accept) == TookAll(TookAll(p, xs, accept), ys, accept)
    decreases |xs|
  {
    hide Took;
    if xs == [] {
      assert xs + ys == ys;
    } else {
      assert (xs + ys)[0] == xs[0] && (xs + ys)[1..] == xs[1..] + ys;
      TookAppend(Took(p, xs[0], accept), xs[1..], ys, accept);
    }
  }

  /** The parser is ready for the word. */
  predicate Fits(p: Parser, x: Laid) {
    LaidOk(x) && Rests(p, |p.lexer.text|) && |p.lexer.text| + |Data(x.word)| + 3 < BUFFER_SIZE && Starts(p.lexer, x.word)
  }

  predicate FitsAll(p: Parser, xs: seq<Laid>, accept: Callback)
    decreases |xs|
  {
    xs == [] || (Fits(p, xs[0]) && FitsAll(Took(p, xs[0], accept), xs[1..], accept))
  }

  lemma {:induction false} FitsAppend(p: Parser, xs: seq<Laid>, ys: seq<Laid>, accept: Callback)
    requires FitsAll(p, xs, accept) && FitsAll(TookAll(p, xs, accept), ys, accept)
    ensures FitsAll(p, xs + ys, accept)
    decreases |xs|
  {
    hide Took, Fits;
    if xs == [] {
      assert xs + ys == ys;
    } else {
      assert (xs + ys)[0] == xs[0] && (xs + ys)[1..] == xs[1..] + ys;
      FitsAppend(Took(p, xs[0], accept), xs[1..], ys, accept);
    }
  }

  /** Something separates the word from what follows, or nothing follows that touches it. */
  predicate Parted(x: Laid, rest: string) {
    x.gap != "" || (rest != "" && !Touches(x.word, rest[0]))
  }

  /** The characters of a word lead to the parser that has taken it, as soon as they are followed by something. */
  lemma TextTaken(p: Parser, x: Laid, rest: string, accept: Callback)
    requires Fits(p, x) && Parted(x, rest)
    ensures FeedAll(p, x.text + x.gap + rest, accept) == FeedAll(Took(p, x, accept), rest, accept)
  {
    hide Writes, WordOk, Handle, Data, Apply, Finish, FeedAll, Feed, Touches, Run, Starts;
    var s := x.gap + rest;
    WordRun(p.lexer, x.word, x.text);
    WordEnds(p.lexer, x.word, x.text);
    GapEnds(x.word, x.gap, rest);
    WordStops(p.lexer, Run(p.lexer, x.text), x.word, s[0]);
    CollectedSmall(p.lexer, x.word, x.text);
    FeedRun(p, x.text, accept);
    assert x.text + x.gap + rest == x.text + s;
    FeedAppend(p, x.text, s, accept);
    var h := Handle(p.(lexer := Collected(p.lexer, x.text).value.0), Collected(p.lexer, x.text).value.1, false, accept);
    StopsAt(p, x.text, s[0], accept);
    FirstFed(p.(lexer := Run(p.lexer, x.text).value), h, s, accept);
    FeedAppend(h, x.gap, rest, accept);
  }

  lemma CollectedSmall(l: Lexer, w: Word, text: string)
    requires Collects(l, Run(l, text), w)
    ensures |Run(l, text).value.text| == |l.text| + |Data(w)| && Run(l, text).value.start == l.start
  {
  }

  lemma GapEnds(w: Word, gap: string, rest: string)
    requires AllSpaces(gap) && (gap != "" || (rest != "" && !Touches(w, rest[0])))
    ensures gap + rest != "" && !Touches(w, (gap + rest)[0])
  {
    if gap != "" { assert (gap + rest)[0] == gap[0]; }
  }

  lemma FirstFed(u: Parser, h: Parser, s: string, accept: Callback)
    requires s != "" && Feed(u, s[0], accept) == Feed(h, s[0], accept)
    ensures FeedAll(u, s, accept) == FeedAll(h, s, accept)
  {
    hide Feed;
  }

  /** The character that ends a word is the first one after its token has been handled. */
  lemma StopsAt(p: Parser, text: string, c: char, accept: Callback)
    requires p.error == NoError && p.sel <= SECTION_COUNT && Collected(p.lexer, text).Some? && Apply(Run(p.lexer, text).value, c).None?
    requires |Run(p.lexer, text).value.text| < BUFFER_SIZE - 1 && Collected(p.lexer, text).value.0.mode == Mode.Init
    ensures var h := Handle(p.(lexer := Collected(p.lexer, text).value.0), Collected(p.lexer, text).value.1, false, accept);
      Feed(p.(lexer := Run(p.lexer, text).value), c, accept) == Feed(h, c, accept)
  {
    hide Run, Finish, Apply, Handle;
    var (l, t) := Collected(p.lexer, text).value;
    HandleInit(p.(lexer := l), t, accept);
    var h := Handle(p.(lexer := l), t, false, accept);
    FedOnce(h, c, accept);
  }

  /** A parser that waits for a word takes any character at once. */
  lemma FedOnce(h: Parser, c: char, accept: Callback)
    requires h.lexer.mode == Mode.Init
    ensures Feed(h, c, accept) == if h.error == NoError && Sound(h) then Look(h, c, accept).0 else h
  {
    hide TakeToken, Sections;
    InitTakesAll(h.lexer, c);
    hide Apply;
  }

  lemma HandleInit(p: Parser, t: Token, accept: Callback)
    requires p.lexer.mode == Mode.Init && p.sel <= SECTION_COUNT
    ensures Handle(p, t, false, accept).lexer.mode == Mode.Init
  {
    BeginInit(p, t);
    hide Next, WellPlaced, Sections, Begin, Follow;
    if p.hasMachine && |p.machine.queue| < STACK_SIZE && WellPlaced(p.machine) && Next(p.machine, t).Taken? {
      FollowInit(p, Next(p.machine, t).machine, Next(p.machine, t).repeat, t, accept);
    }
  }

  lemma BeginInit(p: Parser, t: Token)
    requires p.lexer.mode == Mode.Init && p.sel <= SECTION_COUNT
    ensures Begin(p, t).lexer.mode == Mode.Init
  {
    hide Sections;
  }

  lemma FollowInit(p: Parser, m: Machine, repeat: bool, t: Token, accept: Callback)
    requires p.lexer.mode == Mode.Init && p.sel <= SECTION_COUNT
    ensures Follow(p, m, repeat, t, false, accept).lexer.mode == Mode.Init
  {
    hide Begin, ResultOf, WellPlaced;
    if WellPlaced(m) && ResultOf(m).Ready? { BeginInit(Deliver(p, ResultOf(m).section, accept), t); }
  }

  /** Spaces change nothing but the lexer. */
  lemma {:induction false} GapTaken(p: Parser, gap: string, accept: Callback)
    requires Rests(p, |p.lexer.text|) && |p.lexer.text| < BUFFER_SIZE - 1 && AllSpaces(gap)
    ensures var q := FeedAll(p, gap, accept);
      && q == p.(lexer := q.lexer) && q.lexer.text == p.lexer.text && Rests(q, |p.lexer.text|)
      && (gap == "" ==> q == p) && (gap != "" ==> Apart(q.lexer))
    decreases |gap|
  {
    hide TakeToken, Sections;
    if gap != "" {
      var q := Feed(p, gap[0], accept);
      assert q == p.(lexer := q.lexer) && q.lexer.text == p.lexer.text && q.lexer.indent > 0;
      GapTaken(q, gap[1..], accept);
      if gap[1..] == "" { assert Apart(q.lexer); }
    }
  }

  /** All words of a text: each is parted from the next, and something follows. */
  predicate AllParted(xs: seq<Laid>, rest: string) {
    xs == [] || (Parted(xs[0], Text(xs[1..]) + rest) && AllParted(xs[1..], rest))
  }

  lemma {:induction false} LinesTaken(p: Parser, xs: seq<Laid>, rest: string, accept: Callback)
    requires FitsAll(p, xs, accept) && AllParted(xs, rest)
    ensures FeedAll(p, Text(xs) + rest, accept) == FeedAll(TookAll(p, xs, accept), rest, accept)
    decreases |xs|
  {
    hide Took, Fits, Parted, FeedAll;
    if xs == [] {
      assert Text(xs) + rest == rest;
    } else {
      var more := Text(xs[1..]) + rest;
      assert Text(xs) + rest == xs[0].text + xs[0].gap + more;
      TextTaken(p, xs[0], more, accept);
      LinesTaken(Took(p, xs[0], accept), xs[1..], rest, accept);
    }
  }
}
