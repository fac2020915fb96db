/** Single inputs, fed from the start, for which the parser of libnetq/dbc/DBCParser.c does what it should not. */
module DBCParserInputs {
  import opened Words
  import opened DBCLexer
  import opened CStrToNum
  import opened DBCMachine
  import opened DBCTyping
  import opened DBCTables
  import DBCTableChecks
  import opened DBCParserModel
  import opened DBCParserSafety

  /** Nothing has stopped the parser, and the open token is `w`. */
  ghost predicate Reading(p: Parser, mode: Mode, w: string) {
    && p.error == NoError && Sound(p) && |p.lexer.text| < 1000
    && p.lexer.mode == mode && p.lexer.text[p.lexer.start..] == w
  }

  lemma TakesCharacter(p: Parser, mode: Mode, w: string, c: char, next: Mode, accept: Callback)
    requires Reading(p, mode, w) && |p.lexer.text| < 900
    requires Apply(p.lexer, c).Some? && Apply(p.lexer, c).value == Put(Apply(p.lexer, c).value.(text := p.lexer.text), next, c)
    requires Apply(p.lexer, c).value.start == p.lexer.start
    ensures var q := Feed(p, c, accept);
      Reading(q, next, w + [c]) && q == p.(lexer := q.lexer) && |q.lexer.text| == |p.lexer.text| + 1
  {
    hide Apply, Sections;
    assert (p.lexer.text + [c])[p.lexer.start..] == p.lexer.text[p.lexer.start..] + [c];
  }

  /** The rest of an identifier. */
  lemma {:induction false} ReadsOn(p: Parser, w: string, more: string, accept: Callback)
    requires Reading(p, CIdentifier, w) && AllIdentifier(more) && |p.lexer.text| + |more| < 900
    ensures var q := FeedAll(p, more, accept);
      Reading(q, CIdentifier, w + more) && q == p.(lexer := q.lexer) && |q.lexer.text| == |p.lexer.text| + |more|
    decreases |more|
  {
    hide Sections, Feed, Reading;
    if more == [] {
      assert w + [] == w;
    } else {
      TakesIdentifier(p, w, more[0], accept);
      ReadsOn(Feed(p, more[0], accept), w + [more[0]], more[1..], accept);
      assert w + [more[0]] + more[1..] == w + more;
    }
  }

  lemma TakesIdentifier(p: Parser, w: string, c: char, accept: Callback)
    requires Reading(p, CIdentifier, w) && IsNextIdentifier(c) && |p.lexer.text| < 900
    ensures var q := Feed(p, c, accept);
      Reading(q, CIdentifier, w + [c]) && q == p.(lexer := q.lexer) && |q.lexer.text| == |p.lexer.text| + 1
  {
    hide Sections;
    TakesCharacter(p, CIdentifier, w, c, CIdentifier, accept);
  }

  /** A word at the very beginning. */
  lemma ReadsWord(word: string, accept: Callback)
    requires word != "" && IsFirstIdentifier(word[0]) && AllIdentifier(word) && |word| < 100
    ensures var q := FeedAll(Create(), word, accept);
      Reading(q, CIdentifier, word) && q == Create().(lexer := q.lexer) && |q.lexer.text| == |word|
  {
    hide Sections;
    var c := word[0];
    assert [c] + word[1..] == word;
    assert Reading(Feed(Create(), c, accept), CIdentifier, [c]);
    ReadsOn(Feed(Create(), c, accept), [c], word[1..], accept);
  }

  /** The token `w` is closed by a character that is not part of it, and handled. */
  lemma EndsToken(p: Parser, mode: Mode, w: string, c: char, accept: Callback)
    requires Reading(p, mode, w) && |p.lexer.text| < 900 && TypeOf(mode).Some? && w != "" && Apply(p.lexer, c).None?
    ensures Sound(p) && Finish(p.lexer).TokenDone?
    ensures var f := Finish(p.lexer); var q := Handle(p.(lexer := f.lexer), f.token, false, accept);
      && f.token.kind == TypeOf(mode).value && f.token.data == w
      && f.lexer.mode == Mode.Init && f.lexer.text == p.lexer.text + [NIL] && f.lexer.start == |f.lexer.text|
      && Feed(p, c, accept) == if q.error == NoError && Sound(q) then Look(q, c, accept).0 else q
  {
    hide Handle, Sections;
  }

  /** A first character that stands for a token of its own kind. */
  lemma OpensToken(q: Parser, c: char, accept: Callback)
    requires q.error == NoError && Sound(q) && q.lexer.mode == Mode.Init && q.lexer.start == |q.lexer.text| < 900 && (IsDigit(c) || c == ':' || c == '@')
    ensures var n := Look(q, c, accept).0;
      Reading(n, if IsDigit(c) then UInteger else AnySymbol, [c]) && n == q.(lexer := n.lexer) && |n.lexer.text| == |q.lexer.text| + 1
  {
    hide Sections;
    assert (q.lexer.text + [c])[q.lexer.start..] == [c];
  }

  // ---------- an integer of two digits for a byte order

  /** Inside a SGTYPE_ section, at item `item` of its first opcode. */
  ghost predicate Waiting(p: Parser, item: nat, mode: Mode, w: string) {
    && Reading(p, mode, w) && p.hasMachine && |p.lexer.text| < 100 + 10 * item + |w|
    && p.machine == Machine(Table(SIGNAL_TYPES), 0, item, 0, false, p.machine.queue) && |p.machine.queue| <= item
  }

  /** The tokens "a", ":", "1" and "@" are what the first four items wait for. */
  predicate Expected(item: nat, mode: Mode, w: string) {
    match item
    case 0 => mode == CIdentifier && w == "a"
    case 1 => mode == AnySymbol && w == ":"
    case 2 => mode == UInteger && w == "1"
    case 3 => mode == AnySymbol && w == "@"
    case _ => false
  }

  lemma FirstRow()
    ensures |Table(SIGNAL_TYPES)| == 2
    ensures var pattern := Table(SIGNAL_TYPES)[0].pattern;
      |pattern| > 5 && pattern[..5] == [Mark(KEYWORD), Lit(":"), Mark(UINTEGER), Lit("@"), Mark(ENDIAN)]
  {
  }

  lemma OneIsRead()
    ensures StrToUint32("1", 10) == (1, 1)
  {
    assert "1"[..0] == "" && Decimal("") == 0 && Decimal("1") == 1;
    StrToUint32Exact("1");
  }

  lemma RowWellPlaced(m: Machine)
    requires m.table == Table(SIGNAL_TYPES) && m.opcode == 0 && m.item <= 4 && m.offset == 0
    ensures WellPlaced(m)
  {
    SignalTypesOk();
    RowsMakeTable(SIGNAL_TYPES);
    assert OpcodeOk(m.table, Shapes(SIGNAL_TYPES), 0);
    FirstRow();
    var pattern := m.table[0].pattern;
    assert forall i :: 0 <= i < 5 ==> pattern[i] == pattern[..5][i];
  }

  lemma SignalTypesOk()
    ensures RowsOk(SIGNAL_TYPES)
  {
    DBCTableChecks.SignalTypes();
  }

  /** The machine takes the token and waits for the next one. */
  lemma TakesItem(m: Machine, item: nat, mode: Mode, t: Token)
    requires m == Machine(Table(SIGNAL_TYPES), 0, item, 0, false, m.queue) && Expected(item, mode, t.data) && TypeOf(mode) == Some(t.kind)
    ensures WellPlaced(m)
    ensures var r := Next(m, t);
      && r.Taken? && !r.repeat
      && r.machine == Machine(Table(SIGNAL_TYPES), 0, item + 1, 0, false, r.machine.queue) && |r.machine.queue| <= |m.queue| + 1
      && WellPlaced(r.machine) && ResultOf(r.machine) == More(r.machine)
  {
    hide Table, StrToUint32, RowsOk;
    FirstRow();
    RowWellPlaced(m);
    RowWellPlaced(m.(item := item + 1));
    OneIsRead();
    var pattern := m.table[0].pattern;
    assert forall i :: 0 <= i < 5 ==> pattern[i] == pattern[..5][i];
  }

  lemma Matched(p: Parser, item: nat, mode: Mode, w: string, c: char, accept: Callback)
    requires Waiting(p, item, mode, w) && Expected(item, mode, w) && Apply(p.lexer, c).None? && (IsDigit(c) || c == ':' || c == '@')
    ensures Waiting(Feed(p, c, accept), item + 1, if IsDigit(c) then UInteger else AnySymbol, [c])
  {
    hide Sections, Table, Next, ResultOf, Apply, Look, Feed;
    EndsToken(p, mode, w, c, accept);
    var f := Finish(p.lexer);
    TakesItem(p.machine, item, mode, f.token);
    var q := Handle(p.(lexer := f.lexer), f.token, false, accept);
    OpensToken(q, c, accept);
  }

  lemma ChosenAtFirst(l: Lexer, keyword: string)
    requires Choose(Create(), keyword).Some?
    ensures Choose(Create().(lexer := l), keyword) == Some(Choose(Create(), keyword).value.(lexer := l))
  {
    hide Sections;
  }

  lemma BeginsFresh(l: Lexer, t: Token)
    requires Choose(Create(), t.data).Some? && t.kind == IdentifierToken && t.data != "" && t.data[0] != '\n'
    ensures var q := Begin(Create().(lexer := l), t); var chosen := Choose(Create(), t.data).value;
      && q.error == NoError && q.hasMachine && q.sel == chosen.sel && q.lexer == l
      && q.machine == Machine(Table(chosen.current.rows), 0, 0, 0, false, [])
  {
    hide Sections, Choose;
    ChosenAtFirst(l, t.data);
    SelStays(t.data);
  }

  lemma SelStays(keyword: string)
    requires Choose(Create(), keyword).Some?
    ensures Choose(Create(), keyword).value.sel <= SECTION_COUNT && Choose(Create(), keyword).value.used == {} && Choose(Create(), keyword).value.error == NoError
    ensures Choose(Create(), keyword).value.current.required in {'?', '1', '*'}
  {
    hide Sections, Known;
    CreateInv();
    ChooseInv(Create(), keyword);
    KnownTied(Choose(Create(), keyword).value.current);
  }

  /** A keyword and a space at the very beginning: its section has begun. */
  lemma KeywordBegins(word: string, accept: Callback)
    requires word != "" && IsFirstIdentifier(word[0]) && AllIdentifier(word) && |word| < 50 && Choose(Create(), word).Some?
    ensures var q := FeedAll(Create(), word + " ", accept);
      && q.error == NoError && Sound(q) && q.hasMachine && q.lexer.mode == Mode.Init && q.lexer.start == |q.lexer.text| < 60
      && q.machine == Machine(Table(Choose(Create(), word).value.current.rows), 0, 0, 0, false, [])
  {
    hide Sections, Choose, Begin, FeedAll;
    ReadsWord(word, accept);
    var p := FeedAll(Create(), word, accept);
    FeedAppend(Create(), word, " ", accept);
    FeedOne(p, ' ', accept);
    EndsToken(p, CIdentifier, word, ' ', accept);
    var f := Finish(p.lexer);
    BeginsFresh(f.lexer, f.token);
    SelStays(word);
  }

  lemma FeedOne(p: Parser, c: char, accept: Callback)
    ensures FeedAll(p, [c], accept) == Feed(p, c, accept)
  {
    assert [c][1..] == [];
  }

  /** Input that ends inside a section and is accepted: a version without its text. */
  lemma TruncatedInput(accept: Callback)
    ensures var p := FeedAll(Create(), "VERSION ", accept);
      p.error == NoError && p.hasMachine && End(p, accept) == p
  {
    hide Table, FeedAll;
    assert Choose(Create(), "VERSION") == Some(Create());
    KeywordBegins("VERSION", accept);
    assert "VERSION" + " " == "VERSION ";
  }

  lemma SignalTypeKeyword()
    ensures Choose(Create(), "SGTYPE_").Some? && Choose(Create(), "SGTYPE_").value.current.rows == SIGNAL_TYPES
  {
    var s := Sections();
    NotBefore(s, 0, "SGTYPE_", 9);
  }

  lemma {:induction false} NotBefore(s: seq<ParserSection>, from: nat, keyword: string, k: nat)
    requires from <= k < |s| && s[k].keyword == keyword && forall i :: from <= i < k ==> s[i].keyword != keyword
    ensures FindKeyword(s, from, keyword) == k
    decreases k - from
  {
    if from < k { NotBefore(s, from + 1, keyword, k); }
  }

  lemma StartsWaiting(accept: Callback)
    ensures Waiting(FeedAll(Create(), "SGTYPE_ a", accept), 0, CIdentifier, "a")
  {
    hide Sections, Table, Choose, FeedAll;
    SignalTypeKeyword();
    KeywordBegins("SGTYPE_", accept);
    assert "SGTYPE_" + " " == "SGTYPE_ " && "SGTYPE_ " + "a" == "SGTYPE_ a";
    var p := FeedAll(Create(), "SGTYPE_ ", accept);
    FeedAppend(Create(), "SGTYPE_ ", "a", accept);
    FeedOne(p, 'a', accept);
    assert (p.lexer.text + ['a'])[p.lexer.start..] == ['a'];
  }

  lemma EndsInCrash(p: Parser, accept: Callback)
    requires Waiting(p, 4, UInteger, "10")
    ensures Feed(p, ';', accept).error == Crash
  {
    hide Sections, Table, Look, Feed;
    EndsToken(p, UInteger, "10", ';', accept);
    FirstRow();
    RowWellPlaced(p.machine);
    assert p.machine.table[0].pattern[4] == p.machine.table[0].pattern[..5][4] == Mark(ENDIAN);
  }

  lemma OneFurther(word: string, c: char, whole: string, accept: Callback)
    requires whole == word + [c]
    ensures FeedAll(Create(), whole, accept) == Feed(FeedAll(Create(), word, accept), c, accept)
  {
    hide Feed, Sections;
    FeedAppend(Create(), word, [c], accept);
    FeedOne(FeedAll(Create(), word, accept), c, accept);
  }

  /** A token that is expected, and the character that closes it. */
  lemma Further(word: string, item: nat, mode: Mode, w: string, c: char, whole: string, accept: Callback)
    requires whole == word + [c] && Waiting(FeedAll(Create(), word, accept), item, mode, w) && Expected(item, mode, w)
    requires (IsDigit(c) && mode == AnySymbol) || c == ':' || c == '@'
    ensures Waiting(FeedAll(Create(), whole, accept), item + 1, if IsDigit(c) then UInteger else AnySymbol, [c])
  {
    hide Sections, Table, Feed, FeedAll, Waiting, Apply;
    var p := FeedAll(Create(), word, accept);
    Separate(p, item, mode, w, c);
    Matched(p, item, mode, w, c, accept);
    OneFurther(word, c, whole, accept);
  }

  /** A signal type whose byte order has two digits: an assertion fails. */
  lemma LongEndianInput(accept: Callback)
    ensures FeedAll(Create(), "SGTYPE_ a:1@10;", accept).error == Crash
  {
    hide Sections, Table, Feed, FeedAll, Waiting;
    StartsWaiting(accept);
    Further("SGTYPE_ a", 0, CIdentifier, "a", ':', "SGTYPE_ a:", accept);
    Further("SGTYPE_ a:", 1, AnySymbol, ":", '1', "SGTYPE_ a:1", accept);
    Further("SGTYPE_ a:1", 2, UInteger, "1", '@', "SGTYPE_ a:1@", accept);
    Further("SGTYPE_ a:1@", 3, AnySymbol, "@", '1', "SGTYPE_ a:1@1", accept);
    SecondDigit(FeedAll(Create(), "SGTYPE_ a:1@1", accept), accept);
    OneFurther("SGTYPE_ a:1@1", '0', "SGTYPE_ a:1@10", accept);
    EndsInCrash(FeedAll(Create(), "SGTYPE_ a:1@10", accept), accept);
    OneFurther("SGTYPE_ a:1@10", ';', "SGTYPE_ a:1@10;", accept);
  }

  /** A character that closes the open token. */
  lemma Separate(p: Parser, item: nat, mode: Mode, w: string, c: char)
    requires Waiting(p, item, mode, w) && (mode == AnySymbol || (mode in {CIdentifier, UInteger} && (c == ':' || c == '@')))
    ensures Apply(p.lexer, c).None?
  {
  }

  lemma SecondDigit(p: Parser, accept: Callback)
    requires Waiting(p, 4, UInteger, "1")
    ensures Waiting(Feed(p, '0', accept), 4, UInteger, "10")
  {
    hide Sections, Table;
    TakesCharacter(p, UInteger, "1", '0', UInteger, accept);
    assert "1" + ['0'] == "10";
  }
}
