/** A file of messages and signals is read back: exactly its messages and signals are delivered, in order, from the start
    of the parser on, however the words are laid out and however the input is cut. */
module DBCReadBack {
  import opened Words
  import opened DBCLexer
  import opened DBCMachine
  import opened DBCTables
  import opened DBCParserModel
  import opened DBCWords
  import opened DBCLayout
  import opened DBCMeaning
  import opened DBCRows
  import opened DBCMessages
  import opened DBCRoundTrip

  // ---------- what is written

  /** How a message is written: BO_ id name : size sender, and its signals line by line. */
  function MessageWords(m: Message): seq<Word> {
    [Natural(m.id), Name(m.name)] + [Sym(':'), Natural(m.size)] + [Name(m.sender)]
  }

  function HeaderWords(m: Message): seq<Word> {
    [Name("BO_")] + (MessageWords(m) + [NEWLINE])
  }

  function SignalWords(s: Signal): seq<Word> {
    [Name("SG_")] + (BodyWords(s) + [NEWLINE])
  }

  function SignalsWords(ss: seq<Signal>): seq<Word> {
    if ss == [] then [] else SignalWords(ss[0]) + SignalsWords(ss[1..])
  }

  function NetworkWords(ms: seq<Message>): seq<Word> {
    if ms == [] then [] else (HeaderWords(ms[0]) + SignalsWords(ms[0].signals)) + NetworkWords(ms[1..])
  }

  /** A layout that can be read: words that stand side by side without a space do not run together. */
  predicate Legible(xs: seq<Laid>) {
    && (forall i :: 0 <= i < |xs| ==> LaidOk(xs[i]))
    && forall i :: 0 <= i < |xs| - 1 && xs[i].gap == "" ==> Beside(xs[i], xs[i + 1])
  }

  predicate Beside(x: Laid, y: Laid) {
    y.text != "" && !Touches(x.word, y.text[0]) && (AfterDigit(Some(x)) ==> !IsSigned(y.word))
  }

  // ---------- what is delivered

  function MessageSection(m: Message): Section {
    Section("initMessage", [Uint32(m.id), Identifier(Static, m.name)] + [Uint32(m.size)] + [Identifier(Static, m.sender)], false)
  }

  function SignalSections(ss: seq<Signal>): seq<Section> {
    if ss == [] then [] else [SignalSection(ss[0])] + SignalSections(ss[1..])
  }

  function NetworkSections(ms: seq<Message>): seq<Section> {
    if ms == [] then [] else [MessageSection(ms[0])] + SignalSections(ms[0].signals) + NetworkSections(ms[1..])
  }

  /** Sections without the places of their texts. */
  function PlainSections(ss: seq<Section>): (r: seq<Section>)
    ensures |r| == |ss|
  {
    seq(|ss|, i requires 0 <= i < |ss| => ss[i].(values := PlainAll(ss[i].values)))
  }

  /** Names are identifiers and numbers are numbers; integers fit 32 bits, and a line fits the buffer. */
  predicate MessageOk(m: Message) {
    && m.id < WORD && m.size < WORD && NameOk(m.name) && NameOk(m.sender) && Cost(MessageWords(m)) + 32 < BUFFER_SIZE
    && forall i :: 0 <= i < |m.signals| ==> SignalOk(m.signals[i]) && SignalFits(m.signals[i])
  }

  // ---------- between the lines

  function BoSection(): ParserSection { Sections()[5] }

  function SgSection(): ParserSection { MESSAGE_CHILDREN[0] }

  /** At the start, or behind a message or a signal. */
  predicate Between(p: Parser) {
    && Rests(p, 2) && !p.hasMachine
    && ((p.parent.None? && p.current == Sections()[0] && p.sel == 0) || InMessages(p))
  }

  predicate InMessages(p: Parser) {
    p.parent == Some(BoSection()) && p.sel == 5 && (p.current == BoSection() || p.current == SgSection())
  }

  /** What has been delivered in addition. */
  predicate Adds(p: Parser, q: Parser, ss: seq<Section>) {
    Between(q) && PlainSections(q.sections) == PlainSections(p.sections) + ss
  }

  lemma StartIsBetween()
    ensures Between(Create()) && Create().sections == [] && Behind(Create().lexer, None)
  {
  }

  lemma FindsMessages()
    ensures FindKeyword(Sections(), 0, "BO_") == 5 && FindKeyword(Sections(), 5, "BO_") == 5
    ensures Sections()[0].keyword != "BO_" && Sections()[5].keyword == "BO_" && Sections()[5].children == MESSAGE_CHILDREN
  {
  }

  lemma ChooseMessage(p: Parser)
    requires Between(p)
    ensures Choose(p, "BO_") == Some(p.(sel := 5, current := BoSection(), parent := if p.current == BoSection() then p.parent else None))
  {
    FindsMessages();
    assert FindKeyword(MESSAGE_CHILDREN, 0, "BO_") == 2 && FindKeyword([], 0, "BO_") == 0;
    hide Sections, Rests;
  }

  lemma ChooseSignal(p: Parser)
    requires Between(p) && InMessages(p)
    ensures Choose(p, "SG_") == Some(p.(current := SgSection()))
  {
    FindsSignals();
    hide Sections, BoSection, SgSection, Rests;
  }

  lemma FindsSignals()
    ensures FindKeyword(BoSection().children, 0, "SG_") == 0 && BoSection().children != [] && BoSection().children[0] == SgSection()
    ensures BoSection().keyword == "BO_" && SgSection().keyword == "SG_"
  {
  }

  lemma AddsOne(p: Parser, q: Parser, section: Section)
    requires Between(q) && |q.sections| == |p.sections| + 1 && q.sections[..|p.sections|] == p.sections
    requires SameSection(q.sections[|p.sections|], section)
    ensures Adds(p, q, [section])
  {
    hide Between;
    var n := |p.sections|;
    assert q.sections == p.sections + [q.sections[n]];
    assert q.sections[n].(values := PlainAll(q.sections[n].values)) == section;
  }

  lemma AddsBoth(p: Parser, q: Parser, r: Parser, ss: seq<Section>, ts: seq<Section>)
    requires Adds(p, q, ss) && Adds(q, r, ts)
    ensures Adds(p, r, ss + ts)
  {
    hide Between, PlainSections;
    assert PlainSections(p.sections) + ss + ts == PlainSections(p.sections) + (ss + ts);
  }

  // ---------- lines

  predicate MessageTable(t: seq<Opcode>) {
    t == [Opcode(0, '1', MessagePattern(), Some(MessageInit()))]
  }

  lemma MessageRows()
    ensures BoSection().required == '*' && MessageTable(Table(BoSection().rows))
    ensures NoEmptyLit(MessagePattern()) && MessagePattern() != []
  {
  }

  lemma SignalRowsOf()
    ensures SgSection().required == '*' && SignalTable(Table(SgSection().rows))
  {
    SignalRows();
  }

  lemma TakesOne(f: Field, v: Value, fields: seq<Field>, rest: seq<Value>)
    requires (f == TakeUint && v.Uint32?) || (f == TakeIdentifier && v.Identifier?)
    requires ShiftFields(fields, rest) == Shifted(rest, [])
    ensures ShiftFields([f] + fields, [v] + rest) == Shifted([v] + rest, [])
  {
    assert ([v] + rest)[1..] == rest;
    ShiftOne(f, v, fields, rest);
  }

  lemma MessageTaken(m: Message)
    ensures TakesAllOf(MessageInit(), MessageSection(m).values)
  {
    var id, name, size, sender := Uint32(m.id), Identifier(Static, m.name), Uint32(m.size), Identifier(Static, m.sender);
    assert ShiftFields([], []) == Shifted([], []);
    hide ShiftFields;
    TakesOne(TakeIdentifier, sender, [], []);
    TakesOne(TakeUint, size, [TakeIdentifier] + [], [sender] + []);
    TakesOne(TakeIdentifier, name, [TakeUint] + ([TakeIdentifier] + []), [size] + ([sender] + []));
    TakesOne(TakeUint, id, [TakeIdentifier] + ([TakeUint] + ([TakeIdentifier] + [])), [name] + ([size] + ([sender] + [])));
    assert [id] + ([name] + ([size] + ([sender] + []))) == MessageSection(m).values;
    assert [TakeUint] + ([TakeIdentifier] + ([TakeUint] + ([TakeIdentifier] + []))) == MessageInit().fields;
  }

  function MessagePattern(): seq<Item> { [Mark(UINTEGER), Mark(KEYWORD), Lit(":"), Mark(UINTEGER), Mark(KEYWORD)] }

  function MessageInit(): Init {
    Init.Init("initMessage", [TakeUint, TakeIdentifier, TakeUint, TakeIdentifier], false, false)
  }

  lemma MessageSpelled(m: Message)
    requires MessageOk(m)
    ensures Spelled(MessagePattern(), 0, 0, MessageWords(m)) == Some(MessageSection(m).values)
  {
    NaturalMeans(m.id);
    NaturalMeans(m.size);
    var id, name, size, sender := [Uint32(m.id)], [Identifier(Static, m.name)], [Uint32(m.size)], [Identifier(Static, m.sender)];
    One(UINTEGER, Natural(m.id), id);
    One(KEYWORD, Name(m.name), name);
    SymbolAnd(':', UINTEGER, Natural(m.size), size);
    One(KEYWORD, Name(m.sender), sender);
    var a, b, c, d := [Mark(UINTEGER)], [Mark(KEYWORD)], [Lit(":"), Mark(UINTEGER)], [Mark(KEYWORD)];
    hide Means, Spelled, Natural, NameOk;
    Both(a, [Natural(m.id)], id, b, [Name(m.name)], name);
    Both(a + b, [Natural(m.id)] + [Name(m.name)], id + name, c, [Sym(':'), Natural(m.size)], size);
    Both(a + b + c, [Natural(m.id)] + [Name(m.name)] + [Sym(':'), Natural(m.size)], id + name + size, d, [Name(m.sender)], sender);
    assert [Natural(m.id)] + [Name(m.name)] == [Natural(m.id), Name(m.name)] && id + name == [id[0], name[0]];
    assert a + b + c + d == MessagePattern();
  }

  /** Words have been read, and the lexer is behind them. */
  predicate Passes(p: Parser, q: Parser, prev: Option<Laid>, xs: seq<Laid>, accept: Callback) {
    FitsAll(p, xs, accept) && q == TookAll(p, xs, accept) && Behind(q.lexer, Last(prev, xs))
  }

  lemma PassesParts(p: Parser, q: Parser, r: Parser, prev: Option<Laid>, xs: seq<Laid>, n: nat, accept: Callback)
    requires n <= |xs| && Passes(p, q, prev, xs[..n], accept) && Passes(q, r, Last(prev, xs[..n]), xs[n..], accept)
    ensures Passes(p, r, prev, xs, accept)
  {
    hide FitsAll, TookAll, Behind;
    FitsAppend(p, xs[..n], xs[n..], accept);
    TookAppend(p, xs[..n], xs[n..], accept);
    assert xs[..n] + xs[n..] == xs;
  }

  lemma PassesOne(p: Parser, prev: Option<Laid>, x: Laid, accept: Callback)
    requires Fits(p, x) && Behind(Took(p, x, accept).lexer, Some(x))
    ensures Passes(p, Took(p, x, accept), prev, [x], accept)
  {
    OneTook(p, x, accept);
    hide FitsAll, TookAll, Took, Behind, Fits;
  }

  lemma BetweenRests(p: Parser)
    requires Between(p)
    ensures Rests(p, |p.lexer.text|) && |p.lexer.text| <= 2 && !p.hasMachine
  {
    hide BoSection, SgSection, Sections;
  }

  /** The first word of a line. */
  lemma KeywordFits(p: Parser, prev: Option<Laid>, xs: seq<Laid>, keyword: string, ws: seq<Word>)
    requires Between(p) && Behind(p.lexer, prev) && Spread(prev, xs) && WordsOf(xs) == [Name(keyword)] + ws && |keyword| == 3
    ensures xs != [] && Fits(p, xs[0]) && xs[0].word == Name(keyword) && WordsOf(xs[1..]) == ws && xs[..1] == [xs[0]]
    ensures Last(prev, xs[..1]) == Some(xs[0]) && Spread(Some(xs[0]), xs[1..])
  {
    hide Between, LaidOk, Behind, WordsOf, Rests;
    BetweenRests(p);
    WordsSplit(xs, [Name(keyword)], ws);
    assert WordsOf(xs[..1])[0] == Name(keyword) && xs[..1] == [xs[0]];
    StartsBehind(p, prev, xs[0]);
  }

  lemma StartsBehind(p: Parser, prev: Option<Laid>, x: Laid)
    requires Behind(p.lexer, prev) && LaidOk(x) && (AfterDigit(prev) ==> !IsSigned(x.word))
    requires Rests(p, |p.lexer.text|) && |p.lexer.text| + |Data(x.word)| + 3 < BUFFER_SIZE
    ensures Fits(p, x)
  {
    hide LaidOk;
  }

  /** The keyword of a message. */
  lemma MessageBegins(p: Parser, x: Laid, accept: Callback)
    requires Between(p) && Fits(p, x) && x.word == Name("BO_")
    ensures var q := Took(p, x, accept);
      && InRow(q, q, 0, 0, 0, []) && MessageTable(q.machine.table) && |q.lexer.text| <= 6 && q.sections == p.sections
      && q.sel == 5 && q.current == BoSection() && (q.parent.None? || q.parent == Some(BoSection())) && Behind(q.lexer, Some(x))
  {
    hide Took, Choose, Sections, BoSection, SgSection, MessagePattern, MessageInit, Table, InRow, NoEmptyLit, Fits, Behind, Rests;
    ChooseMessage(p);
    MessageRows();
    BetweenRests(p);
    SectionBegins(p, x, "BO_", accept);
  }

  lemma SignalBegins(p: Parser, x: Laid, accept: Callback)
    requires Between(p) && InMessages(p) && Fits(p, x) && x.word == Name("SG_")
    ensures var q := Took(p, x, accept);
      && InRow(q, q, 0, 0, 0, []) && SignalTable(q.machine.table) && |q.lexer.text| <= 6 && q.sections == p.sections
      && q.sel == 5 && q.current == SgSection() && q.parent == Some(BoSection()) && Behind(q.lexer, Some(x))
  {
    hide Took, NoEmptyLit, NamePattern, Choose, Sections, BoSection, SgSection, InfoPattern, OtherPattern, MultiplexPattern,
      SignalInit, Table, InRow, Fits, Behind, Rests;
    ChooseSignal(p);
    SignalRowsOf();
    SignalPatterns();
    BetweenRests(p);
    SectionBegins(p, x, "SG_", accept);
  }

  /** Behind a section. */
  lemma BehindSection(b: Parser, q: Parser, init: Init, vals: seq<Value>)
    requires Delivered(b, q, init, vals) && b.sel == 5 && (b.parent.None? || b.parent == Some(BoSection()))
    requires b.current == BoSection() || (b.current == SgSection() && b.parent.Some?)
    ensures Between(q) && InMessages(q) && |q.sections| == |b.sections| + 1 && q.sections[..|b.sections|] == b.sections
    ensures SameSection(q.sections[|b.sections|], Section(init.name, vals, false))
  {
    hide BoSection, SgSection, Sections, SameSection;
  }

  /** The words of a message behind its keyword: its section has been delivered. */
  lemma HeaderRead(b: Parser, m: Message, prev: Option<Laid>, xs: seq<Laid>, accept: Callback)
    requires InRow(b, b, 0, 0, 0, []) && MessageTable(b.machine.table) && |b.lexer.text| <= 6 && MessageOk(m) && AcceptsAll(accept)
    requires Behind(b.lexer, prev) && Spread(prev, xs) && WordsOf(xs) == MessageWords(m)
    ensures var q := TookAll(b, xs, accept);
      Delivered(b, q, MessageInit(), MessageSection(m).values) && Passes(b, q, prev, xs, accept)
  {
    MessageTaken(m);
    MessageSpelled(m);
    assert Cost(MessageWords(m)) + 32 < BUFFER_SIZE && |MessageWords(m)| == 5;
    var vs := MessageSection(m).values;
    assert [] + vs == vs;
    hide Sections, MessageWords, MessagePattern, MessageInit, InRow, Cost, MessageOk, TakesAllOf, Spelled, MessageSection, AcceptsAll,
      Behind, Spread, WordsOf, Delivered, TookAll, FitsAll;
    RowRead(b, b, 0, 0, 0, [], prev, xs, vs, accept);
  }

  /** The end of the line of a message. */
  lemma HeaderEnds(p: Parser, x: Laid, accept: Callback)
    requires Between(p) && InMessages(p) && Rests(p, 0) && Fits(p, x) && x.word == NEWLINE
    ensures var q := Took(p, x, accept); Between(q) && InMessages(q) && q.sections == p.sections && Behind(q.lexer, Some(x))
  {
    hide BoSection, SgSection, Sections, Fits, Behind, Took;
    LineEnds(p, x, accept);
  }

  /** A message: its section, and the parser is behind it. */
  lemma MessageRead(p: Parser, m: Message, prev: Option<Laid>, xs: seq<Laid>, accept: Callback)
    requires Between(p) && MessageOk(m) && AcceptsAll(accept) && Behind(p.lexer, prev) && Spread(prev, xs) && WordsOf(xs) == HeaderWords(m)
    ensures var q := TookAll(p, xs, accept); Adds(p, q, [MessageSection(m)]) && InMessages(q) && Passes(p, q, prev, xs, accept)
  {
    hide Between, InMessages, Took, TookAll, FitsAll, Fits, InRow, Behind, Spread, WordsOf, MessageOk, AcceptsAll, MessageWords,
      MessageSection, Delivered, Sections, BoSection, SgSection, MessageTable, SameSection, Adds, MessageInit, Passes, Rests;
    var rest := xs[1..];
    KeywordFits(p, prev, xs, "BO_", MessageWords(m) + [NEWLINE]);
    MessageBegins(p, xs[0], accept);
    var b := Took(p, xs[0], accept);
    PassesOne(p, prev, xs[0], accept);
    LineOfMessage(b, m, Some(xs[0]), rest, accept);
    var q := TookAll(b, rest, accept);
    PassesParts(p, b, q, prev, xs, 1, accept);
    PassesIs(p, q, prev, xs, accept);
    AddsOne(p, q, MessageSection(m));
  }

  lemma PassesIs(p: Parser, q: Parser, prev: Option<Laid>, xs: seq<Laid>, accept: Callback)
    requires Passes(p, q, prev, xs, accept)
    ensures q == TookAll(p, xs, accept) && Behind(q.lexer, Last(prev, xs))
  {
  }

  lemma LineOfMessage(b: Parser, m: Message, prev: Option<Laid>, xs: seq<Laid>, accept: Callback)
    requires InRow(b, b, 0, 0, 0, []) && MessageTable(b.machine.table) && |b.lexer.text| <= 6 && MessageOk(m) && AcceptsAll(accept)
    requires b.sel == 5 && b.current == BoSection() && (b.parent.None? || b.parent == Some(BoSection()))
    requires Behind(b.lexer, prev) && Spread(prev, xs) && WordsOf(xs) == MessageWords(m) + [NEWLINE]
    ensures var q := TookAll(b, xs, accept);
      && Between(q) && InMessages(q) && |q.sections| == |b.sections| + 1 && q.sections[..|b.sections|] == b.sections
      && SameSection(q.sections[|b.sections|], MessageSection(m)) && Passes(b, q, prev, xs, accept)
  {
    hide Between, InMessages, Took, TookAll, FitsAll, Fits, InRow, Behind, Spread, WordsOf, MessageOk, AcceptsAll, MessageWords,
      MessageSection, Delivered, Sections, BoSection, SgSection, MessageTable, SameSection, MessageInit, Passes, Rests;
    var n := |MessageWords(m)|;
    WordsSplit(xs, MessageWords(m), [NEWLINE]);
    SpreadSplits(prev, xs, n);
    HeaderRead(b, m, prev, xs[..n], accept);
    var d := TookAll(b, xs[..n], accept);
    PassesIs(b, d, prev, xs[..n], accept);
    BehindSection(b, d, MessageInit(), MessageSection(m).values);
    NameOfSection(m);
    LastFits(d, Last(prev, xs[..n]), xs[n..]);
    DeliveredRests(b, d, MessageInit(), MessageSection(m).values);
    HeaderEnds(d, xs[n], accept);
    PassesOne(d, Last(prev, xs[..n]), xs[n], accept);
    assert xs[n..] == [xs[n]];
    PassesParts(b, d, Took(d, xs[n], accept), prev, xs, n, accept);
    PassesIs(b, Took(d, xs[n], accept), prev, xs, accept);
  }

  lemma NameOfSection(m: Message)
    ensures Section(MessageInit().name, MessageSection(m).values, false) == MessageSection(m)
  {
  }

  lemma DeliveredRests(b: Parser, q: Parser, init: Init, vals: seq<Value>)
    requires Delivered(b, q, init, vals)
    ensures Rests(q, 0)
  {
  }

  /** The end of a line, between sections. */
  lemma LastFits(p: Parser, prev: Option<Laid>, xs: seq<Laid>)
    requires Between(p) && Behind(p.lexer, prev) && Spread(prev, xs) && WordsOf(xs) == [NEWLINE]
    ensures |xs| == 1 && Fits(p, xs[0]) && xs[0].word == NEWLINE
  {
    hide Between, LaidOk, Behind, WordsOf, Rests;
    BetweenRests(p);
    assert |xs| == 1 && WordsOf(xs)[0] == NEWLINE && |Data(NEWLINE)| == 1;
    StartsBehind(p, prev, xs[0]);
  }

  lemma SignalNamed(s: Signal)
    ensures Section(SignalInit(s.multiplexing == Plainly).name, SignalValues(s), false) == SignalSection(s)
  {
    hide SignalValues;
  }

  lemma SignalRead(p: Parser, s: Signal, prev: Option<Laid>, xs: seq<Laid>, accept: Callback)
    requires Between(p) && InMessages(p) && SignalOk(s) && SignalFits(s) && AcceptsAll(accept)
    requires Behind(p.lexer, prev) && Spread(prev, xs) && WordsOf(xs) == SignalWords(s)
    ensures var q := TookAll(p, xs, accept); Adds(p, q, [SignalSection(s)]) && InMessages(q) && Passes(p, q, prev, xs, accept)
  {
    hide Between, InMessages, Took, TookAll, FitsAll, Fits, InRow, Behind, Spread, WordsOf, SignalOk, SignalFits, AcceptsAll,
      BodyWords, Delivered, Sections, BoSection, SgSection, SignalTable, SameSection, SignalInit, SignalValues, SignalSection, Adds,
      Rests;
    SignalNamed(s);
    var rest := xs[1..];
    KeywordFits(p, prev, xs, "SG_", BodyWords(s) + [NEWLINE]);
    SignalBegins(p, xs[0], accept);
    var b := Took(p, xs[0], accept);
    PassesOne(p, prev, xs[0], accept);
    BodyRead(b, s, Some(xs[0]), rest, accept);
    var q := TookAll(b, rest, accept);
    BehindSection(b, q, SignalInit(s.multiplexing == Plainly), SignalValues(s));
    PassesParts(p, b, q, prev, xs, 1, accept);
    AddsOne(p, q, SignalSection(s));
  }

  lemma {:induction false} SignalsRead(p: Parser, ss: seq<Signal>, prev: Option<Laid>, xs: seq<Laid>, accept: Callback)
    requires Between(p) && InMessages(p) && AcceptsAll(accept) && forall i :: 0 <= i < |ss| ==> SignalOk(ss[i]) && SignalFits(ss[i])
    requires Behind(p.lexer, prev) && Spread(prev, xs) && WordsOf(xs) == SignalsWords(ss)
    ensures var q := TookAll(p, xs, accept); Adds(p, q, SignalSections(ss)) && InMessages(q) && Passes(p, q, prev, xs, accept)
    decreases |ss|
  {
    hide Between, SignalOk, SignalFits, SignalWords, SignalSection, AcceptsAll, InMessages, Behind, Spread, WordsOf, TookAll, Adds,
      Passes, PlainSections;
    if ss == [] {
      assert |xs| == |WordsOf(xs)| == 0 && xs == [];
      NothingAdded(p, prev, accept);
    } else {
      var n := |SignalWords(ss[0])|;
      WordsSplit(xs, SignalWords(ss[0]), SignalsWords(ss[1..]));
      SpreadSplits(prev, xs, n);
      SignalRead(p, ss[0], prev, xs[..n], accept);
      var q := TookAll(p, xs[..n], accept);
      AddsBetween(p, q, [SignalSection(ss[0])]);
      PassesIs(p, q, prev, xs[..n], accept);
      SignalsRead(q, ss[1..], Last(prev, xs[..n]), xs[n..], accept);
      PassesParts(p, q, TookAll(q, xs[n..], accept), prev, xs, n, accept);
      PassesIs(p, TookAll(q, xs[n..], accept), prev, xs, accept);
      AddsBoth(p, q, TookAll(q, xs[n..], accept), [SignalSection(ss[0])], SignalSections(ss[1..]));
    }
  }

  lemma AddsBetween(p: Parser, q: Parser, ss: seq<Section>)
    requires Adds(p, q, ss)
    ensures Between(q)
  {
  }

  lemma NothingAdded(p: Parser, prev: Option<Laid>, accept: Callback)
    requires Between(p) && Behind(p.lexer, prev)
    ensures TookAll(p, [], accept) == p && Adds(p, p, []) && Passes(p, p, prev, [], accept)
  {
    hide Between, PlainSections, Behind;
    assert PlainSections(p.sections) + [] == PlainSections(p.sections);
  }

  lemma {:induction false} NetworkRead(p: Parser, ms: seq<Message>, prev: Option<Laid>, xs: seq<Laid>, accept: Callback)
    requires Between(p) && AcceptsAll(accept) && forall i :: 0 <= i < |ms| ==> MessageOk(ms[i])
    requires Behind(p.lexer, prev) && Spread(prev, xs) && WordsOf(xs) == NetworkWords(ms)
    ensures var q := TookAll(p, xs, accept); Adds(p, q, NetworkSections(ms)) && Passes(p, q, prev, xs, accept)
    decreases |ms|
  {
    hide Between, MessageOk, HeaderWords, SignalsWords, MessageSection, SignalSections, AcceptsAll, InMessages, Behind, Spread,
      WordsOf, TookAll, Adds, Passes, PlainSections;
    if ms == [] {
      assert |xs| == |WordsOf(xs)| == 0 && xs == [];
      NothingAdded(p, prev, accept);
    } else {
      var ws := HeaderWords(ms[0]) + SignalsWords(ms[0].signals);
      var ss := [MessageSection(ms[0])] + SignalSections(ms[0].signals);
      var n := |ws|;
      WordsSplit(xs, ws, NetworkWords(ms[1..]));
      SpreadSplits(prev, xs, n);
      OneMessageRead(p, ms[0], prev, xs[..n], accept);
      var q := TookAll(p, xs[..n], accept);
      AddsBetween(p, q, ss);
      PassesIs(p, q, prev, xs[..n], accept);
      NetworkRead(q, ms[1..], Last(prev, xs[..n]), xs[n..], accept);
      PassesParts(p, q, TookAll(q, xs[n..], accept), prev, xs, n, accept);
      PassesIs(p, TookAll(q, xs[n..], accept), prev, xs, accept);
      AddsBoth(p, q, TookAll(q, xs[n..], accept), ss, NetworkSections(ms[1..]));
    }
  }

  /** A message with its signals. */
  lemma OneMessageRead(p: Parser, m: Message, prev: Option<Laid>, xs: seq<Laid>, accept: Callback)
    requires Between(p) && MessageOk(m) && AcceptsAll(accept)
    requires Behind(p.lexer, prev) && Spread(prev, xs) && WordsOf(xs) == HeaderWords(m) + SignalsWords(m.signals)
    ensures var q := TookAll(p, xs, accept); Adds(p, q, [MessageSection(m)] + SignalSections(m.signals)) && Passes(p, q, prev, xs, accept)
  {
    SignalsOk(m);
    hide Between, MessageOk, HeaderWords, SignalsWords, MessageSection, SignalSections, AcceptsAll, InMessages, Behind, Spread,
      WordsOf, TookAll, Adds, Passes, PlainSections, SignalOk, SignalFits;
    var n := |HeaderWords(m)|;
    WordsSplit(xs, HeaderWords(m), SignalsWords(m.signals));
    SpreadSplits(prev, xs, n);
    MessageRead(p, m, prev, xs[..n], accept);
    var q := TookAll(p, xs[..n], accept);
    AddsBetween(p, q, [MessageSection(m)]);
    PassesIs(p, q, prev, xs[..n], accept);
    SignalsRead(q, m.signals, Last(prev, xs[..n]), xs[n..], accept);
    PassesParts(p, q, TookAll(q, xs[n..], accept), prev, xs, n, accept);
    PassesIs(p, TookAll(q, xs[n..], accept), prev, xs, accept);
    AddsBoth(p, q, TookAll(q, xs[n..], accept), [MessageSection(m)], SignalSections(m.signals));
  }

  lemma SignalsOk(m: Message)
    requires MessageOk(m)
    ensures forall i :: 0 <= i < |m.signals| ==> SignalOk(m.signals[i]) && SignalFits(m.signals[i])
  {
  }

  // ---------- the end of the input

  lemma {:induction false} LegibleSpread(prev: Option<Laid>, xs: seq<Laid>)
    requires Legible(xs) && (prev.Some? && prev.value.gap == "" && xs != [] ==> Beside(prev.value, xs[0]))
    ensures Spread(prev, xs)
    decreases |xs|
  {
    hide LaidOk, Touches, IsSigned;
    if xs != [] { LegibleSpread(Some(xs[0]), xs[1..]); }
  }

  lemma {:induction false} LegibleParted(xs: seq<Laid>, y: Laid)
    requires Legible(xs + [y])
    ensures AllParted(xs, y.text + y.gap)
    decreases |xs|
  {
    hide LaidOk, Touches, IsSigned;
    if xs != [] {
      assert (xs + [y])[0] == xs[0] && (xs + [y])[1..] == xs[1..] + [y];
      LegibleParted(xs[1..], y);
      var next := (xs + [y])[1];
      assert xs[0].gap == "" ==> Beside(xs[0], next);
      assert next.text <= Text(xs[1..]) + (y.text + y.gap);
    }
  }

  /** What comes last is taken at the end of the input if no space has ended it before. */
  lemma EndTakes(p: Parser, x: Laid, accept: Callback)
    requires Fits(p, x) && Between(Took(p, x, accept))
    ensures End(FeedAll(p, x.text + x.gap, accept), accept) == Took(p, x, accept)
  {
    hide Sections, BoSection, SgSection;
    if x.gap != "" {
      TextTaken(p, x, "", accept);
      assert x.text + x.gap + "" == x.text + x.gap;
      EndsBetween(Took(p, x, accept), accept);
      assert FeedAll(Took(p, x, accept), "", accept) == Took(p, x, accept);
    } else {
      assert x.text + "" == x.text;
      var l, t := WordTaken(p, x, accept);
      WordRun(p.lexer, x.word, x.text);
      CollectedSmall(p.lexer, x.word, x.text);
      FeedRun(p, x.text, accept);
      LastHandled(p.(lexer := l), t, accept);
    }
  }

  /** With a section complete it makes no difference whether the input goes on. */
  lemma LastHandled(p: Parser, t: Token, accept: Callback)
    requires p.sel <= SECTION_COUNT && Between(Handle(p, t, false, accept))
    ensures Handle(p, t, true, accept) == Handle(p, t, false, accept)
  {
    hide Sections, BoSection, SgSection, Next, ResultOf, Begin;
  }

  lemma EndsBetween(p: Parser, accept: Callback)
    requires Between(p)
    ensures End(p, accept) == p && p.error == NoError
  {
    hide Sections, BoSection, SgSection, Handle;
  }

  /** Whatever messages and signals are written, however they are laid out, and however the text is cut into chunks:
      parsing it from the start ends without an error, and the sections delivered are these messages and signals, with
      these values, in this order. */
  lemma ReadBack(ms: seq<Message>, xs: seq<Laid>, chunks: seq<string>, accept: Callback)
    requires WordsOf(xs) == NetworkWords(ms) && Legible(xs) && Joined(chunks) == Text(xs)
    requires AcceptsAll(accept) && forall i :: 0 <= i < |ms| ==> MessageOk(ms[i])
    ensures var p := End(FeedChunks(Create(), chunks, accept), accept);
      p.error == NoError && PlainSections(p.sections) == NetworkSections(ms)
  {
    StartIsBetween();
    ChunksDoNotMatter(Create(), chunks, accept);
    LegibleSpread(None, xs);
    hide MessageOk, AcceptsAll, FeedAll, FeedChunks, Joined, NetworkWords, NetworkSections, Create, Legible, Text, Spread, WordsOf, Between;
    NetworkRead(Create(), ms, None, xs, accept);
    TextEnds(Create(), xs, accept);
    assert PlainSections([]) + NetworkSections(ms) == NetworkSections(ms);
  }

  lemma TextEnds(p: Parser, xs: seq<Laid>, accept: Callback)
    requires Legible(xs) && FitsAll(p, xs, accept) && Between(TookAll(p, xs, accept))
    ensures var q := TookAll(p, xs, accept); End(FeedAll(p, Text(xs), accept), accept) == q && q.error == NoError
  {
    hide Between, Legible, Took, End, Fits;
    if xs == [] {
      EndsBetween(p, accept);
    } else {
      var n := |xs| - 1;
      assert xs[..n] + [xs[n]] == xs;
      hide FeedAll, TookAll, FitsAll, Text;
      LastEnds(p, xs[..n], xs[n], accept);
      EndsBetween(TookAll(p, xs, accept), accept);
    }
  }

  lemma LastEnds(p: Parser, xs: seq<Laid>, x: Laid, accept: Callback)
    requires Legible(xs + [x]) && FitsAll(p, xs + [x], accept) && Between(TookAll(p, xs + [x], accept))
    ensures End(FeedAll(p, Text(xs + [x]), accept), accept) == TookAll(p, xs + [x], accept)
  {
    hide Between, Legible, FeedAll, TookAll, FitsAll, Took, End, Text, Fits, AllParted;
    LegibleParted(xs, x);
    LastFitted(p, xs, x, accept);
    TextConcat(xs, x);
    LinesTaken(p, xs, x.text + x.gap, accept);
    EndTakes(TookAll(p, xs, accept), x, accept);
  }

  lemma {:induction false} LastFitted(p: Parser, xs: seq<Laid>, x: Laid, accept: Callback)
    requires FitsAll(p, xs + [x], accept)
    ensures FitsAll(p, xs, accept) && Fits(TookAll(p, xs, accept), x) && TookAll(p, xs + [x], accept) == Took(TookAll(p, xs, accept), x, accept)
    decreases |xs|
  {
    hide Took, Fits;
    if xs == [] {
      assert xs + [x] == [x] && [x][1..] == [];
      var q := Took(p, x, accept);
      assert TookAll(p, [x], accept) == TookAll(q, [], accept) == q;
    } else {
      assert (xs + [x])[0] == xs[0] && (xs + [x])[1..] == xs[1..] + [x];
      LastFitted(Took(p, xs[0], accept), xs[1..], x, accept);
    }
  }

  lemma {:induction false} TextConcat(xs: seq<Laid>, x: Laid)
    ensures Text(xs + [x]) == Text(xs) + (x.text + x.gap)
    decreases |xs|
  {
    if xs == [] {
      assert xs + [x] == [x] && [x][1..] == [];
      assert x.text + x.gap + "" == "" + (x.text + x.gap);
    } else {
      assert (xs + [x])[0] == xs[0] && (xs + [x])[1..] == xs[1..] + [x];
      TextConcat(xs[1..], x);
      var a, b, c := xs[0].text + xs[0].gap, Text(xs[1..]), x.text + x.gap;
      assert a + (b + c) == a + b + c;
    }
  }
}
