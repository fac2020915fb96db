/** The streaming parser of libnetq/dbc/DBCParser.c: sections, tokens and single characters. */
module DBCParserModel {
  import opened Words
  import opened DBCLexer
  import opened DBCMachine
  import opened DBCTables

  /** `Crash` stands for what must not happen: a failed assertion or an opcode outside its table. */
  datatype Error =
    | NoError | User | BufferOverflow | StackOverflow | SectionKeyword | SectionError(identifier: nat)
    | TokenNumber | TokenString | Crash

  datatype ParserSection = ParserSection(required: char, keyword: string, identifier: nat, rows: seq<Row>, children: seq<ParserSection>)

  datatype Parser = Parser(
    lexer: Lexer, machine: Machine, hasMachine: bool,
    parent: Option<ParserSection>, current: ParserSection, sel: nat, used: set<nat>,
    error: Error, sections: seq<Section>)

  // ---------- the sections

  const MESSAGE_CHILDREN := [
    ParserSection('*', "SG_", 15, SIGNAL, []),
    ParserSection('*', "CM_", 8, COMMENTS, [])
  ]

  const SECTION_COUNT := 22

  function Sections(): (r: seq<ParserSection>)
    ensures |r| == SECTION_COUNT
  {
    [
      ParserSection('?', "VERSION", 0, VERSION, []),
      ParserSection('?', "NS_", 1, NEW_SYMBOLS, []),
      ParserSection('1', "BS_", 2, BIT_TIMING, []),
      ParserSection('1', "BU_", 3, NODES, []),
      ParserSection('*', "VAL_TABLE_", 22, VALUE_TABLES, []),
      ParserSection('*', "BO_", 4, MESSAGES, MESSAGE_CHILDREN),
      ParserSection('*', "BO_TX_BU_", 5, TRANSMITTERS, []),
      ParserSection('*', "EV_", 6, ENVIRONMENT, []),
      ParserSection('*', "ENVVAR_DATA_", 7, ENVIRONMENT_DATA, []),
      ParserSection('*', "SGTYPE_", 16, SIGNAL_TYPES, []),
      ParserSection('*', "CM_", 8, COMMENTS, []),
      ParserSection('*', "BA_DEF_", 11, ATTRIBUTE_DEFINITIONS, []),
      ParserSection('*', "BA_DEF_REL_", 12, RELATION_DEFINITIONS, []),
      ParserSection('*', "BA_DEF_DEF_", 13, ATTRIBUTE_DEFAULTS, []),
      ParserSection('*', "BA_DEF_DEF_REL_", 14, RELATION_DEFAULTS, []),
      ParserSection('*', "BA_", 9, ATTRIBUTE_VALUES, []),
      ParserSection('*', "BA_REL_", 10, RELATION_VALUES, []),
      ParserSection('*', "VAL_", 21, VALUE_DESCRIPTIONS, []),
      ParserSection('*', "SIG_TYPE_REF_", 20, SIGNAL_TYPE_REFS, []),
      ParserSection('*', "SIG_GROUP_", 18, SIGNAL_GROUPS, []),
      ParserSection('*', "SIG_VALTYPE_", 19, SIGNAL_VALUE_TYPES, []),
      ParserSection('*', "SG_MUL_VAL_", 17, MULTIPLEXING, [])
    ]
  }

  const NO_SECTION := ParserSection('*', "", 0, [], [])

  const NO_MACHINE := Machine([], 0, 0, 0, false, [])

  function Create(): Parser {
    Parser(New(), NO_MACHINE, false, None, Sections()[0], 0, {}, NoError, [])
  }

  /** The parser stops for good. */
  function Fail(p: Parser, e: Error): Parser {
    p.(error := e, lexer := New(), machine := NO_MACHINE, hasMachine := false, parent := None, current := NO_SECTION, sel := 0, used := {})
  }

  // ---------- NQDBCParser_chooseSection

  function FindKeyword(s: seq<ParserSection>, from: nat, keyword: string): (r: nat)
    requires from <= |s|
    ensures from <= r <= |s|
    ensures r < |s| ==> s[r].keyword == keyword
    decreases |s| - from
  {
    if from == |s| || s[from].keyword == keyword then from else FindKeyword(s, from + 1, keyword)
  }

  /** The parser with the section of `keyword` as the current one, or nothing. */
  function Choose(p: Parser, keyword: string): Option<Parser>
    requires p.sel <= SECTION_COUNT
  {
    var children := if p.parent.Some? then p.parent.value.children else [];
    var child := FindKeyword(children, 0, keyword);
    var later := FindKeyword(Sections(), p.sel, keyword);
    var earlier := FindKeyword(Sections(), 0, keyword);
    if p.current.keyword == keyword then Some(p)
    else if child < |children| then Some(p.(current := children[child]))
    else if later < SECTION_COUNT then Some(p.(sel := later, current := Sections()[later], parent := None))
    else if earlier < p.sel then Some(p.(current := Sections()[earlier], parent := None))
    else None
  }

  // ---------- NQDBCParser_next: one token

  /** A token outside a section. */
  function Begin(p: Parser, t: Token): Parser
    requires p.sel <= SECTION_COUNT
  {
    if t.kind == SymbolToken && t.data != "" && t.data[0] == '\n' then p
    else if t.kind != IdentifierToken then Fail(p, SectionKeyword)
    else
      var chosen := Choose(p, t.data);
      if chosen.None? then Fail(p, SectionKeyword)
      else
        var q := chosen.value;
        var once := q.current.required == '?' || q.current.required == '1';
        if !once && q.current.required != '*' then Fail(p, Crash)
        else if once && q.current.identifier in q.used then Fail(p, SectionError(q.current.identifier))
        else q.(used := q.used + {q.current.identifier}, hasMachine := true, machine := Machine(Table(q.current.rows), 0, 0, 0, false, []))
  }

  /** What the caller's callback answers, given the sections it has had and the new one. */
  type Callback = (seq<Section>, Section) -> bool

  /** A complete section goes to the caller. */
  function Deliver(p: Parser, section: Section, accept: Callback): Parser {
    var sections := if section.silent then p.sections else p.sections + [section];
    if !section.silent && !accept(p.sections, section) then Fail(p.(sections := sections), User)
    else if p.lexer.mode != Mode.Init then Fail(p.(sections := sections), Crash)
    else
      p.(sections := sections, parent := if p.parent.None? then Some(p.current) else p.parent,
         hasMachine := false, machine := NO_MACHINE, lexer := Reset(p.lexer))
  }

  /** A token inside a section; `last` marks the call that ends the input. */
  function Handle(p: Parser, t: Token, last: bool, accept: Callback): Parser
    requires p.sel <= SECTION_COUNT
  {
    if !p.hasMachine then Begin(p, t)
    else if |p.machine.queue| >= STACK_SIZE then Fail(p, StackOverflow)
    else if !WellPlaced(p.machine) then Fail(p, Crash)
    else
      var taken := Next(p.machine, t);
      match taken
      case Refused => Fail(p, SectionError(p.current.identifier))
      case Lost => Fail(p, Crash)
      case Asserted => Fail(p, Crash)
      case Taken(m, repeat) => Follow(p, m, repeat, t, last, accept)
  }

  /** The machine has taken the token, or, with `repeat`, ends the section before it. */
  function Follow(p: Parser, m: Machine, repeat: bool, t: Token, last: bool, accept: Callback): Parser
    requires p.sel <= SECTION_COUNT
  {
    if !WellPlaced(m) then Fail(p, Crash)
    else match ResultOf(m)
      case Broken => Fail(p, Crash)
      case More(n) => if last then Fail(p, SectionKeyword) else p.(machine := n)
      case Ready(section, rest) =>
        if rest != [] then Fail(p, Crash)
        else
          var q := Deliver(p, section, accept);
          if q.error == NoError && repeat then Begin(q, t) else q
  }

  // ---------- single characters

  /** The lexer looks at `c`: the parser afterwards, and whether `c` has been taken. */
  function Look(p: Parser, c: char, accept: Callback): (Parser, bool)
    requires p.sel <= SECTION_COUNT && p.lexer.start <= |p.lexer.text|
  {
    if |p.lexer.text| >= BUFFER_SIZE - 1 then (Fail(p, BufferOverflow), false)
    else
      var l := Apply(p.lexer, c);
      if l.Some? then (p.(lexer := Advance(l.value, c)), true)
      else (TakeToken(p, false, accept), false)
  }

  /** The token the lexer has collected is finished and handled. */
  function TakeToken(p: Parser, last: bool, accept: Callback): Parser
    requires p.sel <= SECTION_COUNT && p.lexer.start <= |p.lexer.text|
  {
    match Finish(p.lexer)
    case WaitSymbol => p
    case NumberError => Fail(p, TokenNumber)
    case StringError => Fail(p, TokenString)
    case TokenDone(l, t) => Handle(p.(lexer := l), t, last, accept)
  }

  /** The fields of the state that the functions above rely on. */
  predicate Sound(p: Parser) {
    p.sel <= SECTION_COUNT && p.lexer.start <= |p.lexer.text|
  }

  /** One character: at most two looks. */
  function Feed(p: Parser, c: char, accept: Callback): Parser {
    if p.error != NoError || !Sound(p) then p else
      var first := Look(p, c, accept);
      if first.1 || first.0.error != NoError || !Sound(first.0) then first.0 else Look(first.0, c, accept).0
  }

  function FeedAll(p: Parser, s: string, accept: Callback): Parser
    decreases |s|
  {
    if s == [] then p else FeedAll(Feed(p, s[0], accept), s[1..], accept)
  }

  /** NQDBCParser_finish. */
  function End(p: Parser, accept: Callback): Parser {
    if p.error != NoError || !Sound(p) then p else TakeToken(p, true, accept)
  }

  function FeedChunks(p: Parser, chunks: seq<string>, accept: Callback): Parser
    decreases |chunks|
  {
    if chunks == [] then p else FeedChunks(FeedAll(p, chunks[0], accept), chunks[1..], accept)
  }

  function Joined(chunks: seq<string>): string {
    if chunks == [] then "" else chunks[0] + Joined(chunks[1..])
  }

  lemma {:induction false} FeedAppend(p: Parser, a: string, b: string, accept: Callback)
    ensures FeedAll(p, a + b, accept) == FeedAll(FeedAll(p, a, accept), b, accept)
    decreases |a|
  {
    hide Feed;
    if a == [] {
      assert a + b == b;
    } else {
      assert (a + b)[1..] == a[1..] + b && (a + b)[0] == a[0];
      FeedAppend(Feed(p, a[0], accept), a[1..], b, accept);
    }
  }

  /** However the input is cut, the sections, their order and the error are those of the whole. */
  lemma {:induction false} ChunksDoNotMatter(p: Parser, chunks: seq<string>, accept: Callback)
    ensures FeedChunks(p, chunks, accept) == FeedAll(p, Joined(chunks), accept)
    decreases |chunks|
  {
    hide Feed;
    if chunks != [] {
      FeedAppend(p, chunks[0], Joined(chunks[1..]), accept);
      ChunksDoNotMatter(FeedAll(p, chunks[0], accept), chunks[1..], accept);
    }
  }
}
