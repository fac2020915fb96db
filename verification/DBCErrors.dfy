/** Why the parser stops: each error has its own cause. */
module DBCErrors {
  import opened Words
  import opened DBCLexer
  import opened DBCMachine
  import opened DBCTables
  import opened DBCTyping
  import opened DBCParserModel
  import opened DBCParserSafety

  /** A number whose exponent has no digits. */
  predicate OpenExponent(l: Lexer) {
    l.mode == ExponentSymbolNumber || l.mode == ExponentSignNumber
  }

  /** A string whose closing quote is missing. */
  predicate OpenString(l: Lexer) {
    l.mode == CString || l.mode == EscapeCString
  }

  /** A word that is not the keyword of any section. */
  ghost predicate NoKeyword(t: Token) {
    && !(t.kind == SymbolToken && t.data == "\n")
    && (t.kind == IdentifierToken ==> forall i :: 0 <= i < SECTION_COUNT ==> Sections()[i].keyword != t.data)
  }

  /** The parser after a finished token, `last` for the end of the input: the causes of its errors. A section that may
      come once and comes again is one that has been used. */
  ghost predicate Caused(p: Parser, t: Token, last: bool, q: Parser, accept: Callback) {
    match q.error
    case NoError => true
    case User => p.hasMachine && exists s :: q.sections == p.sections + [s] && !accept(p.sections, s)
    case StackOverflow => p.hasMachine && |p.machine.queue| == 1024
    case SectionKeyword => NoKeyword(t) || (last && p.hasMachine)
    case SectionError(id) => (p.hasMachine && id == p.current.identifier) || id in p.used
    case Crash => EndianToken(p, t)
    case _ => false
  }

  lemma {:induction false} FoundFirst(s: seq<ParserSection>, from: nat, keyword: string)
    requires from <= |s|
    ensures forall i :: from <= i < FindKeyword(s, from, keyword) ==> s[i].keyword != keyword
    decreases |s| - from
  {
    if from < |s| && s[from].keyword != keyword { FoundFirst(s, from + 1, keyword); }
  }

  lemma NotChosen(p: Parser, keyword: string)
    requires p.sel <= SECTION_COUNT && Choose(p, keyword).None?
    ensures forall i :: 0 <= i < SECTION_COUNT ==> Sections()[i].keyword != keyword
  {
    hide Sections;
    FoundFirst(Sections(), p.sel, keyword);
    FoundFirst(Sections(), 0, keyword);
  }

  /** Which section a keyword begins: the current one again, then a child of the section last delivered, and then a
      main section, the later ones first. The selection is the furthest main section begun so far; it never goes back. */
  lemma WhatIsChosen(p: Parser, keyword: string)
    requires p.sel <= SECTION_COUNT && Choose(p, keyword).Some?
    ensures var q := Choose(p, keyword).value;
      && q == p.(sel := q.sel, current := q.current, parent := q.parent) && q.current.keyword == keyword
      && (p.current.keyword == keyword ==> q == p)
      && (q.current != p.current && q.parent == p.parent && p.parent.Some? ==> q.current in p.parent.value.children && q.sel == p.sel)
      && (q.parent.None? && p.current.keyword != keyword ==>
            exists i :: 0 <= i < SECTION_COUNT && q.current == Sections()[i] && q.sel == if i < p.sel then p.sel else i)
      && (p.parent.Some? && p.current.keyword != keyword && (exists c :: c in p.parent.value.children && c.keyword == keyword) ==> q.parent == p.parent)
      && p.sel <= q.sel <= SECTION_COUNT
  {
    hide Sections;
    if p.parent.Some? { FoundFirst(p.parent.value.children, 0, keyword); }
  }

  lemma BeginCaused(p: Parser, t: Token)
    requires SectionInv(p) && TokenOk(t)
    ensures var q := Begin(p, t);
      q.error in {NoError, SectionKeyword} || (q.error.SectionError? && q.error.identifier in p.used)
    ensures Begin(p, t).error == SectionKeyword ==> NoKeyword(t)
    ensures Begin(p, t).sections == p.sections
  {
    hide Sections, Known, Choose;
    if t.kind == IdentifierToken {
      if Choose(p, t.data).None? { NotChosen(p, t.data); } else { ChosenIs(p, t.data); }
    }
  }

  lemma ChosenIs(p: Parser, keyword: string)
    requires SectionInv(p) && Choose(p, keyword).Some?
    ensures var q := Choose(p, keyword).value; q.used == p.used && q.sections == p.sections && q.error == NoError
    ensures var q := Choose(p, keyword).value; q.current.required in {'?', '1', '*'}
  {
    ChooseInv(p, keyword);
    hide Sections, RowsOk;
  }

  lemma DeliverCaused(p: Parser, section: Section, accept: Callback)
    requires SectionInv(p) && p.lexer.mode == Mode.Init
    ensures var q := Deliver(p, section, accept);
      && q.error in {NoError, User} && q.used == (if q.error == NoError then p.used else {})
      && (q.error == User ==> q.sections == p.sections + [section] && !accept(p.sections, section))
      && (q.error == NoError ==> SectionInv(q))
  {
    hide Known;
  }

  lemma HandleCaused(p: Parser, t: Token, before: string, last: bool, accept: Callback)
    requires SectionInv(p) && LexInv(p.lexer) && p.lexer.mode == Mode.Init && TokenOk(t)
    requires p.lexer.start == |p.lexer.text| && before <= p.lexer.text && InBuffer(t.place, t.data, p.lexer.text)
    requires t.place.Buffer? ==> t.place.at >= |before|
    requires p.hasMachine ==>
      (p.machine.table == Table(p.current.rows) && Typed(p.machine, Shapes(p.current.rows)) && !p.machine.done
       && |p.machine.queue| <= STACK_SIZE && Placed(p.machine.queue, before))
    ensures Caused(p, t, last, Handle(p, t, last, accept), accept)
  {
    hide Known, Typed, LexInv, TokenOk, Placed, Next, ResultOf, Begin, Deliver, Sections, NoKeyword;
    HandleInv(p, t, before, last, accept);
    if !p.hasMachine {
      BeginCaused(p, t);
    } else if |p.machine.queue| < STACK_SIZE {
      TypedPlaced(p.machine, Shapes(p.current.rows));
      var taken := Next(p.machine, t);
      if taken.Taken? && WellPlaced(taken.machine) && ResultOf(taken.machine).Ready? {
        var section := ResultOf(taken.machine).section;
        DeliverCaused(p, section, accept);
        var q := Deliver(p, section, accept);
        if q.error == NoError { BeginCaused(q, t); }
      }
    }
  }

  /** A token that ends, by a character or by the end of the input. */
  lemma TokenCaused(p: Parser, last: bool, accept: Callback)
    requires ParserInv(p)
    ensures Sound(p) && var q := TakeToken(p, last, accept);
      match Finish(p.lexer)
      case TokenDone(_, t) => Caused(p, t, last, q, accept)
      case WaitSymbol => q == p
      case NumberError => q.error == TokenNumber
      case StringError => q.error == TokenString
  {
    hide Known, Typed, LexInv, TokenOk, Placed, Handle, Finish, Table, Shapes, Sections, NoKeyword;
    LexStart(p.lexer);
    FinishInv(p.lexer);
    match Finish(p.lexer) {
      case TokenDone(l, t) =>
        var before := p.lexer.text[..p.lexer.start];
        assert before <= l.text;
        HandleCaused(p.(lexer := l), t, before, last, accept);
      case _ =>
    }
  }

  lemma FinishOf(l: Lexer)
    requires LexInv(l)
    ensures l.start <= |l.text|
    ensures Finish(l).NumberError? <==> OpenExponent(l)
    ensures Finish(l).StringError? <==> OpenString(l)
    ensures Finish(l).WaitSymbol? <==> l.mode == Mode.Init
    ensures Finish(l).TokenDone? ==> |Finish(l).lexer.text| <= |l.text| + 1
  {
    FinishInv(l);
  }

  lemma NoCharacterEnds(l: Lexer, c: char)
    requires OpenString(l) || l.mode == Mode.Init
    ensures Apply(l, c).Some?
  {
  }

  /** The cause of what a character has led to. */
  ghost predicate Explained(p: Parser, c: char, q: Parser, accept: Callback) {
    && p.lexer.start <= |p.lexer.text|
    && match q.error
       case NoError => true
       case BufferOverflow => |p.lexer.text| >= 12286
       case TokenNumber => Ends(p.lexer, c) && OpenExponent(p.lexer)
       case TokenString => false
       case _ => Ends(p.lexer, c) && Finish(p.lexer).TokenDone? && Caused(p, Finish(p.lexer).token, false, q, accept)
  }

  /** Why a character stops the parser. The buffer is full after 12287 characters; a string cannot be broken off by a
      character; and what else can happen happens to the token that the character ends. */
  lemma WhyItStops(p: Parser, c: char, accept: Callback)
    requires ParserInv(p)
    ensures Explained(p, c, Feed(p, c, accept), accept)
    ensures |p.lexer.text| >= 12287 ==> Feed(p, c, accept).error == BufferOverflow
    ensures Ends(p.lexer, c) && OpenExponent(p.lexer) ==> Feed(p, c, accept).error == TokenNumber
  {
    SoundOf(p);
    LexOf(p);
    FinishOf(p.lexer);
    TokenCaused(p, false, accept);
    NoEndInInit(p, accept);
    hide ParserInv, TakeToken, Apply, Sections, Caused, Finish, LexInv;
    if p.lexer.mode == Mode.Init || OpenString(p.lexer) { NoCharacterEnds(p.lexer, c); }
    if Ends(p.lexer, c) {
      var q := TakeToken(p, false, accept);
      if q.error == NoError { InitTakesAll(q.lexer, c); }
    }
  }

  lemma LexOf(p: Parser)
    requires ParserInv(p)
    ensures LexInv(p.lexer)
  {
  }

  /** After a token the lexer waits for the next one, and the buffer is hardly longer. */
  lemma NoEndInInit(p: Parser, accept: Callback)
    requires ParserInv(p)
    ensures Sound(p) && var q := TakeToken(p, false, accept);
      q.error == NoError ==> q.lexer.mode == Mode.Init && |q.lexer.text| <= |p.lexer.text| + 1 && Sound(q)
  {
    SoundOf(p);
    LexOf(p);
    InitAfterToken(p, accept);
    TakeTokenInv(p, false, accept);
    FinishOf(p.lexer);
    var q := TakeToken(p, false, accept);
    if q.error == NoError { SoundOf(q); }
    hide ParserInv, Sections, LexInv, Next, ResultOf, Begin;
    if Finish(p.lexer).TokenDone? { BufferAfter(p.(lexer := Finish(p.lexer).lexer), Finish(p.lexer).token, accept); }
  }

  lemma BufferAfter(p: Parser, t: Token, accept: Callback)
    requires p.sel <= SECTION_COUNT
    ensures |Handle(p, t, false, accept).lexer.text| <= |p.lexer.text|
  {
    BufferBegun(p, t);
    hide Next, Begin, Sections, WellPlaced, Follow;
    if p.hasMachine && |p.machine.queue| < STACK_SIZE && WellPlaced(p.machine) && Next(p.machine, t).Taken? {
      BufferFollows(p, Next(p.machine, t).machine, Next(p.machine, t).repeat, t, accept);
    }
  }

  lemma BufferFollows(p: Parser, m: Machine, repeat: bool, t: Token, accept: Callback)
    requires p.sel <= SECTION_COUNT
    ensures |Follow(p, m, repeat, t, false, accept).lexer.text| <= |p.lexer.text|
  {
    hide Begin, Sections, WellPlaced, ResultOf;
    if WellPlaced(m) && ResultOf(m).Ready? { BufferBegun(Deliver(p, ResultOf(m).section, accept), t); }
  }

  lemma BufferBegun(p: Parser, t: Token)
    requires p.sel <= SECTION_COUNT
    ensures |Begin(p, t).lexer.text| <= |p.lexer.text|
  {
    hide Sections;
  }

  /** Why the end of the input is an error: a string or a number is open, or what is wrong with the last token. */
  lemma WhyItEnds(p: Parser, accept: Callback)
    requires ParserInv(p)
    ensures var q := End(p, accept);
      && p.lexer.start <= |p.lexer.text|
      && (q.error == TokenString <==> OpenString(p.lexer)) && (q.error == TokenNumber <==> OpenExponent(p.lexer))
      && (p.lexer.mode == Mode.Init ==> q == p)
      && (q.error !in {NoError, TokenString, TokenNumber} ==> Finish(p.lexer).TokenDone? && Caused(p, Finish(p.lexer).token, true, q, accept))
  {
    hide ParserInv, TakeToken, Sections, LexInv, Finish, OpenString, OpenExponent, NoKeyword, EndianToken;
    SoundOf(p);
    LexOf(p);
    FinishOf(p.lexer);
    TokenCaused(p, true, accept);
  }

  // ---------- what the caller never hears of

  /** No section that an init function keeps to itself has been handed over. */
  predicate AllHeard(p: Parser) {
    forall i :: 0 <= i < |p.sections| ==> !p.sections[i].silent
  }

  lemma DeliverHeard(p: Parser, section: Section, accept: Callback)
    requires AllHeard(p)
    ensures AllHeard(Deliver(p, section, accept))
  {
  }

  lemma BeginHeard(p: Parser, t: Token)
    requires AllHeard(p) && p.sel <= SECTION_COUNT
    ensures AllHeard(Begin(p, t))
  {
    BeginDelivers(p, t);
    hide Begin;
  }

  lemma HandleHeard(p: Parser, t: Token, last: bool, accept: Callback)
    requires AllHeard(p) && p.sel <= SECTION_COUNT
    ensures AllHeard(Handle(p, t, last, accept))
  {
    hide Begin, Next, WellPlaced, Follow, AllHeard;
    BeginHeard(p, t);
    FailHeard(p);
    if p.hasMachine && |p.machine.queue| < STACK_SIZE && WellPlaced(p.machine) && Next(p.machine, t).Taken? {
      FollowHeard(p, Next(p.machine, t).machine, Next(p.machine, t).repeat, t, last, accept);
    }
  }

  lemma FailHeard(p: Parser)
    requires AllHeard(p)
    ensures forall e: Error :: AllHeard(Fail(p, e))
  {
  }

  lemma FollowHeard(p: Parser, m: Machine, repeat: bool, t: Token, last: bool, accept: Callback)
    requires AllHeard(p) && p.sel <= SECTION_COUNT
    ensures AllHeard(Follow(p, m, repeat, t, last, accept))
  {
    hide Begin, WellPlaced, ResultOf;
    if WellPlaced(m) && ResultOf(m).Ready? {
      var s := ResultOf(m).section;
      DeliverHeard(p, s, accept);
      BeginHeard(Deliver(p, s, accept), t);
    }
  }

  lemma LookHeard(p: Parser, c: char, accept: Callback)
    requires AllHeard(p) && Sound(p)
    ensures AllHeard(Look(p, c, accept).0) && AllHeard(TakeToken(p, true, accept))
  {
    hide Handle, Apply, Finish;
    if Finish(p.lexer).TokenDone? {
      var q := p.(lexer := Finish(p.lexer).lexer);
      HandleHeard(q, Finish(p.lexer).token, false, accept);
      HandleHeard(q, Finish(p.lexer).token, true, accept);
    }
  }

  /** On no input does the caller get a section that its init function keeps to itself, like a comment of unknown kind. */
  lemma {:induction false} SilentIsKept(p: Parser, input: string, accept: Callback)
    requires AllHeard(p)
    ensures AllHeard(FeedAll(p, input, accept)) && AllHeard(End(FeedAll(p, input, accept), accept))
    decreases |input|
  {
    hide Look, TakeToken, AllHeard;
    if input == "" {
      if p.error == NoError && Sound(p) { LookHeard(p, ' ', accept); }
    } else {
      if p.error == NoError && Sound(p) {
        LookHeard(p, input[0], accept);
        var first := Look(p, input[0], accept).0;
        if Sound(first) { LookHeard(first, input[0], accept); }
      }
      SilentIsKept(Feed(p, input[0], accept), input[1..], accept);
    }
  }
}
