/** Nothing the input can hold makes the parser go wrong. */
module DBCParserSafety {
  import opened Words
  import opened DBCLexer
  import opened DBCMachine
  import opened DBCTyping
  import opened DBCTables
  import opened DBCTableChecks
  import opened DBCParserModel

  // ---------- every section has a table that checks

  /** How often the section may occur is one of three, and the keywords whose sections are looked at below have the
      tables they should. */
  predicate Tied(s: ParserSection) {
    && (s.required == '?' || s.required == '1' || s.required == '*')
    && (s.keyword == "EV_" ==> s.rows == ENVIRONMENT)
    && (s.keyword == "SIG_VALTYPE_" ==> s.rows == SIGNAL_VALUE_TYPES)
    && (s.keyword == "SGTYPE_" ==> s.rows == SIGNAL_TYPES)
  }

  lemma SectionsTied()
    ensures forall i :: 0 <= i < SECTION_COUNT ==> Tied(Sections()[i])
    ensures forall i :: 0 <= i < |MESSAGE_CHILDREN| ==> Tied(MESSAGE_CHILDREN[i])
  {
  }

  ghost predicate Known(s: ParserSection) {
    Tied(s) && RowsOk(s.rows) && forall i :: 0 <= i < |s.children| ==> Tied(s.children[i]) && RowsOk(s.children[i].rows) && s.children[i].children == []
  }

  lemma ChildrenKnown()
    ensures forall i :: 0 <= i < |MESSAGE_CHILDREN| ==> RowsOk(MESSAGE_CHILDREN[i].rows) && MESSAGE_CHILDREN[i].children == []
  {
    hide RowsOk;
    Signal();
    Comments();
  }

  lemma SectionsKnown()
    ensures forall i :: 0 <= i < SECTION_COUNT ==> Known(Sections()[i])
  {
    hide RowsOk, Tied;
    ChildrenKnown();
    TablesKnown();
    SectionsTied();
    forall i | 0 <= i < SECTION_COUNT ensures Known(Sections()[i]) {
    }
  }

  lemma TablesKnown()
    ensures forall i :: 0 <= i < SECTION_COUNT ==> RowsOk(Sections()[i].rows)
  {
    hide RowsOk;
    Version();
    NewSymbols();
    BitTiming();
    Nodes();
    ValueTables();
    Messages();
    Transmitters();
    Environment();
    EnvironmentData();
    SignalTypes();
    Comments();
    AttributeDefinitions();
    RelationDefinitions();
    AttributeDefaults();
    RelationDefaults();
    AttributeValues();
    RelationValues();
    ValueDescriptions();
    SignalTypeRefs();
    SignalGroups();
    SignalValueTypes();
    Multiplexing();
  }

  // ---------- the texts in the queue

  /** Every text is in the buffer where its place says, NUL-terminated, and no two of them overlap. */
  ghost predicate Placed(queue: seq<Value>, text: string) {
    && (forall i :: 0 <= i < |queue| && IsText(queue[i]) ==> InBuffer(queue[i].place, queue[i].text, text))
    && forall i, j :: 0 <= i < j < |queue| && IsText(queue[i]) && IsText(queue[j]) && queue[i].place.Buffer? && queue[j].place.Buffer? ==>
         queue[i].place.at + |queue[i].text| < queue[j].place.at
  }

  lemma PlacedLonger(queue: seq<Value>, text: string, longer: string)
    requires Placed(queue, text) && text <= longer
    ensures Placed(queue, longer)
  {
  }

  /** What a token adds comes behind what was there before it. */
  lemma PlacedAppend(queue: seq<Value>, vs: seq<Value>, t: Token, before: string, text: string)
    requires Placed(queue, before) && before <= text && FromToken(vs, t) && InBuffer(t.place, t.data, text)
    requires t.place.Buffer? ==> t.place.at >= |before|
    ensures Placed(queue + vs, text)
  {
    PlacedLonger(queue, before, text);
    var all := queue + vs;
    forall i | 0 <= i < |all| && IsText(all[i]) ensures InBuffer(all[i].place, all[i].text, text) {
      if i >= |queue| { assert all[i] == vs[i - |queue|]; }
    }
    forall i, j | 0 <= i < j < |all| && IsText(all[i]) && IsText(all[j]) && all[i].place.Buffer? && all[j].place.Buffer?
      ensures all[i].place.at + |all[i].text| < all[j].place.at
    {
      if j >= |queue| {
        assert all[j] == vs[j - |queue|];
        if i < |queue| {
          assert all[i] == queue[i] && InBuffer(queue[i].place, queue[i].text, before);
        }
      }
    }
  }

  // ---------- the invariant

  ghost predicate MachineInv(p: Parser) {
    p.hasMachine ==>
      && p.machine.table == Table(p.current.rows) && Typed(p.machine, Shapes(p.current.rows))
      && !p.machine.done && |p.machine.queue| <= STACK_SIZE
      && p.lexer.start <= |p.lexer.text| && Placed(p.machine.queue, p.lexer.text[..p.lexer.start])
  }

  ghost predicate SectionInv(p: Parser) {
    p.error == NoError && p.sel <= SECTION_COUNT && Known(p.current) && (p.parent.Some? ==> Known(p.parent.value))
  }

  /** A parser that has not stopped. */
  ghost predicate ParserInv(p: Parser) {
    SectionInv(p) && LexInv(p.lexer) && MachineInv(p)
  }

  /** A parser that has stopped, or is as it should be. */
  ghost predicate Fine(p: Parser) {
    p.error == NoError ==> ParserInv(p)
  }

  /** The open token is an integer of more than one digit, and the section waits for a byte order. */
  ghost predicate LongEndian(p: Parser) {
    && p.error == NoError && p.lexer.start <= |p.lexer.text| && Finish(p.lexer).TokenDone?
    && EndianToken(p, Finish(p.lexer).token)
  }

  ghost predicate EndianToken(p: Parser, t: Token) {
    p.hasMachine && |p.machine.queue| < STACK_SIZE && WellPlaced(p.machine) && AtLongEndian(p.machine, t)
  }

  /** The character ends the open token. */
  predicate Ends(l: Lexer, c: char) {
    |l.text| < BUFFER_SIZE - 1 && Apply(l, c).None?
  }

  lemma CreateInv()
    ensures ParserInv(Create())
  {
    hide Sections, RowsOk;
    SectionsKnown();
    assert Known(Sections()[0]);
  }

  lemma ChooseInv(p: Parser, keyword: string)
    requires SectionInv(p) && Choose(p, keyword).Some?
    ensures var q := Choose(p, keyword).value;
      SectionInv(q) && q.lexer == p.lexer && q.current.keyword == keyword
  {
    hide Sections, RowsOk;
    SectionsKnown();
  }

  lemma LexStart(l: Lexer)
    requires LexInv(l)
    ensures l.start <= |l.text| <= BUFFER_SIZE
  {
  }

  lemma BeginInv(p: Parser, t: Token)
    requires ParserInv(p) && !p.hasMachine
    ensures Fine(Begin(p, t)) && Begin(p, t).error != Crash && (Begin(p, t).error == NoError ==> Begin(p, t).lexer == p.lexer)
  {
    hide Known, Choose, Typed, TableOk, LexInv, RowsOk, Sections;
    LexStart(p.lexer);
    if Choose(p, t.data).Some? {
      ChooseInv(p, t.data);
      var q := Choose(p, t.data).value;
      KnownTied(q.current);
      KnownTable(q.current);
      Start(Table(q.current.rows), Shapes(q.current.rows));
      assert Placed([], p.lexer.text[..p.lexer.start]);
    }
  }

  lemma KnownTied(s: ParserSection)
    requires Known(s)
    ensures s.required == '?' || s.required == '1' || s.required == '*'
  {
    hide RowsOk;
  }

  lemma KnownTable(s: ParserSection)
    requires Known(s)
    ensures TableOk(Table(s.rows), Shapes(s.rows))
  {
    RowsMakeTable(s.rows);
  }

  lemma DeliverInv(p: Parser, section: Section, accept: Callback)
    requires SectionInv(p) && p.lexer.mode == Mode.Init
    ensures var q := Deliver(p, section, accept);
      q.error != Crash && (q.error == NoError ==> ParserInv(q) && !q.hasMachine)
  {
  }

  /** A token inside a section. The queue lay before the token in the buffer. */
  lemma HandleInv(p: Parser, t: Token, before: string, last: bool, accept: Callback)
    requires SectionInv(p) && LexInv(p.lexer) && p.lexer.mode == Mode.Init && TokenOk(t)
    requires p.lexer.start == |p.lexer.text| && before <= p.lexer.text && InBuffer(t.place, t.data, p.lexer.text)
    requires t.place.Buffer? ==> t.place.at >= |before|
    requires p.hasMachine ==>
      (p.machine.table == Table(p.current.rows) && Typed(p.machine, Shapes(p.current.rows)) && !p.machine.done
       && |p.machine.queue| <= STACK_SIZE && Placed(p.machine.queue, before))
    ensures Fine(Handle(p, t, last, accept)) && (Handle(p, t, last, accept).error == Crash <==> EndianToken(p, t))
  {
    hide Known, Typed, LexInv, TokenOk, Placed, Next, ResultOf, Begin, Deliver, Sections;
    if !p.hasMachine {
      BeginInv(p, t);
    } else if |p.machine.queue| < STACK_SIZE {
      var shapes := Shapes(p.current.rows);
      TypedPlaced(p.machine, shapes);
      NextTyped(p.machine, shapes, t);
      var taken := Next(p.machine, t);
      if taken.Taken? {
        var m := taken.machine;
        TypedPlaced(m, shapes);
        ResultTyped(m, shapes);
        match ResultOf(m) {
          case More(n) =>
            NextQueue(p.machine, t);
            assert n.queue == p.machine.queue + m.queue[|p.machine.queue|..];
            PlacedAppend(p.machine.queue, m.queue[|p.machine.queue|..], t, before, p.lexer.text);
            assert p.lexer.text[..p.lexer.start] == p.lexer.text;
          case Ready(section, rest) =>
            DeliverInv(p, section, accept);
            var q := Deliver(p, section, accept);
            if q.error == NoError && taken.repeat { BeginInv(q, t); }
        }
      }
    }
  }

  lemma TypedPlaced(m: Machine, shapes: seq<Shape>)
    requires Typed(m, shapes)
    ensures WellPlaced(m)
  {
  }

  lemma TakeTokenInv(p: Parser, last: bool, accept: Callback)
    requires ParserInv(p)
    ensures Fine(TakeToken(p, last, accept)) && (TakeToken(p, last, accept).error == Crash <==> LongEndian(p))
  {
    hide Known, Typed, LexInv, TokenOk, Placed, Handle, Finish, Table, Shapes, Sections;
    LexStart(p.lexer);
    FinishInv(p.lexer);
    match Finish(p.lexer) {
      case TokenDone(l, t) =>
        var before := p.lexer.text[..p.lexer.start];
        assert before <= l.text;
        HandleInv(p.(lexer := l), t, before, last, accept);
      case _ =>
    }
  }

  lemma AdvanceInv(l: Lexer, c: char)
    requires LexInv(l)
    ensures LexInv(Advance(l, c)) && Advance(l, c).start == l.start && Advance(l, c).text == l.text
  {
  }

  lemma LookInv(p: Parser, c: char, accept: Callback)
    requires ParserInv(p)
    ensures Sound(p) && Fine(Look(p, c, accept).0)
    ensures Look(p, c, accept).0.error == Crash <==> Ends(p.lexer, c) && LongEndian(p)
  {
    hide Known, Typed, LexInv, Placed, Handle, TakeToken, Apply, Advance, Sections;
    LexStart(p.lexer);
    if |p.lexer.text| < BUFFER_SIZE - 1 {
      var l := Apply(p.lexer, c);
      if l.Some? {
        ApplyInv(p.lexer, c);
        AdvanceInv(l.value, c);
        assert l.value.text[..p.lexer.start] == p.lexer.text[..p.lexer.start];
      } else {
        TakeTokenInv(p, false, accept);
      }
    }
  }

  lemma FeedInv(p: Parser, c: char, accept: Callback)
    requires Fine(p)
    ensures Fine(Feed(p, c, accept))
    ensures p.error != Crash ==> (Feed(p, c, accept).error == Crash <==> Ends(p.lexer, c) && LongEndian(p))
  {
    hide ParserInv, Look, LongEndian, Ends;
    if p.error == NoError {
      LookInv(p, c, accept);
      var first := Look(p, c, accept);
      if !first.1 && first.0.error == NoError {
        LookInv(first.0, c, accept);
        SecondLook(p, c, accept);
      }
    } else {
      StoppedIsPast(p);
    }
  }

  lemma SoundOf(p: Parser)
    requires ParserInv(p)
    ensures Sound(p) && p.error == NoError
  {
    hide Typed, Placed, Known;
  }

  lemma StoppedIsPast(p: Parser)
    requires p.error != NoError
    ensures !LongEndian(p)
  {
  }

  /** The second look at a character does not end a token. */
  lemma SecondLook(p: Parser, c: char, accept: Callback)
    requires ParserInv(p) && Sound(p) && !Look(p, c, accept).1 && Look(p, c, accept).0.error == NoError
    ensures !Ends(Look(p, c, accept).0.lexer, c)
  {
    hide ParserInv, TakeToken, Apply, Sections;
    InitAfterToken(p, accept);
    InitTakesAll(Look(p, c, accept).0.lexer, c);
  }

  /** After `k` characters of the input a token ends that is an integer of more than one digit where a byte order is
      expected. */
  ghost predicate LongEndianAt(p: Parser, input: string, k: nat, accept: Callback)
    requires k < |input|
  {
    var q := FeedAll(p, input[..k], accept);
    Ends(q.lexer, input[k]) && LongEndian(q)
  }

  /** Whatever the input: no table is left, no slot past the 1024th is written, the strings that wait in the queue are
      all where they were put, and no assertion fails but one. That one fails if and only if an integer of more than
      one digit arrives where a byte order is expected. */
  lemma {:induction false} EveryInput(p: Parser, input: string, accept: Callback)
    requires Fine(p) && p.error != Crash
    ensures var n := FeedAll(p, input, accept);
      && Fine(n) && Fine(End(n, accept))
      && (n.error == Crash <==> exists k :: 0 <= k < |input| && LongEndianAt(p, input, k, accept))
      && (End(n, accept).error == Crash <==> n.error == Crash || LongEndian(n))
    decreases |input|
  {
    hide ParserInv, Feed, TakeToken, LongEndian, Ends;
    if input == [] {
      if p.error == NoError {
        SoundOf(p);
        TakeTokenInv(p, true, accept);
      } else {
        StoppedIsPast(p);
      }
    } else {
      FeedInv(p, input[0], accept);
      var q, rest := Feed(p, input[0], accept), input[1..];
      assert input[..0] == [] && FeedAll(p, input[..0], accept) == p;
      forall k: nat | k < |rest| ensures LongEndianAt(q, rest, k, accept) == LongEndianAt(p, input, k + 1, accept) {
        assert input[..k + 1][0] == input[0] && input[..k + 1][1..] == rest[..k];
      }
      if q.error == Crash {
        CrashStays(q, rest, accept);
        assert LongEndianAt(p, input, 0, accept);
      } else {
        EveryInput(q, rest, accept);
        assert !LongEndianAt(p, input, 0, accept);
        if k: nat :| k < |rest| && LongEndianAt(q, rest, k, accept) { assert LongEndianAt(p, input, k + 1, accept); }
        if k: nat :| k < |input| && LongEndianAt(p, input, k, accept) { assert LongEndianAt(q, rest, k - 1, accept); }
      }
    }
  }

  lemma {:induction false} CrashStays(p: Parser, input: string, accept: Callback)
    requires p.error != NoError
    ensures FeedAll(p, input, accept) == p && End(p, accept) == p && !LongEndian(p)
    decreases |input|
  {
    StoppedIsPast(p);
    if input != [] { CrashStays(p, input[1..], accept); }
  }

  // ---------- what follows from the invariant

  /** After at most two looks the character has been taken, or the parser has stopped. */
  lemma TwoLooks(p: Parser, c: char, accept: Callback)
    requires ParserInv(p)
    ensures Sound(p)
    ensures var first := Look(p, c, accept);
      first.1 || first.0.error != NoError
      || (ParserInv(first.0) && Sound(first.0) && (Look(first.0, c, accept).1 || Look(first.0, c, accept).0.error != NoError))
  {
    hide Known, Typed, Placed, TakeToken, Apply, Sections, LexInv;
    LexStart(p.lexer);
    LookInv(p, c, accept);
    var first := Look(p, c, accept);
    if !first.1 && first.0.error == NoError {
      InitAfterToken(p, accept);
      LexStart(first.0.lexer);
      InitTakesAll(first.0.lexer, c);
    }
  }

  lemma InitAfterToken(p: Parser, accept: Callback)
    requires ParserInv(p)
    ensures var q := TakeToken(p, false, accept); q.error == NoError ==> q.lexer.mode == Mode.Init
  {
    hide Known, Typed, Placed, Begin, Next, ResultOf, TypeOf, Sections, LexInv;
    LexStart(p.lexer);
    FinishInv(p.lexer);
    match Finish(p.lexer) {
      case TokenDone(l, t) => HandleMode(p.(lexer := l), t, accept);
      case _ =>
    }
  }

  lemma HandleMode(p: Parser, t: Token, accept: Callback)
    requires p.sel <= SECTION_COUNT && p.lexer.mode == Mode.Init
    ensures var q := Handle(p, t, false, accept); q.error == NoError ==> q.lexer.mode == Mode.Init
  {
    hide Begin, Next, ResultOf, Sections;
    if !p.hasMachine {
      BeginMode(p, t);
    } else if |p.machine.queue| < STACK_SIZE && WellPlaced(p.machine) && Next(p.machine, t).Taken? {
      var m := Next(p.machine, t).machine;
      if WellPlaced(m) && ResultOf(m).Ready? && p.lexer.mode == Mode.Init {
        BeginMode(Deliver(p, ResultOf(m).section, accept), t);
      }
    }
  }

  lemma BeginMode(p: Parser, t: Token)
    requires p.sel <= SECTION_COUNT
    ensures p.lexer.mode == Mode.Init ==> Begin(p, t).lexer.mode == Mode.Init
  {
    hide Sections;
  }

  /** The strings of a section are still in the buffer when the caller gets it. */
  lemma DeliveredIntact(m: Machine, t: Token, shapes: seq<Shape>, before: string, text: string)
    requires Typed(m, shapes) && !m.done && TokenOk(t) && |m.queue| < STACK_SIZE
    requires Placed(m.queue, before) && before <= text && InBuffer(t.place, t.data, text) && (t.place.Buffer? ==> t.place.at >= |before|)
    requires Next(m, t).Taken? && WellPlaced(Next(m, t).machine) && ResultOf(Next(m, t).machine).Ready?
    ensures forall v :: v in ResultOf(Next(m, t).machine).section.values && IsText(v) ==> InBuffer(v.place, v.text, text)
  {
    hide Typed, Next, ResultOf, TokenOk;
    TypedPlaced(m, shapes);
    NextQueue(m, t);
    var n := Next(m, t).machine;
    assert n.queue == m.queue + n.queue[|m.queue|..];
    PlacedAppend(m.queue, n.queue[|m.queue|..], t, before, text);
    ReadyValues(n);
  }

  /** No EV_ section ever reaches the caller: the value type of an environment variable is a digit, the table
      waits for a symbol, and the lexer never makes a symbol of a digit. */
  lemma EnvironmentNeverDelivered(m: Machine)
    requires Typed(m, Shapes(ENVIRONMENT)) && m.table == Table(ENVIRONMENT)
    ensures !ResultOf(m).Ready?
  {
  }

  /** Nor does a SIG_VALTYPE_ section, for the same reason. */
  lemma ValueTypeNeverDelivered(m: Machine)
    requires Typed(m, Shapes(SIGNAL_VALUE_TYPES)) && m.table == Table(SIGNAL_VALUE_TYPES)
    ensures !ResultOf(m).Ready?
  {
    if ResultOf(m).Ready? {
      ReadyRow(m, Shapes(SIGNAL_VALUE_TYPES));
      assert Blocked(SIGNAL_VALUE_TYPES[0].op.pattern[2]);
    }
  }

  /** A SGTYPE_ section is always a type definition: the pattern of the reference form holds a space. */
  lemma TypeReferenceNeverDelivered(m: Machine)
    requires Typed(m, Shapes(SIGNAL_TYPES)) && m.table == Table(SIGNAL_TYPES) && ResultOf(m).Ready?
    ensures ResultOf(m).section.name == "initSignalType"
  {
    ReadyRow(m, Shapes(SIGNAL_TYPES));
    assert Blocked(SIGNAL_TYPES[1].op.pattern[2]);
  }

  // ---------- what is delivered, over every input

  /** A section with the keyword of `from` can be one like `s`. */
  predicate CanDeliver(from: ParserSection, s: Section) {
    from.keyword != "EV_" && from.keyword != "SIG_VALTYPE_" && (from.keyword == "SGTYPE_" ==> s.name == "initSignalType")
  }

  /** `q` has handed over what `p` has, or one section more, from what was the current section then. */
  ghost predicate OneMore(p: Parser, q: Parser) {
    || q.sections == p.sections
    || (p.hasMachine && exists s :: q.sections == p.sections + [s] && CanDeliver(p.current, s))
  }

  lemma ReadyCanDeliver(m: Machine, from: ParserSection)
    requires Known(from) && Typed(m, Shapes(from.rows)) && m.table == Table(from.rows) && ResultOf(m).Ready?
    ensures CanDeliver(from, ResultOf(m).section)
  {
    hide Typed, RowsOk, ResultOf, Table, Shapes;
    if from.keyword == "EV_" {
      EnvironmentNeverDelivered(m);
    } else if from.keyword == "SIG_VALTYPE_" {
      ValueTypeNeverDelivered(m);
    } else if from.keyword == "SGTYPE_" {
      TypeReferenceNeverDelivered(m);
    }
  }

  lemma HandleDelivers(p: Parser, t: Token, last: bool, accept: Callback)
    requires SectionInv(p) && TokenOk(t)
    requires p.hasMachine ==>
      p.machine.table == Table(p.current.rows) && Typed(p.machine, Shapes(p.current.rows)) && !p.machine.done
    ensures OneMore(p, Handle(p, t, last, accept))
  {
    hide Known, Typed, TokenOk, Next, ResultOf, Begin, Sections, CanDeliver;
    if !p.hasMachine {
      BeginDelivers(p, t);
    } else if |p.machine.queue| < STACK_SIZE && WellPlaced(p.machine) {
      var shapes := Shapes(p.current.rows);
      NextTyped(p.machine, shapes, t);
      var taken := Next(p.machine, t);
      if taken.Taken? && WellPlaced(taken.machine) && ResultOf(taken.machine).Ready? {
        var s := ResultOf(taken.machine).section;
        ReadyCanDeliver(taken.machine, p.current);
        var q := Deliver(p, s, accept);
        assert q.sections == p.sections || q.sections == p.sections + [s];
        if q.error == NoError { BeginDelivers(q, t); }
      }
    }
  }

  lemma BeginDelivers(p: Parser, t: Token)
    requires p.sel <= SECTION_COUNT
    ensures Begin(p, t).sections == p.sections
  {
    hide Sections;
  }

  lemma TakeTokenDelivers(p: Parser, last: bool, accept: Callback)
    requires ParserInv(p)
    ensures Sound(p) && OneMore(p, TakeToken(p, last, accept))
  {
    hide Known, Typed, TokenOk, LexInv, Placed, Handle, Finish, Sections, Table, Shapes;
    SoundOf(p);
    FinishInv(p.lexer);
    match Finish(p.lexer) {
      case TokenDone(l, t) => HandleDelivers(p.(lexer := l), t, last, accept);
      case _ =>
    }
  }

  lemma LookDelivers(p: Parser, c: char, accept: Callback)
    requires ParserInv(p)
    ensures Sound(p) && OneMore(p, Look(p, c, accept).0) && (!Ends(p.lexer, c) ==> Look(p, c, accept).0.sections == p.sections)
  {
    hide ParserInv, TakeToken, Sections, OneMore, Apply;
    SoundOf(p);
    if Ends(p.lexer, c) { TakeTokenDelivers(p, false, accept); }
    Unchanged(p, Look(p, c, accept).0);
  }

  lemma Unchanged(p: Parser, q: Parser)
    ensures q.sections == p.sections ==> OneMore(p, q)
  {
  }

  lemma FeedDelivers(p: Parser, c: char, accept: Callback)
    requires Fine(p)
    ensures OneMore(p, Feed(p, c, accept)) && OneMore(p, End(p, accept))
  {
    hide ParserInv, Look, Ends, TakeToken, OneMore;
    Unchanged(p, p);
    if p.error == NoError {
      TakeTokenDelivers(p, true, accept);
      LookDelivers(p, c, accept);
      LookInv(p, c, accept);
      var first := Look(p, c, accept);
      if !first.1 && first.0.error == NoError && Sound(first.0) {
        SecondLook(p, c, accept);
        LookInv(first.0, c, accept);
        LookDelivers(first.0, c, accept);
        SameSections(p, first.0, Look(first.0, c, accept).0);
      }
    }
  }

  lemma SameSections(p: Parser, q: Parser, r: Parser)
    requires OneMore(p, q) && r.sections == q.sections
    ensures OneMore(p, r)
  {
  }

  /** Whatever the input: each further character, and the end of the input, hands over at most one section, and never
      one of kind EV_ or SIG_VALTYPE_, nor a SGTYPE_ section in the form of a reference. */
  lemma NeverDelivered(input: string, c: char, accept: Callback)
    ensures var p := FeedAll(Create(), input, accept);
      OneMore(p, Feed(p, c, accept)) && OneMore(p, End(p, accept))
  {
    hide ParserInv, Feed, FeedAll, OneMore, LongEndianAt;
    CreateInv();
    EveryInput(Create(), input, accept);
    FeedDelivers(FeedAll(Create(), input, accept), c, accept);
  }

  // ---------- the end of the input

  /** The token completes the section and the caller accepts it; and if it is not a token of the section, the next one
      begins with it. */
  ghost predicate Completes(p: Parser, t: Token, accept: Callback)
    requires p.sel <= SECTION_COUNT
  {
    && |p.machine.queue| < STACK_SIZE && WellPlaced(p.machine)
    && var r := Next(p.machine, t);
    && r.Taken? && WellPlaced(r.machine) && ResultOf(r.machine).Ready?
    && var s := ResultOf(r.machine).section;
    && (s.silent || accept(p.sections, s))
    && (r.repeat ==> Begin(Deliver(p, s, accept), t).error == NoError)
  }

  /** The token that is open at the end completes the section. */
  ghost predicate LastCompletes(p: Parser, accept: Callback)
    requires Sound(p)
  {
    Finish(p.lexer).TokenDone? && Completes(p.(lexer := Finish(p.lexer).lexer), Finish(p.lexer).token, accept)
  }

  /** Inside a section the end of the input is accepted if and only if no token is open, whatever is missing of the
      section then, or the open token completes the section and the caller accepts it. */
  lemma TruncatedIsAccepted(p: Parser, accept: Callback)
    requires ParserInv(p) && p.hasMachine
    ensures Sound(p)
    ensures End(p, accept).error == NoError <==> p.lexer.mode == Mode.Init || LastCompletes(p, accept)
    ensures p.lexer.mode == Mode.Init ==> End(p, accept) == p
  {
    hide Sections, Known, Typed, LexInv, Placed, Handle, Finish, TokenOk, Completes;
    SoundOf(p);
    FinishInv(p.lexer);
    match Finish(p.lexer) {
      case TokenDone(l, t) =>
        EndOfToken(p.(lexer := l), t, accept);
        FinishedOpen(p.lexer);
      case _ => FinishedOpen(p.lexer);
    }
  }

  lemma FinishedOpen(l: Lexer)
    requires l.start <= |l.text|
    ensures Finish(l).WaitSymbol? <==> l.mode == Mode.Init
  {
  }

  lemma EndOfToken(p: Parser, t: Token, accept: Callback)
    requires SectionInv(p) && TokenOk(t) && p.hasMachine && p.lexer.mode == Mode.Init
    requires p.machine.table == Table(p.current.rows) && Typed(p.machine, Shapes(p.current.rows)) && !p.machine.done
    ensures Handle(p, t, true, accept).error == NoError <==> Completes(p, t, accept)
  {
    hide Known, Typed, TokenOk, Next, ResultOf, Begin, Sections;
    if |p.machine.queue| < STACK_SIZE && WellPlaced(p.machine) {
      var shapes := Shapes(p.current.rows);
      NextTyped(p.machine, shapes, t);
      var taken := Next(p.machine, t);
      if taken.Taken? {
        TypedPlaced(taken.machine, shapes);
        ResultTyped(taken.machine, shapes);
      }
    }
  }
}
