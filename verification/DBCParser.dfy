/** The parser as the object it is in libnetq/dbc/DBCParser.c: one character buffer, one array of values, and
    pointers into them. */
module DBCParser {
  import opened Words
  import opened DBCLexer
  import opened DBCMachine
  import opened DBCTyping
  import opened DBCTables
  import opened DBCParserModel
  import opened DBCParserSafety

  type State = DBCParserModel.Parser

  datatype LexerResult = Done(token: Token) | Wait | BadNumber | BadString

  class Parser {
    const buffer: array<char>
    const values: array<Value>
    const accept: Callback

    var mode: Mode
    var currentLine: nat
    var currentColumn: nat
    var tokenLine: nat
    var tokenColumn: nat
    var indent: nat
    var start: nat
    var position: nat
    var prev: char

    var opcode: nat
    var item: nat
    var offset: nat
    var done: bool
    var teil: nat

    var hasMachine: bool
    var parent: Option<ParserSection>
    var current: ParserSection
    var sel: nat
    var used: set<nat>
    var errorCode: Error
    /** What the caller has had. */
    var sections: seq<Section>

    ghost predicate Shaped()
      reads this
    {
      && buffer.Length == BUFFER_SIZE && values.Length == STACK_SIZE && buffer as object != values as object
      && start <= position <= BUFFER_SIZE && teil <= STACK_SIZE && sel <= SECTION_COUNT
    }

    ghost function LexerView(): Lexer
      reads this`mode, this`currentLine, this`currentColumn, this`tokenLine, this`tokenColumn
      reads this`indent, this`start, this`position, this`prev, buffer
    {
      Lexer(mode, currentLine, currentColumn, tokenLine, tokenColumn, indent,
            if position <= buffer.Length then buffer[..position] else [], start, prev)
    }

    ghost function MachineView(): Machine
      reads this`hasMachine, this`current, this`opcode, this`item, this`offset, this`done, this`teil, values
    {
      if hasMachine && teil <= values.Length then Machine(Table(current.rows), opcode, item, offset, done, values[..teil])
      else NO_MACHINE
    }

    ghost function Raw(): State
      reads this, buffer, values
    {
      DBCParserModel.Parser(LexerView(), MachineView(), hasMachine, parent, current, sel, used, errorCode, sections)
    }

    /** What is left of a parser that has stopped is its error code. */
    ghost function View(): State
      reads this, buffer, values
    {
      if errorCode == NoError then Raw() else Fail(Raw(), errorCode)
    }

    ghost predicate Valid()
      reads this, buffer, values
    {
      Shaped() && Fine(View())
    }

    constructor (accept: Callback)
      ensures Valid() && fresh(buffer) && fresh(values) && this.accept == accept && View() == Create()
    {
      hide Sections, ParserInv;
      this.accept := accept;
      buffer := new char[BUFFER_SIZE];
      values := new Value[STACK_SIZE];
      mode, currentLine, currentColumn, tokenLine, tokenColumn := Mode.Init, 0, 0, 0, 0;
      indent, start, position, prev := 0, 0, 0, NIL;
      opcode, item, offset, done, teil := 0, 0, 0, false, 0;
      hasMachine, parent, current, sel, used := false, None, Sections()[0], 0, {};
      errorCode, sections := NoError, [];
      new;
      CreateInv();
      assert buffer[..0] == "";
    }

    // ---------- the lexer

    method Put(next: Mode, c: char)
      requires Shaped() && position < BUFFER_SIZE
      modifies this`mode, this`position, buffer
      ensures Shaped() && LexerView() == DBCLexer.Put(old(LexerView()), next, c)
    {
      buffer[position] := c;
      position := position + 1;
      mode := next;
      assert buffer[..position] == old(buffer[..position]) + [c];
    }

    /** The digits, points and exponents of a number: the cases kLexerModeSInteger and kLexerModeUInteger. */
    method ApplyInteger(c: char) returns (taken: bool)
      requires Shaped() && position < BUFFER_SIZE
      modifies this`mode, this`position, buffer
      ensures Shaped() && DBCLexer.ApplyInteger(old(LexerView()), c) == if taken then Some(LexerView()) else None
      ensures !taken ==> LexerView() == old(LexerView()) && position == old(position)
    {
      taken := true;
      if IsDigit(c) {
        Put(mode, c);
      } else if c == '.' {
        Put(Number, c);
      } else if c == 'e' || c == 'E' {
        Put(ExponentSymbolNumber, c);
      } else {
        taken := false;
      }
    }

    /** DBCLexer_apply in mode kLexerModeInit. */
    method ApplyInit(c: char)
      requires Shaped() && position < BUFFER_SIZE
      modifies this`mode, this`position, this`indent, this`tokenLine, this`tokenColumn, buffer
      ensures Shaped() && LexerView() == DBCLexer.ApplyInit(old(LexerView()), c)
    {
      tokenLine, tokenColumn := currentLine, currentColumn;
      var sign := indent == 0 && IsDigit(prev);
      if c == '\r' {
        Put(CRLF, '\n');
      } else if c == '\n' {
        Put(LF, c);
      } else if IsSpace(c) {
        indent := indent + 1;
      } else if c == '"' {
        mode := CString;
      } else if c == '+' {
        Put(if sign then AnySymbol else PlusSymbol, c);
      } else if c == '-' {
        Put(if sign then AnySymbol else MinusSymbol, c);
      } else if IsDigit(c) {
        Put(UInteger, c);
      } else if IsFirstIdentifier(c) {
        Put(CIdentifier, c);
      } else {
        Put(AnySymbol, c);
      }
    }

    /** DBCLexer_apply. */
    method LexerApply(c: char) returns (taken: bool)
      requires Shaped() && position < BUFFER_SIZE
      modifies this`mode, this`position, this`indent, this`tokenLine, this`tokenColumn, buffer
      ensures Shaped() && Apply(old(LexerView()), c) == if taken then Some(LexerView()) else None
      ensures !taken ==> LexerView() == old(LexerView())
    {
      hide DBCLexer.ApplyInit, DBCLexer.ApplyInteger;
      taken := true;
      match mode {
        case Init =>
          ApplyInit(c);
        case CRLF =>
          if c == '\r' || c == '\n' { mode := LF; } else { taken := false; }
        case LF =>
          if c == '\r' { mode := CRLF; } else { taken := c == '\n'; }
        case CIdentifier =>
          if IsNextIdentifier(c) { Put(mode, c); } else { taken := false; }
        case CString =>
          if c == '"' { mode := FinalCString; } else if c == '\\' { mode := EscapeCString; } else { Put(mode, c); }
        case EscapeCString =>
          Put(CString, c);
        case PlusSymbol =>
          if IsDigit(c) { Put(SInteger, c); } else { taken := false; }
        case MinusSymbol =>
          if IsDigit(c) { Put(SInteger, c); } else { taken := false; }
        case SInteger =>
          taken := ApplyInteger(c);
        case UInteger =>
          taken := ApplyInteger(c);
          if !taken && IsNextIdentifier(c) { Put(CIdentifier, c); taken := true; }
        case Number =>
          if c == 'e' || c == 'E' { Put(ExponentSymbolNumber, c); } else if IsDigit(c) { Put(mode, c); } else { taken := false; }
        case ExponentSymbolNumber =>
          if c == '+' || c == '-' { Put(ExponentSignNumber, c); } else if IsDigit(c) { Put(ExponentNumber, c); } else { taken := false; }
        case ExponentSignNumber =>
          if IsDigit(c) { Put(ExponentNumber, c); } else { taken := false; }
        case ExponentNumber =>
          if IsDigit(c) { Put(mode, c); } else { taken := false; }
        case AnySymbol =>
          taken := false;
        case FinalCString =>
          taken := false;
      }
    }

    /** DBCLexer_finish: the NUL goes behind the token. */
    method LexerFinish() returns (r: LexerResult)
      requires Shaped() && (mode != Mode.Init ==> position < BUFFER_SIZE)
      modifies this`mode, this`position, this`indent, this`start, buffer
      ensures Shaped()
      ensures match Finish(old(LexerView()))
        case TokenDone(l, t) => r == Done(t) && LexerView() == l
        case WaitSymbol => r == Wait && LexerView() == old(LexerView())
        case NumberError => r == BadNumber
        case StringError => r == BadString
    {
      if mode == Mode.Init {
        return Wait;
      }
      if mode == CString || mode == EscapeCString {
        return BadString;
      }
      var kind := TypeOf(mode);
      if kind.None? {
        return BadNumber;
      }
      var data := buffer[start..position];
      assert data == buffer[..position][start..];
      r := Done(Token(kind.value, tokenLine, tokenColumn, indent, if data == "" then Static else Buffer(start), data));
      if data != "" {
        buffer[position] := NIL;
        position := position + 1;
        assert buffer[..position] == old(buffer[..position]) + [NIL];
      }
      mode, indent, start := Mode.Init, 0, position;
    }

    // ---------- the machine

    /** DBCMachine_push. */
    method Push(v: Value)
      requires Shaped() && teil < STACK_SIZE
      modifies this`teil, values
      ensures Shaped() && values[..teil] == old(values[..teil]) + [v]
    {
      values[teil] := v;
      teil := teil + 1;
    }

    method PushAll(vs: seq<Value>)
      requires Shaped() && teil + |vs| <= STACK_SIZE
      modifies this`teil, values
      ensures Shaped() && values[..teil] == old(values[..teil]) + vs
    {
      var n := 0;
      while n < |vs|
        invariant n <= |vs| && Shaped() && teil == old(teil) + n && values[..teil] == old(values[..teil]) + vs[..n]
      {
        Push(vs[n]);
        n := n + 1;
      }
      assert vs[..n] == vs;
    }

    /** DBCMachine_next2; `asserted` says that an assertion in it has failed. */
    method Next2(t: Token) returns (matched: bool, asserted: bool)
      requires Shaped() && hasMachine && WellPlaced(MachineView())
      requires DBCMachine.Next2(MachineView(), t).Some? ==> |DBCMachine.Next2(MachineView(), t).value.queue| <= STACK_SIZE
      modifies this`item, this`offset, this`teil, values
      ensures Shaped() && asserted == AssertsAt(old(MachineView()), t) && (asserted ==> !matched)
      ensures !asserted ==> DBCMachine.Next2(old(MachineView()), t) == if matched then Some(MachineView()) else None
      ensures !matched ==> MachineView() == old(MachineView())
    {
      var pattern := current.rows[opcode].op.pattern;
      matched, asserted := false, false;
      if item == |pattern| {
        return;
      }
      match pattern[item] {
        case Mark(marker) =>
          if Asserts(marker, t) {
            return false, true;
          }
          var pushed := MatchMarker(marker, t);
          if pushed.None? {
            return;
          }
          PushAll(pushed.value);
          item := item + 1;
        case Lit(text) =>
          assert text[offset..][0] == text[offset];
          if text[offset] == ' ' || (t.kind != IdentifierToken && t.kind != SymbolToken) || !(t.data <= text[offset..]) {
            return;
          }
          if offset + |t.data| == |text| {
            assert t.data == text[offset..];
            item, offset := item + 1, 0;
          } else {
            offset := offset + |t.data|;
          }
      }
      matched := true;
    }

    /** DBCMachine_next. */
    method MachineNext(t: Token) returns (accepted: bool, repeat: bool, asserted: bool)
      requires Shaped() && hasMachine && !done && Typed(MachineView(), DBCTables.Shapes(current.rows)) && TokenOk(t) && teil < STACK_SIZE
      modifies this`opcode, this`item, this`offset, this`done, this`teil, values
      ensures Shaped()
      ensures accepted ==> Next(old(MachineView()), t) == Taken(MachineView(), repeat)
      ensures !accepted ==> Next(old(MachineView()), t) == if asserted then Asserted else Refused
      ensures accepted ==> !asserted
    {
      hide Typed, DBCMachine.Next2, TokenOk, TableOk, Next, WellPlaced, AssertsAt;
      ghost var shapes := DBCTables.Shapes(current.rows);
      ghost var m := MachineView();
      TypedPlaced(m, shapes);
      while true
        invariant Shaped() && !done && teil < STACK_SIZE && Typed(MachineView(), shapes) && WellPlaced(MachineView())
        invariant Next(MachineView(), t) == Next(m, t)
        decreases |current.rows| - opcode
      {
        NextStep(MachineView(), shapes, t);
        var matched;
        matched, asserted := Next2(t);
        if asserted {
          return false, false, true;
        }
        if matched {
          return true, false, false;
        }
        if item != 0 || offset != 0 {
          return false, false, false;
        }
        var op := current.rows[opcode].op;
        if op.next == 0 && op.required != '?' && op.required != '*' {
          return false, false, false;
        }
        if op.next == 0 && op.init.Some? {
          done := true;
          return true, true, false;
        }
        opcode, item, offset, done := opcode + if op.next != 0 then op.next else 1, 0, 0, false;
      }
    }

    /** The init function of the current opcode: its fields are shifted out one after the other. */
    method RunInit(init: Init) returns (ready: Option<Section>, head: nat)
      requires Shaped()
      ensures head <= teil && (ready, values[head..teil]) == DBCMachine.RunInit(init, values[..teil])
    {
      hide ShiftField;
      head := 0;
      if init.skipsEmpty && teil == 0 {
        return Some(Section(init.name, [], true)), 0;
      }
      var taken: seq<Value> := [];
      var k := 0;
      assert init.fields[0..] == init.fields && values[0..teil] == values[..teil];
      while k < |init.fields|
        invariant k <= |init.fields| && head <= teil
        invariant var rest := ShiftFields(init.fields[k..], values[head..teil]); var all := ShiftFields(init.fields, values[..teil]);
          if rest.Failed? then all.Failed? else all == Shifted(taken + rest.values, rest.rest)
      {
        var s := ShiftField(init.fields[k], values[head..teil]);
        assert init.fields[k..][1..] == init.fields[k + 1..];
        if s.Failed? {
          return None, 0;
        }
        SuffixLeft(init.fields[k], values[head..teil]);
        taken := taken + s.values;
        head := teil - |s.rest|;
        assert s.rest == values[head..teil];
        k := k + 1;
      }
      assert init.fields[k..] == [] && taken + [] == taken;
      ready := Some(Section(init.name, taken, init.silent));
    }

    /** DBCMachine_result. */
    method MachineResult() returns (ready: Option<Section>)
      requires Shaped() && hasMachine && Typed(MachineView(), DBCTables.Shapes(current.rows))
      modifies this`opcode, this`item, this`offset, this`done, this`teil
      ensures Shaped() && WellPlaced(old(MachineView()))
      ensures ready.None? ==> ResultOf(old(MachineView())) == More(MachineView())
      ensures ready.Some? ==> ResultOf(old(MachineView())) == Ready(ready.value, []) && teil == 0
    {
      hide Typed, DBCMachine.RunInit;
      ghost var shapes := DBCTables.Shapes(current.rows);
      TypedPlaced(MachineView(), shapes);
      ResultTyped(MachineView(), shapes);
      var op := current.rows[opcode].op;
      var head: nat;
      if done {
        ready, head := RunInit(op.init.value);
        teil := 0;
      } else if item != |op.pattern| {
        ready := None;
      } else if op.required == '*' {
        item, offset := 0, 0;
        ready := None;
      } else if op.init.Some? {
        ready, head := RunInit(op.init.value);
        teil := 0;
      } else {
        opcode, item, offset, done := opcode + 1, 0, 0, false;
        ready := None;
      }
    }

    // ---------- the parser

    method Stop(e: Error)
      requires Shaped() && e != NoError
      modifies this`errorCode
      ensures Shaped() && errorCode == e && View() == Fail(old(Raw()), e)
    {
      hide Sections;
      errorCode := e;
    }

    /** DBCMachine_init for the current section. */
    method StartMachine()
      modifies this`used, this`hasMachine, this`opcode, this`item, this`offset, this`done, this`teil
      ensures hasMachine && used == old(used) + {current.identifier} && teil == 0
      ensures MachineView() == Machine(Table(current.rows), 0, 0, 0, false, [])
    {
      hide Table;
      used := used + {current.identifier};
      hasMachine := true;
      opcode, item, offset, done, teil := 0, 0, 0, false, 0;
      assert values[..0] == [];
    }

    /** NQDBCParser_chooseSection. */
    method ChooseSection(keyword: string) returns (found: bool)
      requires Shaped()
      modifies this`current, this`parent, this`sel
      ensures Shaped()
      ensures Choose(old(Raw()), keyword) ==
              if found then Some(old(Raw()).(current := current, parent := parent, sel := sel)) else None
      ensures !found ==> current == old(current) && parent == old(parent) && sel == old(sel)
    {
      hide Sections;
      if current.keyword == keyword {
        return true;
      }
      if parent.Some? {
        var child := Find(parent.value.children, 0, keyword);
        if child < |parent.value.children| {
          current := parent.value.children[child];
          return true;
        }
      }
      var later := Find(Sections(), sel, keyword);
      if later < SECTION_COUNT {
        sel, current, parent := later, Sections()[later], None;
        return true;
      }
      var earlier := Find(Sections(), 0, keyword);
      if earlier < sel {
        current, parent := Sections()[earlier], None;
        return true;
      }
      found := false;
    }

    /** The part of NQDBCParser_next outside a section. */
    method BeginSection(t: Token)
      requires Shaped() && errorCode == NoError && !hasMachine
      modifies this`errorCode, this`current, this`parent, this`sel, this`used, this`hasMachine
      modifies this`opcode, this`item, this`offset, this`done, this`teil
      ensures Shaped() && View() == Begin(old(View()), t)
    {
      hide Sections, Choose, Table, LexerView, MachineView;
      if t.kind == SymbolToken && t.data != "" && t.data[0] == '\n' {
        return;
      }
      if t.kind != IdentifierToken {
        Stop(SectionKeyword);
        return;
      }
      var found := ChooseSection(t.data);
      if !found {
        Stop(SectionKeyword);
        return;
      }
      if current.required != '?' && current.required != '1' && current.required != '*' {
        Stop(Crash);
        return;
      }
      if (current.required == '?' || current.required == '1') && current.identifier in used {
        Stop(SectionError(current.identifier));
        return;
      }
      StartMachine();
    }

    /** DBCLexer_reset. */
    method ResetLexer()
      modifies this`mode, this`indent, this`start, this`position, this`prev
      ensures start == position == 0 && LexerView() == Reset(old(LexerView()))
    {
      mode, indent, start, position, prev := Mode.Init, 0, 0, 0, NIL;
      assert buffer[..0] == "";
    }

    lemma ErrorOf()
      ensures View().error == errorCode
    {
    }

    lemma ModeOf()
      ensures LexerView().mode == mode
    {
    }

    /** The callback gets a section, unless it is one of those that are dropped. */
    method Offer(section: Section) returns (proceed: bool)
      modifies this`sections
      ensures sections == if section.silent then old(sections) else old(sections) + [section]
      ensures proceed == (section.silent || accept(old(sections), section))
    {
      proceed := true;
      if !section.silent {
        proceed := accept(sections, section);
        sections := sections + [section];
      }
    }

    /** The end of the loop of NQDBCParser_next: ready for the next section. */
    method NextSection()
      requires mode == Mode.Init
      modifies this`parent, this`hasMachine, this`mode, this`indent, this`start, this`position, this`prev
      ensures !hasMachine && MachineView() == NO_MACHINE && LexerView() == Reset(old(LexerView())) && start == position == 0
      ensures parent == if old(parent) == None then Some(current) else old(parent)
    {
      if parent == None {
        parent := Some(current);
      }
      hasMachine := false;
      ResetLexer();
    }

    /** The part of NQDBCParser_next that hands a section over and gets ready for the next one. */
    method DeliverSection(section: Section)
      requires Shaped() && errorCode == NoError && mode == Mode.Init
      modifies this`errorCode, this`sections, this`parent, this`hasMachine
      modifies this`mode, this`indent, this`start, this`position, this`prev
      ensures Shaped() && View() == Deliver(old(View()), section, accept)
      ensures errorCode == NoError ==> !hasMachine
    {
      hide Sections, Reset, Table, LexerView, MachineView;
      ModeOf();
      var proceed := Offer(section);
      if !proceed {
        Stop(User);
        return;
      }
      NextSection();
    }

    /** The loop of NQDBCParser_next: it runs a second time only for a token that belongs to the next section.
        `before` is what the buffer held before the token. */
    method HandleToken(t: Token, last: bool, ghost before: string)
      requires Shaped() && errorCode == NoError && mode == Mode.Init && HandlePre(Raw(), t, before)
      modifies this, values
      ensures Shaped() && View() == Handle(old(View()), t, last, accept)
    {
      hide Sections, Typed, TokenOk, Placed, Known, LexInv, Next, Follow, Table, LexerView, DBCTables.Shapes, Begin, WellPlaced;
      if !hasMachine {
        BeginSection(t);
        return;
      }
      if teil >= STACK_SIZE {
        Stop(StackOverflow);
        return;
      }
      ghost var p := Raw();
      HandleFacts(p, t);
      var accepted, repeat, asserted := MachineNext(t);
      if asserted {
        Stop(Crash);
      } else if !accepted {
        Stop(SectionError(current.identifier));
      } else {
        FollowIgnoresMachine(p, MachineView(), repeat, t, last, accept);
        FollowToken(t, last, repeat);
      }
    }

    /** The machine has taken the token, or ends the section before it. */
    method FollowToken(t: Token, last: bool, repeat: bool)
      requires Shaped() && errorCode == NoError && mode == Mode.Init && hasMachine && Typed(MachineView(), DBCTables.Shapes(current.rows))
      modifies this
      ensures Shaped() && View() == Follow(old(View()), old(MachineView()), repeat, t, last, accept)
    {
      hide Sections, Typed, Known, ResultOf, Table, LexerView, DBCTables.Shapes, Begin, WellPlaced, Deliver;
      ghost var p := Raw();
      var ready := MachineResult();
      if ready.None? {
        if last {
          Stop(SectionKeyword);
        }
        return;
      }
      DeliverIgnoresMachine(p, MachineView(), ready.value, accept);
      Conclude(ready.value, t, repeat);
    }

    /** The section is complete; a token that did not belong to it starts the next one. */
    method Conclude(section: Section, t: Token, repeat: bool)
      requires Shaped() && errorCode == NoError && mode == Mode.Init
      modifies this
      ensures Shaped()
      ensures var q := Deliver(old(View()), section, accept);
        q.sel <= SECTION_COUNT && View() == if q.error == NoError && repeat then Begin(q, t) else q
    {
      hide Sections, Begin, Deliver, LexerView, MachineView;
      DeliverSection(section);
      ErrorOf();
      if errorCode == NoError && repeat {
        BeginSection(t);
      }
    }

    /** DBCLexer_finish and what NQDBCParser_next makes of its result. */
    method FinishToken(last: bool)
      requires Shaped() && errorCode == NoError && ParserInv(Raw())
      modifies this, buffer, values
      ensures Valid() && View() == TakeToken(old(View()), last, accept)
    {
      hide ParserInv, SectionInv, MachineInv, LexInv, Handle, HandlePre, Finish, LexerView, MachineView, Sections;
      ghost var p := Raw();
      TakeTokenInv(p, last, accept);
      ModeOf();
      TextLength();
      SoundOf(p);
      ghost var before := p.lexer.text[..p.lexer.start];
      TakeTokenPre(p, before);
      var r := LexerFinish();
      match r {
        case Wait =>
        case BadNumber =>
          Stop(TokenNumber);
        case BadString =>
          Stop(TokenString);
        case Done(t) =>
          ModeOf();
          HandleToken(t, last, before);
      }
    }

    /** One turn of the loop of DBCLexer_next; with `taken` false it is the last one, and the rest of
        NQDBCParser_next follows. */
    method TakeCharacter(data: string, next: nat) returns (taken: bool)
      requires Shaped() && errorCode == NoError && ParserInv(Raw()) && next < |data|
      modifies this, buffer, values
      ensures taken ==> Shaped() && errorCode == NoError && ParserInv(Raw()) && Raw() == Feed(old(Raw()), data[next], accept)
      ensures !taken ==> Valid() && FeedAll(View(), data[next..], accept) == FeedAll(old(Raw()), data[next..], accept)
      ensures !taken && errorCode == NoError ==> mode == Mode.Init && old(mode) != Mode.Init
    {
      hide ParserInv, TakeToken, Apply, Feed, FeedAll, Fail, Sections, LexerView, MachineView;
      var c := data[next];
      ghost var p := Raw();
      LookInv(p, c, accept);
      TextLength();
      if position >= BUFFER_SIZE - 1 {
        Stop(BufferOverflow);
        LookFails(p, data, next, accept);
        return false;
      }
      ModeOf();
      taken := LexerApply(c);
      if taken {
        TakenFeeds(p, c, accept);
        AdvanceColumn(c);
      } else {
        FinishToken(false);
        LookAgain(p, data, next, accept);
        ModeOf();
      }
    }

    /** DBCLexer_next followed by the rest of NQDBCParser_next: up to the end of one token, or of the data. */
    method NextToken(data: string, from: nat) returns (next: nat)
      requires Valid() && errorCode == NoError && from < |data|
      modifies this, buffer, values
      ensures Valid() && from <= next <= |data|
      ensures FeedAll(View(), data[next..], accept) == FeedAll(old(View()), data[from..], accept)
      ensures errorCode == NoError ==> next > from || (mode == Mode.Init && old(mode) != Mode.Init)
    {
      hide ParserInv, Feed, FeedAll, Fail, LexerView, MachineView;
      next := from;
      while next < |data|
        invariant from <= next <= |data| && Shaped() && errorCode == NoError && ParserInv(Raw())
        invariant FeedAll(Raw(), data[next..], accept) == FeedAll(old(View()), data[from..], accept)
        invariant next == from ==> mode == old(mode)
      {
        FeedCons(Raw(), data, next, accept);
        var taken := TakeCharacter(data, next);
        if !taken {
          return;
        }
        next := next + 1;
      }
    }

    lemma TextLength()
      requires Shaped()
      ensures |LexerView().text| == position
    {
    }

    method AdvanceColumn(c: char)
      modifies this`currentLine, this`currentColumn, this`prev
      ensures LexerView() == Advance(old(LexerView()), c)
    {
      if mode == LF {
        currentColumn := 0;
        currentLine := currentLine + 1;
      } else {
        currentColumn := currentColumn + 1;
      }
      prev := c;
    }

    /** NQDBCParser_append. */
    method Append(data: string) returns (ok: bool)
      requires Valid()
      modifies this, buffer, values
      ensures Valid() && View() == FeedAll(old(View()), data, accept) && ok == (errorCode == NoError)
    {
      hide Fine, Feed, Fail, LexerView, MachineView;
      var start := 0;
      assert data[0..] == data;
      while errorCode == NoError && start < |data|
        invariant start <= |data| && Valid()
        invariant FeedAll(View(), data[start..], accept) == FeedAll(old(View()), data, accept)
        decreases if errorCode == NoError then 1 else 0, |data| - start, if mode == Mode.Init then 0 else 1
      {
        start := NextToken(data, start);
      }
      ErrorOf();
      if errorCode != NoError { DeadStays(View(), data[start..], accept); }
      ok := errorCode == NoError;
    }

    /** NQDBCParser_finish. */
    method EndInput() returns (ok: bool)
      requires Valid()
      modifies this, buffer, values
      ensures Valid() && View() == End(old(View()), accept) && ok == (errorCode == NoError)
    {
      hide ParserInv, TakeToken, Fail, LexerView, MachineView, Sections;
      ErrorOf();
      if errorCode == NoError {
        SoundOf(View());
        FinishToken(true);
      }
      ok := errorCode == NoError;
    }
  }

  method Find(s: seq<ParserSection>, from: nat, keyword: string) returns (i: nat)
    requires from <= |s|
    ensures i == FindKeyword(s, from, keyword)
  {
    i := from;
    while i < |s| && s[i].keyword != keyword
      invariant i <= |s| && FindKeyword(s, i, keyword) == FindKeyword(s, from, keyword)
    {
      i := i + 1;
    }
  }

  /** What holds when a token has just been finished. */
  ghost predicate HandlePre(p: State, t: Token, before: string) {
    && SectionInv(p) && LexInv(p.lexer) && p.lexer.mode == Mode.Init && TokenOk(t)
    && p.lexer.start == |p.lexer.text| && before <= p.lexer.text && InBuffer(t.place, t.data, p.lexer.text)
    && (t.place.Buffer? ==> t.place.at >= |before|)
    && (p.hasMachine ==>
          && p.machine.table == Table(p.current.rows) && Typed(p.machine, DBCTables.Shapes(p.current.rows))
          && !p.machine.done && |p.machine.queue| <= STACK_SIZE && Placed(p.machine.queue, before))
  }

  lemma DeliverIgnoresMachine(p: State, m: Machine, section: Section, accept: Callback)
    ensures Deliver(p.(machine := m), section, accept) == Deliver(p, section, accept)
  {
  }

  lemma FollowIgnoresMachine(p: State, m: Machine, repeat: bool, t: Token, last: bool, accept: Callback)
    requires p.sel <= SECTION_COUNT
    ensures Follow(p.(machine := m), m, repeat, t, last, accept) == Follow(p, m, repeat, t, last, accept)
  {
    hide Sections, ResultOf, Begin, WellPlaced;
  }

  lemma HandleFacts(p: State, t: Token)
    requires p.hasMachine && Typed(p.machine, DBCTables.Shapes(p.current.rows)) && !p.machine.done && TokenOk(t) && |p.machine.queue| < STACK_SIZE
    ensures WellPlaced(p.machine)
    ensures Next(p.machine, t).Taken? ==>
              WellPlaced(Next(p.machine, t).machine) && Typed(Next(p.machine, t).machine, DBCTables.Shapes(p.current.rows))
  {
    hide Typed, Next;
    TypedPlaced(p.machine, DBCTables.Shapes(p.current.rows));
    NextTyped(p.machine, DBCTables.Shapes(p.current.rows), t);
    if Next(p.machine, t).Taken? { TypedPlaced(Next(p.machine, t).machine, DBCTables.Shapes(p.current.rows)); }
  }

  lemma TakeTokenPre(p: State, before: string)
    requires ParserInv(p) && before == p.lexer.text[..p.lexer.start]
    ensures p.lexer.mode != Mode.Init ==> |p.lexer.text| < BUFFER_SIZE
    ensures match Finish(p.lexer)
      case TokenDone(l, t) => l.mode == Mode.Init && HandlePre(p.(lexer := l), t, before)
      case _ => true
  {
    hide Typed, Placed, Known, Finish;
    FinishInv(p.lexer);
  }

  lemma FeedCons(p: State, data: string, i: nat, accept: Callback)
    requires i < |data|
    ensures FeedAll(p, data[i..], accept) == FeedAll(Feed(p, data[i], accept), data[i + 1..], accept)
  {
    hide Feed;
    assert data[i..][0] == data[i] && data[i..][1..] == data[i + 1..];
  }

  /** A character that is taken is all that Feed does. */
  lemma TakenFeeds(p: State, c: char, accept: Callback)
    requires ParserInv(p) && |p.lexer.text| < BUFFER_SIZE - 1 && Apply(p.lexer, c).Some?
    ensures Feed(p, c, accept) == p.(lexer := Advance(Apply(p.lexer, c).value, c)) && ParserInv(Feed(p, c, accept))
  {
    hide ParserInv, Apply, Advance;
    SoundOf(p);
    LookInv(p, c, accept);
  }

  lemma {:induction false} DeadStays(p: State, data: string, accept: Callback)
    requires p.error != NoError
    ensures FeedAll(p, data, accept) == p
    decreases |data|
  {
    if data != [] { DeadStays(p, data[1..], accept); }
  }

  lemma LookFails(p: State, data: string, i: nat, accept: Callback)
    requires ParserInv(p) && i < |data| && |p.lexer.text| >= BUFFER_SIZE - 1
    ensures FeedAll(Fail(p, BufferOverflow), data[i..], accept) == FeedAll(p, data[i..], accept)
  {
    hide ParserInv;
    SoundOf(p);
    FeedCons(p, data, i, accept);
    DeadStays(Fail(p, BufferOverflow), data[i..], accept);
    DeadStays(Fail(p, BufferOverflow), data[i + 1..], accept);
  }

  /** A character that ends a token is looked at again, and that is the rest of what Feed does with it. */
  lemma LookAgain(p: State, data: string, i: nat, accept: Callback)
    requires ParserInv(p) && i < |data| && |p.lexer.text| < BUFFER_SIZE - 1 && Apply(p.lexer, data[i]).None?
    ensures var q := TakeToken(p, false, accept);
      FeedAll(q, data[i..], accept) == FeedAll(p, data[i..], accept) && (q.error == NoError ==> q.lexer.mode == Mode.Init && p.lexer.mode != Mode.Init)
  {
    hide ParserInv, Apply, TakeToken, FeedAll, Fail;
    SoundOf(p);
    TwoLooks(p, data[i], accept);
    InitAfterToken(p, accept);
    InitTakes(p.lexer, data[i]);
    var q := TakeToken(p, false, accept);
    if q.error == NoError {
      FeedCons(p, data, i, accept);
      FeedCons(q, data, i, accept);
    } else {
      DeadStays(q, data[i..], accept);
      FeedCons(p, data, i, accept);
      DeadStays(q, data[i + 1..], accept);
    }
  }

  lemma InitTakes(l: Lexer, c: char)
    requires Apply(l, c).None?
    ensures l.mode != Mode.Init
  {
  }

  /** One turn of the loop of DBCMachine_next. */
  lemma NextStep(m: Machine, shapes: seq<Shape>, t: Token)
    requires Typed(m, shapes) && !m.done && TokenOk(t) && |m.queue| < STACK_SIZE
    ensures WellPlaced(m) && m.opcode < |m.table|
    ensures var r := Next2(m, t);
      if AssertsAt(m, t) then Next(m, t) == Asserted && (r.Some? ==> |r.value.queue| <= STACK_SIZE)
      else if r.Some? then |r.value.queue| <= STACK_SIZE && Next(m, t) == Taken(r.value, false)
      else if m.item != 0 || m.offset != 0 then Next(m, t) == Refused
      else
        var op := m.table[m.opcode];
        if op.next == 0 && op.required != '?' && op.required != '*' then Next(m, t) == Refused
        else if op.next == 0 && op.init.Some? then Next(m, t) == Taken(m.(done := true), true)
        else
          var n := SetOpcode(m, m.opcode + if op.next != 0 then op.next else 1);
          n.opcode < |m.table| && Typed(n, shapes) && WellPlaced(n) && Next(m, t) == Next(n, t)
  {
    hide Typed, Next2, TokenOk, TableOk, AssertsAt;
    TypedPlaced(m, shapes);
    if Next2(m, t).Some? {
      Next2Typed(m, shapes, t);
    } else if m.item == 0 && m.offset == 0 {
      var op := m.table[m.opcode];
      if op.next != 0 || ((op.required == '?' || op.required == '*') && op.init.None?) {
        SkipTyped(m, shapes);
        TypedPlaced(SetOpcode(m, m.opcode + if op.next != 0 then op.next else 1), shapes);
      }
    }
  }

  lemma SkipTyped(m: Machine, shapes: seq<Shape>)
    requires Typed(m, shapes) && m.item == 0
    requires var op := m.table[m.opcode]; op.next != 0 || ((op.required == '?' || op.required == '*') && op.init.None?)
    ensures Typed(SetOpcode(m, m.opcode + if m.table[m.opcode].next != 0 then m.table[m.opcode].next else 1), shapes)
  {
    assert OpcodeOk(m.table, shapes, m.opcode);
    SkipFits(m, shapes, m.opcode + if m.table[m.opcode].next != 0 then m.table[m.opcode].next else 1);
  }

  lemma LeftFrom(f: Field, queue: seq<Value>) returns (k: nat)
    requires ShiftField(f, queue).Shifted?
    ensures k <= |queue| && ShiftField(f, queue).rest == queue[k..]
  {
    hide IsText, ArePairs;
    match f {
      case TakeTexts => k := |queue|;
      case TakeDescriptions => k := |queue|;
      case TakeRanges => k := |queue|;
      case Clear => k := |queue|;
      case TakeMultiplexer =>
        var n := if queue[0].Uint32? then 1 else 0;
        k := if queue[n].Identifier? then n + 1 else n;
      case _ => k := 1;
    }
  }

  lemma SuffixLeft(f: Field, queue: seq<Value>)
    requires ShiftField(f, queue).Shifted?
    ensures var rest := ShiftField(f, queue).rest; |rest| <= |queue| && rest == queue[|queue| - |rest|..]
  {
    hide ShiftField;
    var k := LeftFrom(f, queue);
    assert |queue[k..]| == |queue| - k;
  }
}
