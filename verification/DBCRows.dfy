/** The parser inside a section: words that spell a pattern leave what they mean in the queue, in order, and the section
    that is delivered holds it. */
module DBCRows {
  import opened Words
  import opened DBCLexer
  import opened DBCMachine
  import opened DBCTables
  import opened DBCParserModel
  import opened DBCWords
  import opened DBCLayout
  import opened DBCMeaning

  // ---------- a pattern and words

  /** Where a word leads in a pattern, and what it means there: a word at a marker, or a stretch of a literal. */
  function Progress(pattern: seq<Item>, item: nat, offset: nat, w: Word): Option<(nat, nat, seq<Value>)> {
    if item >= |pattern| then None
    else match pattern[item]
      case Mark(m) => if Means(m, w).Some? then Some((item + 1, 0, Means(m, w).value)) else None
      case Lit(text) =>
        if (w.Name? || w.Sym?) && offset < |text| && text[offset] != ' ' && Data(w) <= text[offset..] then
          if Data(w) == text[offset..] then Some((item + 1, 0, [])) else Some((item, offset + |Data(w)|, []))
        else None
  }

  /** What the words mean that spell the pattern from there to its end. */
  function Spelled(pattern: seq<Item>, item: nat, offset: nat, ws: seq<Word>): Option<seq<Value>>
    decreases |ws|
  {
    if ws == [] then None else
      var p := Progress(pattern, item, offset, ws[0]);
      if p.None? then None
      else if |ws| == 1 then (if p.value.0 == |pattern| then Some(p.value.2) else None)
      else if p.value.0 == |pattern| then None
      else
        var rest := Spelled(pattern, p.value.0, p.value.1, ws[1..]);
        if rest.Some? then Some(p.value.2 + rest.value) else None
  }

  predicate NoEmptyLit(pattern: seq<Item>) {
    forall i :: 0 <= i < |pattern| ==> pattern[i] != Lit("")
  }

  /** The machine takes the word as the pattern says. */
  lemma Progresses(m: Machine, t: Token, w: Word, at: nat)
    requires WellPlaced(m) && TokenFor(t, w, at) && WordOk(w) && Progress(m.table[m.opcode].pattern, m.item, m.offset, w).Some?
    ensures var p := Progress(m.table[m.opcode].pattern, m.item, m.offset, w).value; var r := Next(m, t);
      && r.Taken? && !r.repeat && r.machine == m.(item := p.0, offset := p.1, queue := r.machine.queue)
      && PlainAll(r.machine.queue) == PlainAll(m.queue) + p.2 && WellPlaced(r.machine)
  {
    hide Means, MatchMarker, Asserts, WordOk;
    var pattern := m.table[m.opcode].pattern;
    match pattern[m.item] {
      case Mark(k) =>
        MarkerMeans(k, t, w, at);
        PlainConcat(m.queue, MatchMarker(k, t).value);
      case Lit(text) =>
        assert PlainAll(m.queue) + [] == PlainAll(m.queue);
    }
  }

  // ---------- the parser

  /** The parser is in a row of the current section, as `p0` was; what has been read means `vals`. */
  predicate InRow(p0: Parser, p: Parser, k: nat, item: nat, offset: nat, vals: seq<Value>) {
    && Rests(p, |p.lexer.text|) && p.hasMachine
    && p == p0.(lexer := p.lexer, machine := p.machine)
    && p.machine == Machine(p0.machine.table, k, item, offset, false, p.machine.queue) && WellPlaced(p.machine)
    && PlainAll(p.machine.queue) == vals
  }

  /** What the end of a row leads to. */
  predicate RowDone(p0: Parser, q: Parser, k: nat, vals: seq<Value>)
    requires k < |p0.machine.table|
  {
    var op := p0.machine.table[k];
    if op.required == '*' then InRow(p0, q, k, 0, 0, vals)
    else if op.init.None? then InRow(p0, q, k + 1, 0, 0, vals)
    else Delivered(p0, q, op.init.value, vals)
  }

  /** The section has been handed over with the values `vals`, and the parser is between sections. */
  predicate Delivered(p0: Parser, q: Parser, init: Init, vals: seq<Value>) {
    && Rests(q, 0) && |q.sections| == |p0.sections| + 1
    && SameSection(q.sections[|p0.sections|], Section(init.name, vals, false))
    && q == p0.(lexer := q.lexer, machine := NO_MACHINE, hasMachine := false, sections := q.sections,
                parent := if p0.parent.None? then Some(p0.current) else p0.parent)
    && q.sections[..|p0.sections|] == p0.sections
  }

  /** The same name, and the same values up to the places of the texts. */
  predicate SameSection(s: Section, plain: Section) {
    s.name == plain.name && PlainAll(s.values) == plain.values && s.silent == plain.silent
  }

  /** The callback accepts everything. */
  ghost predicate AcceptsAll(accept: Callback) {
    forall before: seq<Section>, s: Section :: accept(before, s)
  }

  // ---------- what an init function makes of the values

  /** The init function takes all of the values, in order. */
  predicate TakesAllOf(init: Init, vals: seq<Value>) {
    !init.silent && !(init.skipsEmpty && vals == []) && ShiftFields(init.fields, vals) == Shifted(vals, [])
  }

  predicate SameShift(s: Shift, p: Shift) {
    (s.Failed? <==> p.Failed?) && (s.Shifted? ==> PlainAll(s.values) == p.values && PlainAll(s.rest) == p.rest)
  }

  lemma SplitPlain(queue: seq<Value>, k: nat)
    requires k <= |queue|
    ensures PlainAll(queue[..k]) == PlainAll(queue)[..k] && PlainAll(queue[k..]) == PlainAll(queue)[k..]
  {
  }

  lemma OnePlain(queue: seq<Value>, typed: bool)
    requires typed ==> queue != []
    ensures SameShift(ShiftIf(queue, typed), ShiftIf(PlainAll(queue), typed))
  {
    if queue != [] {
      SplitPlain(queue, 1);
      assert PlainAll([queue[0]]) == [PlainAll(queue)[0]];
    }
  }

  lemma MultiplexerPlain(queue: seq<Value>)
    ensures SameShift(ShiftField(TakeMultiplexer, queue), ShiftField(TakeMultiplexer, PlainAll(queue)))
  {
    if queue != [] {
      var n := if queue[0].Uint32? then 1 else 0;
      if n < |queue| { SplitPlain(queue, if queue[n].Identifier? then n + 1 else n); }
    }
  }

  lemma PairsPlain(queue: seq<Value>)
    ensures ArePairs(queue) <==> ArePairs(PlainAll(queue))
  {
    var q := PlainAll(queue);
    assert forall i :: 0 <= i < |queue| ==> (queue[i].Int32? <==> q[i].Int32?) && (queue[i].Uint32? <==> q[i].Uint32?) && (queue[i].CStr? <==> q[i].CStr?);
  }

  lemma NonePlain()
    ensures PlainAll([]) == []
  {
  }

  lemma ShiftPlainField(f: Field, queue: seq<Value>)
    ensures SameShift(ShiftField(f, queue), ShiftField(f, PlainAll(queue)))
  {
    var q := PlainAll(queue);
    NonePlain();
    if queue != [] { assert q[0] == Plain(queue[0]); }
    hide PlainAll, ArePairs, IsText;
    match f {
      case TakeIdentifier => OnePlain(queue, queue != [] && queue[0].Identifier?);
      case TakeCStr => OnePlain(queue, queue != [] && queue[0].CStr?);
      case TakeInt => OnePlain(queue, queue != [] && queue[0].Int32?);
      case TakeUint => OnePlain(queue, queue != [] && queue[0].Uint32?);
      case TakeDouble => OnePlain(queue, queue != [] && queue[0].Double?);
      case TakeVariant => OnePlain(queue, queue != [] && !queue[0].Identifier?);
      case TakeMultiplexer => MultiplexerPlain(queue);
      case TakeTexts => TextsPlain(queue);
      case TakeDescriptions => PairsPlain(queue);
      case TakeRanges => UintsPlain(queue);
      case Clear =>
    }
  }

  lemma TextsPlain(queue: seq<Value>)
    ensures (forall v :: v in queue ==> IsText(v)) <==> forall v :: v in PlainAll(queue) ==> IsText(v)
  {
    var q := PlainAll(queue);
    forall i | 0 <= i < |queue| ensures IsText(queue[i]) <==> IsText(q[i]) {}
    assert forall i :: 0 <= i < |queue| ==> queue[i] in queue && q[i] in q;
  }

  lemma UintsPlain(queue: seq<Value>)
    ensures (forall v :: v in queue ==> v.Uint32?) <==> forall v :: v in PlainAll(queue) ==> v.Uint32?
  {
    var q := PlainAll(queue);
    forall i | 0 <= i < |queue| ensures queue[i].Uint32? <==> q[i].Uint32? {}
    assert forall i :: 0 <= i < |queue| ==> queue[i] in queue && q[i] in q;
  }

  lemma {:induction false} ShiftPlain(fields: seq<Field>, queue: seq<Value>)
    ensures var s, p := ShiftFields(fields, queue), ShiftFields(fields, PlainAll(queue));
      SameShift(s, p)
    decreases |fields|
  {
    hide ShiftField;
    assert PlainAll([]) == [];
    if fields != [] {
      ShiftPlainField(fields[0], queue);
      var s := ShiftField(fields[0], queue);
      if s.Shifted? {
        ShiftPlain(fields[1..], s.rest);
        var r := ShiftFields(fields[1..], s.rest);
        if r.Shifted? { PlainConcat(s.values, r.values); }
      }
    }
  }

  lemma InitTakes(init: Init, queue: seq<Value>)
    requires TakesAllOf(init, PlainAll(queue))
    ensures RunInit(init, queue).0.Some? && RunInit(init, queue).1 == []
    ensures SameSection(RunInit(init, queue).0.value, Section(init.name, PlainAll(queue), false))
  {
    hide ShiftFields;
    ShiftPlain(init.fields, queue);
    var s := ShiftFields(init.fields, queue);
    assert |PlainAll(s.rest)| == |s.rest|;
    assert queue == [] ==> PlainAll(queue) == [];
  }

  // ---------- words in a row

  lemma RestsHere(p: Parser, x: Laid)
    requires Fits(p, x)
    ensures LaidOk(x) && Rests(p, |p.lexer.text|) && |p.lexer.text| + |Data(x.word)| + 3 < BUFFER_SIZE && WordOk(x.word)
  {
  }

  /** A word inside a row. */
  lemma WordInRow(p0: Parser, p: Parser, k: nat, item: nat, offset: nat, vals: seq<Value>, x: Laid, accept: Callback)
    requires InRow(p0, p, k, item, offset, vals) && Fits(p, x) && |p.machine.queue| < STACK_SIZE && k < |p0.machine.table|
    requires var n := Progress(p0.machine.table[k].pattern, item, offset, x.word); n.Some? && n.value.0 < |p0.machine.table[k].pattern|
    ensures var q := Took(p, x, accept); var n := Progress(p0.machine.table[k].pattern, item, offset, x.word).value;
      InRow(p0, q, k, n.0, n.1, vals + n.2) && Behind(q.lexer, Some(x)) && |q.lexer.text| <= |p.lexer.text| + |Data(x.word)| + 1
  {
    hide Writes, Data, WordOk, TokenFor, Progress, Next, FeedAll, PlainAll, Fits, Behind, Starts, Took;
    var l, t := WordTaken(p, x, accept);
    RestsHere(p, x);
    Progresses(p.machine, t, x.word, |p.lexer.text|);
    var m := Next(p.machine, t).machine;
    var q := p.(lexer := l, machine := m);
    assert ResultOf(m) == More(m);
    assert q == Handle(p.(lexer := l), t, false, accept);
    GapPassed(q, x, accept);
  }

  /** The word that ends a row. */
  lemma WordEndsRow(p0: Parser, p: Parser, k: nat, item: nat, offset: nat, vals: seq<Value>, x: Laid, accept: Callback)
    requires InRow(p0, p, k, item, offset, vals) && Fits(p, x) && |p.machine.queue| < STACK_SIZE && k < |p0.machine.table| && AcceptsAll(accept)
    requires var n := Progress(p0.machine.table[k].pattern, item, offset, x.word); n.Some? && n.value.0 == |p0.machine.table[k].pattern|
    requires var op := p0.machine.table[k]; var n := Progress(op.pattern, item, offset, x.word).value;
      if op.required == '*' then true
      else if op.init.Some? then TakesAllOf(op.init.value, vals + n.2)
      else WellPlaced(SetOpcode(p.machine, k + 1))
    ensures var q := Took(p, x, accept); var n := Progress(p0.machine.table[k].pattern, item, offset, x.word).value;
      RowDone(p0, q, k, vals + n.2) && Behind(q.lexer, Some(x)) && |q.lexer.text| <= |p.lexer.text| + |Data(x.word)| + 1
  {
    hide Writes, Data, WordOk, TokenFor, Progress, Next, FeedAll, PlainAll, TakesAllOf, Fits, Behind, Starts, Took, Handle, Follow,
      Delivered;
    var l, t := WordTaken(p, x, accept);
    RestsHere(p, x);
    Progresses(p.machine, t, x.word, |p.lexer.text|);
    var m := Next(p.machine, t).machine;
    HandleFollows(p.(lexer := l), m, t, accept);
    var q := Handle(p.(lexer := l), t, false, accept);
    if p0.machine.table[k].required != '*' && p0.machine.table[k].init.Some? {
      InitFollows(p0, p.(lexer := l), m, t, accept);
    } else {
      PlainFollows(p.(lexer := l), m, t, accept);
    }
    GapPassed(q, x, accept);
  }

  lemma HandleFollows(p: Parser, m: Machine, t: Token, accept: Callback)
    requires p.sel <= SECTION_COUNT && p.hasMachine && |p.machine.queue| < STACK_SIZE && WellPlaced(p.machine) && Next(p.machine, t) == DBCMachine.Taken.Taken(m, false)
    ensures Handle(p, t, false, accept) == Follow(p, m, false, t, false, accept)
  {
    hide Next, WellPlaced, Follow;
  }

  /** The end of a row that delivers nothing. */
  lemma PlainFollows(p: Parser, m: Machine, t: Token, accept: Callback)
    requires p.sel <= SECTION_COUNT && WellPlaced(m) && !m.done && m.item == |m.table[m.opcode].pattern|
    requires var op := m.table[m.opcode]; op.required == '*' || (op.init.None? && WellPlaced(SetOpcode(m, m.opcode + 1)))
    ensures Follow(p, m, false, t, false, accept)
            == p.(machine := if m.table[m.opcode].required == '*' then m.(item := 0, offset := 0) else SetOpcode(m, m.opcode + 1))
  {
    hide WellPlaced;
  }

  /** The end of a row that delivers its section. */
  lemma InitFollows(p0: Parser, p: Parser, m: Machine, t: Token, accept: Callback)
    requires p == p0.(lexer := p.lexer, machine := p.machine) && p.lexer.mode == Mode.Init && AcceptsAll(accept) && p.error == NoError
    requires p.sel <= SECTION_COUNT && WellPlaced(m) && !m.done && m.item == |m.table[m.opcode].pattern|
    requires var op := m.table[m.opcode]; op.required != '*' && op.init.Some? && TakesAllOf(op.init.value, PlainAll(m.queue))
    ensures var q := Follow(p, m, false, t, false, accept);
      && q.error == NoError && q.lexer == Reset(p.lexer) && q.sel == p.sel
      && (forall l: Lexer :: l.mode == Mode.Init && l.start == |l.text| == 0 ==>
            Delivered(p0, q.(lexer := l), m.table[m.opcode].init.value, PlainAll(m.queue)))
  {
    assert m.opcode < |m.table|;
    hide WellPlaced, TakesAllOf, RunInit, PlainAll, Delivered, Deliver;
    var init := m.table[m.opcode].init.value;
    InitTakes(init, m.queue);
    DeliveredNow(p0, p, init, m.queue, accept);
  }

  lemma DeliveredNow(p0: Parser, p: Parser, init: Init, queue: seq<Value>, accept: Callback)
    requires p == p0.(lexer := p.lexer, machine := p.machine) && p.lexer.mode == Mode.Init && AcceptsAll(accept) && p.error == NoError
    requires p.sel <= SECTION_COUNT && TakesAllOf(init, PlainAll(queue))
    ensures RunInit(init, queue).0.Some?
    ensures var q := Deliver(p, RunInit(init, queue).0.value, accept);
      && q.error == NoError && q.lexer == Reset(p.lexer) && q.sel == p.sel
      && (forall l: Lexer :: l.mode == Mode.Init && l.start == |l.text| == 0 ==> Delivered(p0, q.(lexer := l), init, PlainAll(queue)))
  {
    hide ShiftFields, PlainAll;
    InitTakes(init, queue);
    var s := RunInit(init, queue).0.value;
    assert accept(p.sections, s);
    assert (p.sections + [s])[..|p.sections|] == p.sections;
  }

  // ---------- whole rows

  lemma MeansLittle(pattern: seq<Item>, item: nat, offset: nat, w: Word)
    ensures var n := Progress(pattern, item, offset, w); n.Some? ==> |n.value.2| <= 2 && n.value.0 <= |pattern|
  {
  }

  /** Enough room for all of the words. */
  predicate RoomFor(p: Parser, vals: seq<Value>, ws: seq<Word>) {
    |p.lexer.text| + Cost(ws) + 3 < BUFFER_SIZE && |vals| + 2 * |ws| < STACK_SIZE
  }

  /** What the end of the row needs. */
  predicate EndsWell(table: seq<Opcode>, k: nat, vals: seq<Value>)
    requires k < |table|
  {
    var op := table[k];
    if op.required == '*' then true
    else if op.init.Some? then TakesAllOf(op.init.value, vals)
    else k + 1 < |table| && NoEmptyLit(table[k + 1].pattern)
  }

  /** Words that spell the rest of a row are taken up to its end. */
  lemma {:induction false} RowRead(p0: Parser, p: Parser, k: nat, item: nat, offset: nat, vals: seq<Value>, prev: Option<Laid>,
                                   xs: seq<Laid>, vs: seq<Value>, accept: Callback)
    requires InRow(p0, p, k, item, offset, vals) && Behind(p.lexer, prev) && Spread(prev, xs) && RoomFor(p, vals, WordsOf(xs)) && AcceptsAll(accept)
    requires k < |p0.machine.table| && Spelled(p0.machine.table[k].pattern, item, offset, WordsOf(xs)) == Some(vs)
    requires EndsWell(p0.machine.table, k, vals + vs)
    ensures var q := TookAll(p, xs, accept); RowDone(p0, q, k, vals + vs) && Read(p, q, prev, xs, accept)
    decreases |xs|
  {
    hide Progress, RowDone, Data, PlainAll, Took, Fits, FitsAll, Behind, Read, LaidOk, InRow, EndsWell, AcceptsAll;
    var x, rest, pattern := xs[0], xs[1..], p0.machine.table[k].pattern;
    assert WordsOf(xs)[1..] == WordsOf(rest) && [x] + rest == xs;
    FirstFits(p0, p, k, item, offset, vals, prev, xs);
    MeansLittle(pattern, item, offset, x.word);
    var n, q := Progress(pattern, item, offset, x.word).value, Took(p, x, accept);
    if |xs| == 1 {
      RowEnds(p0, p, k, item, offset, vals, x, accept);
      ReadWord(p, prev, x, accept);
      assert xs == [x] && TookAll(q, rest, accept) == q;
    } else {
      WordInRow(p0, p, k, item, offset, vals, x, accept);
      ReadWord(p, prev, x, accept);
      var more := Spelled(pattern, n.0, n.1, WordsOf(rest)).value;
      assert vals + n.2 + more == vals + vs;
      RowRead(p0, q, k, n.0, n.1, vals + n.2, Some(x), rest, more, accept);
      ReadBoth(p, q, TookAll(q, rest, accept), prev, [x], rest, accept);
    }
  }

  lemma FirstFits(p0: Parser, p: Parser, k: nat, item: nat, offset: nat, vals: seq<Value>, prev: Option<Laid>, xs: seq<Laid>)
    requires InRow(p0, p, k, item, offset, vals) && xs != [] && Behind(p.lexer, prev) && Spread(prev, xs) && RoomFor(p, vals, WordsOf(xs))
    ensures Fits(p, xs[0]) && |p.machine.queue| < STACK_SIZE
  {
    PlainLength(p.machine.queue);
    FitsHere(p, prev, xs);
  }

  lemma RowEnds(p0: Parser, p: Parser, k: nat, item: nat, offset: nat, vals: seq<Value>, x: Laid, accept: Callback)
    requires InRow(p0, p, k, item, offset, vals) && Fits(p, x) && |p.machine.queue| < STACK_SIZE && k < |p0.machine.table| && AcceptsAll(accept)
    requires var n := Progress(p0.machine.table[k].pattern, item, offset, x.word);
      n.Some? && n.value.0 == |p0.machine.table[k].pattern| && EndsWell(p0.machine.table, k, vals + n.value.2)
    ensures var q := Took(p, x, accept); var n := Progress(p0.machine.table[k].pattern, item, offset, x.word).value;
      RowDone(p0, q, k, vals + n.2) && Behind(q.lexer, Some(x)) && |q.lexer.text| <= |p.lexer.text| + |Data(x.word)| + 1
  {
    hide Progress, RowDone, Data, PlainAll, Took, Fits, Behind, TakesAllOf;
    WordEndsRow(p0, p, k, item, offset, vals, x, accept);
  }

  lemma PlainLength(queue: seq<Value>)
    ensures |PlainAll(queue)| == |queue|
  {
  }

  /** The word cannot be where the pattern begins. */
  predicate Misses(pattern: seq<Item>, w: Word) {
    pattern != [] && pattern[0].Lit? && (!(w.Name? || w.Sym?) || !(Data(w) <= pattern[0].text))
  }

  lemma MissesNext(m: Machine, t: Token, w: Word, at: nat)
    requires WellPlaced(m) && m.item == 0 && m.offset == 0 && TokenFor(t, w, at) && Misses(m.table[m.opcode].pattern, w)
    ensures !AssertsAt(m, t) && Next2(m, t).None?
  {
  }

  /** Words of which the first does not begin this row are taken as at the row the opcode leads on to. */
  lemma RowSkipped(p0: Parser, p: Parser, k: nat, vals: seq<Value>, xs: seq<Laid>, accept: Callback)
    requires InRow(p0, p, k, 0, 0, vals) && xs != [] && Fits(p, xs[0])
    requires k < |p0.machine.table| && Misses(p0.machine.table[k].pattern, xs[0].word) && p0.machine.table[k].next != 0
    requires var j := k + p0.machine.table[k].next; j < |p0.machine.table| && p0.machine.table[j].pattern != [] && NoEmptyLit(p0.machine.table[j].pattern)
    ensures var j := k + p0.machine.table[k].next; var q := p.(machine := SetOpcode(p.machine, j));
      InRow(p0, q, j, 0, 0, vals) && TookAll(p, xs, accept) == TookAll(q, xs, accept) && (FitsAll(q, xs, accept) ==> FitsAll(p, xs, accept))
  {
    hide Took, Fits, Misses;
    var q, x := p.(machine := SetOpcode(p.machine, k + p0.machine.table[k].next)), xs[0];
    SkipTook(p, q, x, accept);
  }

  lemma SkipTook(p: Parser, q: Parser, x: Laid, accept: Callback)
    requires Fits(p, x) && p.sel <= SECTION_COUNT && p.hasMachine && WellPlaced(p.machine) && p.machine.item == 0 && p.machine.offset == 0
    requires Misses(p.machine.table[p.machine.opcode].pattern, x.word) && p.machine.table[p.machine.opcode].next != 0
    requires q == p.(machine := SetOpcode(p.machine, p.machine.opcode + p.machine.table[p.machine.opcode].next)) && WellPlaced(q.machine)
    ensures Took(p, x, accept) == Took(q, x, accept) && Fits(q, x)
  {
    hide Data, WordOk, TokenFor, FeedAll, Misses, Handle, LaidOk, Took, Next, WellPlaced, Starts;
    var l, t := WordTaken(p, x, accept);
    var l', t' := WordTaken(q, x, accept);
    SkipHandled(p.(lexer := l), t, x.word, |p.lexer.text|, accept);
    assert q.(lexer := l) == p.(lexer := l).(machine := q.machine);
  }

  lemma SkipNext(m: Machine, t: Token, w: Word, at: nat)
    requires WellPlaced(m) && m.item == 0 && m.offset == 0 && TokenFor(t, w, at) && Misses(m.table[m.opcode].pattern, w) && m.table[m.opcode].next != 0
    requires WellPlaced(SetOpcode(m, m.opcode + m.table[m.opcode].next))
    ensures Next(m, t) == Next(SetOpcode(m, m.opcode + m.table[m.opcode].next), t)
  {
    MissesNext(m, t, w, at);
    hide Next2, AssertsAt, Misses, TokenFor, WellPlaced;
  }

  lemma FailAside(p: Parser, m: Machine)
    ensures forall e: Error :: Fail(p.(machine := m), e) == Fail(p, e)
  {
  }

  lemma SkipHandled(p: Parser, t: Token, w: Word, at: nat, accept: Callback)
    requires p.sel <= SECTION_COUNT && p.hasMachine && WellPlaced(p.machine) && p.machine.item == 0 && p.machine.offset == 0
    requires TokenFor(t, w, at) && Misses(p.machine.table[p.machine.opcode].pattern, w) && p.machine.table[p.machine.opcode].next != 0
    requires WellPlaced(SetOpcode(p.machine, p.machine.opcode + p.machine.table[p.machine.opcode].next))
    ensures Handle(p, t, false, accept)
            == Handle(p.(machine := SetOpcode(p.machine, p.machine.opcode + p.machine.table[p.machine.opcode].next)), t, false, accept)
  {
    assert p.machine.opcode < |p.machine.table|;
    hide Next, Follow, Misses, TokenFor, Begin, Fail, WellPlaced;
    SkipNext(p.machine, t, w, at);
    var m := SetOpcode(p.machine, p.machine.opcode + p.machine.table[p.machine.opcode].next);
    FailAside(p, m);
    if Next(m, t).Taken? { FollowAside(p, m, Next(m, t).machine, Next(m, t).repeat, t, accept); }
  }

  /** What follows does not depend on the machine there was before. */
  lemma FollowAside(p: Parser, m: Machine, n: Machine, repeat: bool, t: Token, accept: Callback)
    requires p.sel <= SECTION_COUNT
    ensures Follow(p, n, repeat, t, false, accept) == Follow(p.(machine := m), n, repeat, t, false, accept)
  {
    hide ResultOf, Begin;
  }

  const NEWLINE := Sym('\n')

  lemma NewlineToken(t: Token, at: nat)
    requires TokenFor(t, NEWLINE, at)
    ensures t.kind == SymbolToken && t.data == "\n"
  {
  }

  /** A repeated row ends at the end of the line: the section is handed over. */
  lemma LoopEnds(p0: Parser, p: Parser, k: nat, vals: seq<Value>, x: Laid, accept: Callback)
    requires InRow(p0, p, k, 0, 0, vals) && Fits(p, x) && x.word == NEWLINE && |p.machine.queue| < STACK_SIZE && AcceptsAll(accept)
    requires k < |p0.machine.table| && var op := p0.machine.table[k];
      op.required == '*' && op.next == 0 && op.init.Some? && TakesAllOf(op.init.value, vals) && Misses(op.pattern, NEWLINE)
    ensures var q := Took(p, x, accept); Delivered(p0, q, p0.machine.table[k].init.value, vals) && Behind(q.lexer, Some(x))
  {
    hide FeedAll, PlainAll, Misses, TakesAllOf, RunInit, Took, Fits, Behind, Starts, LaidOk, Fail, Data;
    var l, t := WordTaken(p, x, accept);
    RestsHere(p, x);
    MissesNext(p.machine, t, NEWLINE, |p.lexer.text|);
    hide Next2, AssertsAt;
    var init := p0.machine.table[k].init.value;
    var m := p.machine.(done := true);
    assert Next(p.machine, t) == DBCMachine.Taken.Taken(m, true);
    InitTakes(init, m.queue);
    DeliveredNow(p0, p.(lexer := l), init, m.queue, accept);
    var d := Deliver(p.(lexer := l), RunInit(init, m.queue).0.value, accept);
    NewlineToken(t, |p.lexer.text|);
    assert Begin(d, t) == d;
    GapPassed(d, x, accept);
  }

  // ---------- between sections

  /** The end of a line. */
  lemma LineEnds(p: Parser, x: Laid, accept: Callback)
    requires Fits(p, x) && !p.hasMachine && x.word == NEWLINE
    ensures var q := Took(p, x, accept);
      q == p.(lexer := q.lexer) && Rests(q, |q.lexer.text|) && |q.lexer.text| <= |p.lexer.text| + 2 && Behind(q.lexer, Some(x))
  {
    hide FeedAll, Took, Fits, Behind, LaidOk, Starts;
    var l, t := WordTaken(p, x, accept);
    RestsHere(p, x);
    var q := p.(lexer := l);
    assert Handle(q, t, false, accept) == q;
    GapPassed(q, x, accept);
  }

  /** A keyword begins its section. */
  lemma SectionBegins(p: Parser, x: Laid, keyword: string, accept: Callback)
    requires Fits(p, x) && !p.hasMachine && x.word == Name(keyword)
    requires Choose(p, keyword).Some? && var c := Choose(p, keyword).value;
      && c == p.(sel := c.sel, current := c.current, parent := c.parent) && c.sel <= SECTION_COUNT && c.current.required == '*'
      && Table(c.current.rows) != [] && Table(c.current.rows)[0].pattern != [] && NoEmptyLit(Table(c.current.rows)[0].pattern)
    ensures var q := Took(p, x, accept); var c := Choose(p, keyword).value;
      && InRow(q, q, 0, 0, 0, []) && q.machine.table == Table(c.current.rows)
      && q == p.(lexer := q.lexer, machine := q.machine, hasMachine := true, sel := c.sel, current := c.current, parent := c.parent, used := q.used)
      && |q.lexer.text| <= |p.lexer.text| + |keyword| + 1 && Behind(q.lexer, Some(x))
  {
    hide FeedAll, Sections, Table, Took, Fits, Behind, LaidOk, Starts, Fail;
    var l, t := WordTaken(p, x, accept);
    RestsHere(p, x);
    ChooseAside(p, l, keyword);
    hide Choose;
    assert PlainAll([]) == [];
    var q := Handle(p.(lexer := l), t, false, accept);
    GapPassed(q, x, accept);
  }

  lemma ChooseAside(p: Parser, l: Lexer, keyword: string)
    requires p.sel <= SECTION_COUNT && Choose(p, keyword).Some?
    ensures Choose(p.(lexer := l), keyword) == Some(Choose(p, keyword).value.(lexer := l))
  {
    hide Sections;
  }
}
