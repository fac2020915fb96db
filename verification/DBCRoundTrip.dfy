/** Messages and signals that are written down are delivered again, from the start of the parser on. */
module DBCRoundTrip {
  import opened Words
  import opened DBCLexer
  import opened DBCMachine
  import opened DBCTables
  import opened DBCParserModel
  import opened DBCWords
  import opened DBCLayout
  import opened DBCMeaning
  import opened DBCRows
  import opened DBCMessages

  // ---------- the rows of signals

  function NamePattern(): seq<Item> { [Mark(KEYWORD)] }
  function InfoPattern(): seq<Item> { SIGNAL_INFO + [Mark(KEYWORD)] }
  function OtherPattern(): seq<Item> { [Lit(","), Mark(KEYWORD)] }
  function MultiplexPattern(): seq<Item> { [Mark(MPLEX)] + InfoPattern() }

  function SignalInit(plainly: bool): Init {
    if plainly then Init.Init("initSignalNormal", [TakeIdentifier] + (INFO_FIELDS + [TakeTexts]), false, false)
    else Init.Init("initSignalMultiplexer", [TakeIdentifier] + ([TakeMultiplexer] + (INFO_FIELDS + [TakeTexts])), false, false)
  }

  predicate SignalTable(t: seq<Opcode>) {
    && |t| == 5 && t[0] == Opcode(0, '1', NamePattern(), None) && t[1] == Opcode(2, '1', InfoPattern(), None)
    && t[2] == Opcode(0, '*', OtherPattern(), Some(SignalInit(true))) && t[3] == Opcode(0, '1', MultiplexPattern(), None)
    && t[4] == Opcode(0, '*', OtherPattern(), Some(SignalInit(false)))
  }

  lemma SignalRows()
    ensures SignalTable(Table(SIGNAL))
  {
  }

  lemma SignalPatterns()
    ensures NoEmptyLit(NamePattern()) && NoEmptyLit(InfoPattern()) && NoEmptyLit(OtherPattern()) && NoEmptyLit(MultiplexPattern())
    ensures NamePattern() != [] && InfoPattern() != [] && OtherPattern() != [] && MultiplexPattern() != []
  {
  }

  lemma InfoMisses(w: Word)
    requires w.Name? && WordOk(w)
    ensures Misses(InfoPattern(), w)
  {
    assert InfoPattern()[0] == Lit(":");
  }

  lemma OtherMisses()
    ensures Misses(OtherPattern(), NEWLINE)
  {
    assert OtherPattern()[0].text == "," && Data(NEWLINE)[0] == '\n';
  }

  lemma {:induction false} IdentifiersLength(names: seq<string>)
    ensures |Identifiers(names)| == |names|
  {
    if names != [] { IdentifiersLength(names[1..]); }
  }

  // ---------- one signal

  /** The words of a signal behind its keyword, up to the first receiver, and what they mean. */
  function RestWords(s: Signal): seq<Word> {
    MultiplexingWords(s.multiplexing) + (InfoWords(s) + [Name(s.receiver)])
  }

  function RestValues(s: Signal): seq<Value> {
    MultiplexingValues(s.multiplexing) + (InfoValues(s) + [Identifier(Static, s.receiver)])
  }

  function BodyWords(s: Signal): seq<Word> {
    [Name(s.name)] + RestWords(s) + OtherWords(s.others)
  }

  function SignalSection(s: Signal): Section {
    Section(if s.multiplexing == Plainly then "initSignalNormal" else "initSignalMultiplexer", SignalValues(s), false)
  }

  /** The parser is inside a signal, at the row for further receivers. */
  function ReceiverRow(s: Signal): nat {
    if s.multiplexing == Plainly then 2 else 4
  }

  lemma RestLength(s: Signal)
    ensures |RestWords(s)| <= 20 && |RestValues(s)| <= 12 && RestWords(s) != []
  {
  }

  lemma BodySplit(s: Signal)
    ensures SignalValues(s) == [Identifier(Static, s.name)] + RestValues(s) + Identifiers(s.others)
  {
    hide InfoValues, MultiplexingValues;
    var r := [Identifier(Static, s.receiver)];
    assert ([s.receiver] + s.others)[1..] == s.others;
    assert Identifiers([s.receiver] + s.others) == r + Identifiers(s.others);
    assert [Identifier(Static, s.name)] + MultiplexingValues(s.multiplexing) + InfoValues(s) + (r + Identifiers(s.others))
           == [Identifier(Static, s.name)] + (MultiplexingValues(s.multiplexing) + (InfoValues(s) + r)) + Identifiers(s.others);
  }

  lemma RestOk(s: Signal)
    requires SignalOk(s)
    ensures s.multiplexing != Plainly ==> RestWords(s)[0].Name?
    ensures Spelled(if s.multiplexing == Plainly then InfoPattern() else MultiplexPattern(), 0, 0, RestWords(s)) == Some(RestValues(s))
  {
    InfoSpelled(s);
    var info, infoValues := InfoWords(s) + [Name(s.receiver)], InfoValues(s) + [Identifier(Static, s.receiver)];
    if s.multiplexing == Plainly {
      assert RestWords(s) == info && RestValues(s) == infoValues;
    } else {
      MultiplexingSpelled(s);
      var m, mv := MultiplexingWords(s.multiplexing), MultiplexingValues(s.multiplexing);
      Both([Mark(MPLEX)], m, mv, InfoPattern(), info, infoValues);
    }
  }

  /** Reading a first part and then a second. */
  lemma ReadParts(p: Parser, prev: Option<Laid>, xs: seq<Laid>, n: nat, accept: Callback)
    requires n <= |xs| && Read(p, TookAll(p, xs[..n], accept), prev, xs[..n], accept)
    requires var q := TookAll(p, xs[..n], accept); Read(q, TookAll(q, xs[n..], accept), Last(prev, xs[..n]), xs[n..], accept)
    ensures TookAll(p, xs, accept) == TookAll(TookAll(p, xs[..n], accept), xs[n..], accept) && Read(p, TookAll(p, xs, accept), prev, xs, accept)
  {
    hide Read, TookAll;
    assert xs[..n] + xs[n..] == xs;
    var q := TookAll(p, xs[..n], accept);
    var r := TookAll(q, xs[n..], accept);
    TookAppend(p, xs[..n], xs[n..], accept);
    ReadBoth(p, q, r, prev, xs[..n], xs[n..], accept);
  }

  lemma ReadLeaves(p: Parser, q: Parser, prev: Option<Laid>, xs: seq<Laid>, accept: Callback)
    requires Read(p, q, prev, xs, accept)
    ensures Behind(q.lexer, Last(prev, xs)) && |q.lexer.text| <= |p.lexer.text| + Cost(WordsOf(xs))
  {
  }

  /** A signal behind its keyword, up to its first receiver. */
  lemma HeadRead(p0: Parser, s: Signal, prev: Option<Laid>, xs: seq<Laid>, accept: Callback)
    requires InRow(p0, p0, 0, 0, 0, []) && SignalTable(p0.machine.table) && SignalOk(s) && AcceptsAll(accept)
    requires Behind(p0.lexer, prev) && Spread(prev, xs) && WordsOf(xs) == [Name(s.name)] + RestWords(s)
    requires |p0.lexer.text| + Cost(WordsOf(xs)) + 3 < BUFFER_SIZE
    ensures var q := TookAll(p0, xs, accept);
      InRow(p0, q, ReceiverRow(s), 0, 0, [Identifier(Static, s.name)] + RestValues(s)) && Read(p0, q, prev, xs, accept)
  {
    hide Cost, InfoPattern, OtherPattern, MultiplexPattern, SignalInit, RestWords, RestValues, TookAll, InRow, Read, Behind, Spread,
      WordsOf, SignalOk, AcceptsAll, SignalTable, Spelled;
    WordsSplit(xs, [Name(s.name)], RestWords(s));
    SpreadSplits(prev, xs, 1);
    CostConcat([Name(s.name)], RestWords(s));
    NameRead(p0, s, prev, xs[..1], accept);
    var p := TookAll(p0, xs[..1], accept);
    ReadLeaves(p0, p, prev, xs[..1], accept);
    RestRead(p0, p, s, Last(prev, xs[..1]), xs[1..], accept);
    ReadParts(p0, prev, xs, 1, accept);
  }

  lemma NameRead(p0: Parser, s: Signal, prev: Option<Laid>, xs: seq<Laid>, accept: Callback)
    requires InRow(p0, p0, 0, 0, 0, []) && SignalTable(p0.machine.table) && AcceptsAll(accept)
    requires Behind(p0.lexer, prev) && Spread(prev, xs) && WordsOf(xs) == [Name(s.name)] && |p0.lexer.text| + Cost(WordsOf(xs)) + 3 < BUFFER_SIZE
    ensures var q := TookAll(p0, xs, accept); InRow(p0, q, 1, 0, 0, [Identifier(Static, s.name)]) && Read(p0, q, prev, xs, accept)
  {
    SignalPatterns();
    var id := [Identifier(Static, s.name)];
    One(KEYWORD, Name(s.name), id);
    assert [] + id == id && |WordsOf(xs)| == 1;
    hide Cost, InfoPattern, OtherPattern, MultiplexPattern, SignalInit, TookAll, InRow, Read, Behind, Spread, WordsOf, AcceptsAll,
      Spelled, NoEmptyLit;
    RowRead(p0, p0, 0, 0, 0, [], prev, xs, id, accept);
  }

  lemma RestRead(p0: Parser, p: Parser, s: Signal, prev: Option<Laid>, xs: seq<Laid>, accept: Callback)
    requires SignalOk(s) && AcceptsAll(accept) && SignalTable(p0.machine.table) && InRow(p0, p, 1, 0, 0, [Identifier(Static, s.name)])
    requires Behind(p.lexer, prev) && Spread(prev, xs) && WordsOf(xs) == RestWords(s) && |p.lexer.text| + Cost(WordsOf(xs)) + 3 < BUFFER_SIZE
    ensures var q := TookAll(p, xs, accept);
      InRow(p0, q, ReceiverRow(s), 0, 0, [Identifier(Static, s.name)] + RestValues(s)) && Read(p, q, prev, xs, accept)
  {
    SignalPatterns();
    RestLength(s);
    RestOk(s);
    var id := [Identifier(Static, s.name)];
    hide Cost, InfoPattern, OtherPattern, MultiplexPattern, SignalInit, RestWords, RestValues, TookAll, FitsAll, InRow, Spelled,
      SignalOk, Behind, Spread, AcceptsAll, NoEmptyLit;
    if s.multiplexing == Plainly {
      RowRead(p0, p, 1, 0, 0, id, prev, xs, RestValues(s), accept);
    } else {
      var q := p.(machine := SetOpcode(p.machine, 3));
      SkipToMultiplexed(p0, p, id, prev, xs, accept);
      RowRead(p0, q, 3, 0, 0, id, prev, xs, RestValues(s), accept);
      SameRead(p, q, prev, xs, accept);
    }
  }

  lemma SameRead(p: Parser, q: Parser, prev: Option<Laid>, xs: seq<Laid>, accept: Callback)
    requires TookAll(p, xs, accept) == TookAll(q, xs, accept) && (FitsAll(q, xs, accept) ==> FitsAll(p, xs, accept)) && p.lexer == q.lexer
    requires Read(q, TookAll(q, xs, accept), prev, xs, accept)
    ensures Read(p, TookAll(p, xs, accept), prev, xs, accept)
  {
    hide TookAll, FitsAll;
  }

  /** A multiplexer indicator is no colon: the machine goes on at the row that begins with one. */
  lemma SkipToMultiplexed(p0: Parser, p: Parser, vals: seq<Value>, prev: Option<Laid>, xs: seq<Laid>, accept: Callback)
    requires SignalTable(p0.machine.table) && InRow(p0, p, 1, 0, 0, vals) && |vals| < STACK_SIZE && xs != [] && xs[0].word.Name?
    requires Behind(p.lexer, prev) && Spread(prev, xs) && |p.lexer.text| + Cost(WordsOf(xs)) + 3 < BUFFER_SIZE
    ensures var q := p.(machine := SetOpcode(p.machine, 3));
      && InRow(p0, q, 3, 0, 0, vals) && TookAll(p, xs, accept) == TookAll(q, xs, accept) && (FitsAll(q, xs, accept) ==> FitsAll(p, xs, accept))
  {
    SignalPatterns();
    InfoMisses(xs[0].word);
    RowRests(p0, p, 1, 0, 0, vals);
    FitsHere(p, prev, xs);
    hide InfoPattern, OtherPattern, MultiplexPattern, SignalInit, TookAll, FitsAll, Misses, Fits, Behind, Spread, InRow, NoEmptyLit;
    RowSkipped(p0, p, 1, vals, xs, accept);
  }

  lemma RowRests(p0: Parser, p: Parser, k: nat, item: nat, offset: nat, vals: seq<Value>)
    requires InRow(p0, p, k, item, offset, vals)
    ensures Rests(p, |p.lexer.text|) && |p.machine.queue| == |vals| && !p.machine.done
  {
    PlainLength(p.machine.queue);
  }

  lemma OtherSpelled(name: string)
    requires NameOk(name)
    ensures Spelled(OtherPattern(), 0, 0, [Sym(','), Name(name)]) == Some([Identifier(Static, name)])
  {
    SymbolAnd(',', KEYWORD, Name(name), [Identifier(Static, name)]);
    hide Spelled;
  }

  /** One further receiver. */
  lemma OtherRead(p0: Parser, p: Parser, s: Signal, vals: seq<Value>, name: string, prev: Option<Laid>, xs: seq<Laid>, accept: Callback)
    requires InRow(p0, p, ReceiverRow(s), 0, 0, vals) && SignalTable(p0.machine.table) && AcceptsAll(accept) && NameOk(name)
    requires Behind(p.lexer, prev) && Spread(prev, xs) && WordsOf(xs) == [Sym(','), Name(name)] && RoomFor(p, vals, WordsOf(xs))
    ensures var q := TookAll(p, xs, accept);
      InRow(p0, q, ReceiverRow(s), 0, 0, vals + [Identifier(Static, name)]) && Read(p, q, prev, xs, accept)
  {
    OtherSpelled(name);
    assert p0.machine.table[ReceiverRow(s)].pattern == OtherPattern() && p0.machine.table[ReceiverRow(s)].required == '*';
    hide SignalTable, ReceiverRow, Cost, Spelled, SignalInit, NamePattern, OtherPattern, InRow, TookAll, NameOk, Read, Behind, Spread,
      RoomFor, AcceptsAll;
    RowRead(p0, p, ReceiverRow(s), 0, 0, vals, prev, xs, [Identifier(Static, name)], accept);
  }

  /** The further receivers. */
  lemma {:induction false} OthersRead(p0: Parser, p: Parser, s: Signal, vals: seq<Value>, names: seq<string>, prev: Option<Laid>,
                                      xs: seq<Laid>, accept: Callback)
    requires InRow(p0, p, ReceiverRow(s), 0, 0, vals) && SignalTable(p0.machine.table) && AcceptsAll(accept) && forall i :: 0 <= i < |names| ==> NameOk(names[i])
    requires Behind(p.lexer, prev) && Spread(prev, xs) && WordsOf(xs) == OtherWords(names) && |p.lexer.text| + Cost(WordsOf(xs)) + 3 < BUFFER_SIZE
    requires |vals| + |names| + 8 < STACK_SIZE
    ensures var q := TookAll(p, xs, accept); InRow(p0, q, ReceiverRow(s), 0, 0, vals + Identifiers(names)) && Read(p, q, prev, xs, accept)
    decreases |names|
  {
    hide InRow, SignalTable, NameOk, AcceptsAll, ReceiverRow, Behind, Spread, Cost, TookAll, Read, WordsOf;
    if names == [] {
      assert |WordsOf(xs)| == |xs| == 0 && vals + [] == vals && xs == [];
      ReadNothing(p, prev, accept);
      TookNothing(p, accept);
    } else {
      var ws, rest, id := [Sym(','), Name(names[0])], names[1..], [Identifier(Static, names[0])];
      WordsSplit(xs, ws, OtherWords(rest));
      SpreadSplits(prev, xs, 2);
      CostConcat(ws, OtherWords(rest));
      hide OtherWords, Identifiers;
      OtherRead(p0, p, s, vals, names[0], prev, xs[..2], accept);
      var q := TookAll(p, xs[..2], accept);
      ReadLeaves(p, q, prev, xs[..2], accept);
      OthersRead(p0, q, s, vals + id, rest, Last(prev, xs[..2]), xs[2..], accept);
      ReadParts(p, prev, xs, 2, accept);
      FirstIdentifier(vals, names);
    }
  }

  lemma FirstIdentifier(vals: seq<Value>, names: seq<string>)
    requires names != []
    ensures vals + [Identifier(Static, names[0])] + Identifiers(names[1..]) == vals + Identifiers(names)
  {
  }

  lemma TookNothing(p: Parser, accept: Callback)
    ensures TookAll(p, [], accept) == p
  {
  }

  /** The init functions of signals take all that has been read. */
  lemma SignalTaken(s: Signal)
    ensures TakesAllOf(SignalInit(s.multiplexing == Plainly), SignalValues(s))
  {
    IdentifiersAre([s.receiver] + s.others);
    ValuesTaken(s, Identifiers([s.receiver] + s.others));
    var fields := INFO_FIELDS + [TakeTexts];
    assert [TakeIdentifier] + [] + fields == [TakeIdentifier] + fields;
    assert [TakeIdentifier] + [TakeMultiplexer] + fields == [TakeIdentifier] + ([TakeMultiplexer] + fields);
    hide ShiftFields;
  }

  /** Enough room for the words of a signal, the end of the line included. */
  predicate SignalFits(s: Signal) {
    Cost(BodyWords(s)) + 32 < BUFFER_SIZE && |s.others| + 32 < STACK_SIZE
  }

  lemma OthersOk(s: Signal)
    requires SignalOk(s)
    ensures forall i :: 0 <= i < |s.others| ==> NameOk(s.others[i])
  {
  }

  /** A signal behind its keyword, with all of its receivers. */
  lemma ReceiversRead(p0: Parser, s: Signal, prev: Option<Laid>, xs: seq<Laid>, accept: Callback)
    requires InRow(p0, p0, 0, 0, 0, []) && SignalTable(p0.machine.table) && SignalOk(s) && SignalFits(s) && AcceptsAll(accept)
    requires Behind(p0.lexer, prev) && Spread(prev, xs) && WordsOf(xs) == BodyWords(s) && |p0.lexer.text| <= 16
    ensures var q := TookAll(p0, xs, accept); InRow(p0, q, ReceiverRow(s), 0, 0, SignalValues(s)) && Read(p0, q, prev, xs, accept)
  {
    BodySplit(s);
    RestLength(s);
    OthersOk(s);
    hide Cost, InRow, SignalTable, RestWords, SignalValues, OtherWords, RestValues, Identifiers, SignalOk, NameOk, ReceiverRow,
      AcceptsAll, Behind, Spread, TookAll, Read;
    var head, others := [Name(s.name)] + RestWords(s), OtherWords(s.others);
    var n := |head|;
    WordsSplit(xs, head, others);
    SpreadSplits(prev, xs, n);
    CostConcat(head, others);
    HeadRead(p0, s, prev, xs[..n], accept);
    var p := TookAll(p0, xs[..n], accept);
    ReadLeaves(p0, p, prev, xs[..n], accept);
    OthersRead(p0, p, s, [Identifier(Static, s.name)] + RestValues(s), s.others, Last(prev, xs[..n]), xs[n..], accept);
    ReadParts(p0, prev, xs, n, accept);
  }

  lemma ValuesFit(s: Signal)
    requires SignalFits(s)
    ensures |SignalValues(s)| < STACK_SIZE
  {
    BodySplit(s);
    RestLength(s);
    IdentifiersLength(s.others);
  }

  /** The end of the line of a signal: its section is delivered. */
  lemma LineRead(p0: Parser, q: Parser, s: Signal, x: Laid, accept: Callback)
    requires InRow(p0, q, ReceiverRow(s), 0, 0, SignalValues(s)) && SignalTable(p0.machine.table) && AcceptsAll(accept)
    requires Fits(q, x) && x.word == NEWLINE && |SignalValues(s)| < STACK_SIZE
    ensures var r := Took(q, x, accept); Delivered(p0, r, SignalInit(s.multiplexing == Plainly), SignalValues(s)) && Behind(r.lexer, Some(x))
  {
    SignalTaken(s);
    OtherMisses();
    RowRests(p0, q, ReceiverRow(s), 0, 0, SignalValues(s));
    hide TakesAllOf, Delivered, Took, SignalValues, SignalInit, InfoPattern, OtherPattern, MultiplexPattern, Misses, Fits, InRow;
    LoopEnds(p0, q, ReceiverRow(s), SignalValues(s), x, accept);
  }

  lemma NewlineFits(s: Signal)
    requires SignalFits(s)
    ensures |BodyWords(s)| > 0 && Cost(BodyWords(s)) + 32 < BUFFER_SIZE
  {
  }

  lemma EndFits(p0: Parser, p: Parser, s: Signal, prev: Option<Laid>, xs: seq<Laid>, accept: Callback)
    requires var n := |BodyWords(s)|; n < |xs| && Read(p0, p, prev, xs[..n], accept) && WordsOf(xs[..n]) == BodyWords(s)
    requires SignalFits(s) && |p0.lexer.text| <= 16 && InRow(p0, p, ReceiverRow(s), 0, 0, SignalValues(s))
    requires var n := |BodyWords(s)|; Spread(Last(prev, xs[..n]), xs[n..]) && WordsOf(xs[n..]) == [NEWLINE]
    ensures var n := |BodyWords(s)|; Fits(p, xs[n]) && xs[n].word == NEWLINE
  {
    hide BodyWords, SignalValues, FitsAll, TookAll;
    var n := |BodyWords(s)|;
    RowRests(p0, p, ReceiverRow(s), 0, 0, SignalValues(s));
    assert xs[n..][0] == xs[n] && WordsOf(xs[n..])[0] == NEWLINE;
    assert |Data(NEWLINE)| == 1 && Cost([NEWLINE]) == 2;
    FitsHere(p, Last(prev, xs[..n]), xs[n..]);
  }

  lemma OneTook(p: Parser, x: Laid, accept: Callback)
    ensures TookAll(p, [x], accept) == Took(p, x, accept) && (Fits(p, x) ==> FitsAll(p, [x], accept))
  {
    hide Took, Fits;
    assert [x][1..] == [];
  }

  lemma ReadIs(p: Parser, q: Parser, prev: Option<Laid>, xs: seq<Laid>, accept: Callback)
    requires Read(p, q, prev, xs, accept)
    ensures FitsAll(p, xs, accept) && q == TookAll(p, xs, accept)
  {
  }

  /** One word more. */
  lemma LastTook(p: Parser, q: Parser, prev: Option<Laid>, xs: seq<Laid>, n: nat, accept: Callback)
    requires |xs| == n + 1 && Read(p, q, prev, xs[..n], accept) && Fits(q, xs[n])
    ensures FitsAll(p, xs, accept) && TookAll(p, xs, accept) == Took(q, xs[n], accept)
  {
    hide FitsAll, TookAll, Fits, Took, Read;
    ReadIs(p, q, prev, xs[..n], accept);
    OneTook(q, xs[n], accept);
    FitsAppend(p, xs[..n], [xs[n]], accept);
    TookAppend(p, xs[..n], [xs[n]], accept);
    assert xs[..n] + [xs[n]] == xs;
  }

  /** A signal behind its keyword, up to the end of the line. */
  lemma BodyRead(p0: Parser, s: Signal, prev: Option<Laid>, xs: seq<Laid>, accept: Callback)
    requires InRow(p0, p0, 0, 0, 0, []) && SignalTable(p0.machine.table) && SignalOk(s) && SignalFits(s) && AcceptsAll(accept)
    requires Behind(p0.lexer, prev) && Spread(prev, xs) && WordsOf(xs) == BodyWords(s) + [NEWLINE] && |p0.lexer.text| <= 16
    ensures var q := TookAll(p0, xs, accept);
      Delivered(p0, q, SignalInit(s.multiplexing == Plainly), SignalValues(s)) && FitsAll(p0, xs, accept) && Behind(q.lexer, Last(prev, xs))
  {
    hide WordsOf, Rests, Cost, InRow, SignalTable, SignalValues, SignalOk, ReceiverRow, BodyWords, Delivered, SignalInit, TookAll,
      Behind, Spread, AcceptsAll, Took, Fits, FitsAll, SignalFits, Read;
    ValuesFit(s);
    NewlineFits(s);
    var n := |BodyWords(s)|;
    WordsSplit(xs, BodyWords(s), [NEWLINE]);
    SpreadSplits(prev, xs, n);
    ReceiversRead(p0, s, prev, xs[..n], accept);
    var p := TookAll(p0, xs[..n], accept);
    EndFits(p0, p, s, prev, xs, accept);
    LineRead(p0, p, s, xs[n], accept);
    LastTook(p0, p, prev, xs, n, accept);
  }
}
