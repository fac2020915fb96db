/** Messages and their signals: what is written for them is what the parser delivers. */
module DBCMessages {
  import opened Words
  import opened DBCLexer
  import opened CStrToNum
  import opened DBCMachine
  import opened DBCTyping
  import opened DBCTables
  import opened DBCParserModel
  import opened DBCWords
  import opened DBCLayout
  import opened DBCMeaning
  import opened DBCRows

  // ---------- patterns in pieces

  lemma {:induction false} SpelledShift(a: seq<Item>, b: seq<Item>, item: nat, offset: nat, ws: seq<Word>)
    ensures Spelled(a + b, |a| + item, offset, ws) == Spelled(b, item, offset, ws)
    decreases |ws|
  {
    hide Means, Data;
    if ws != [] {
      assert item < |b| ==> (a + b)[|a| + item] == b[item];
      var p := Progress(b, item, offset, ws[0]);
      if p.Some? { SpelledShift(a, b, p.value.0, p.value.1, ws[1..]); }
    }
  }

  lemma {:induction false} SpelledAppend(a: seq<Item>, item: nat, offset: nat, ws: seq<Word>, vs: seq<Value>, b: seq<Item>,
                                         xs: seq<Word>, ys: seq<Value>)
    requires Spelled(a, item, offset, ws) == Some(vs) && b != [] && Spelled(b, 0, 0, xs) == Some(ys)
    ensures Spelled(a + b, item, offset, ws + xs) == Some(vs + ys)
    decreases |ws|
  {
    hide Spelled, Progress;
    SpelledIs(a, item, offset, ws);
    SpelledIs(a + b, item, offset, ws + xs);
    SpelledIs(b, 0, 0, xs);
    ProgressInFront(a, b, item, offset, ws[0]);
    MeansLittle(a, item, offset, ws[0]);
    var p := Progress(a, item, offset, ws[0]).value;
    assert (ws + xs)[0] == ws[0] && (ws + xs)[1..] == ws[1..] + xs;
    if |ws| == 1 {
      assert ws[1..] + xs == xs;
      SpelledShift(a, b, 0, 0, xs);
      AtEnd(a, item, offset, ws[0]);
    } else {
      var rest := Spelled(a, p.0, p.1, ws[1..]).value;
      SpelledAppend(a, p.0, p.1, ws[1..], rest, b, xs, ys);
      assert p.2 + rest + ys == p.2 + (rest + ys);
    }
  }

  lemma SpelledIs(pattern: seq<Item>, item: nat, offset: nat, ws: seq<Word>)
    ensures Spelled(pattern, item, offset, ws) ==
      if ws == [] || Progress(pattern, item, offset, ws[0]).None? then None
      else
        var p := Progress(pattern, item, offset, ws[0]).value;
        if |ws| == 1 then (if p.0 == |pattern| then Some(p.2) else None)
        else if p.0 == |pattern| || Spelled(pattern, p.0, p.1, ws[1..]).None? then None
        else Some(p.2 + Spelled(pattern, p.0, p.1, ws[1..]).value)
  {
    hide Progress;
  }

  lemma ProgressInFront(a: seq<Item>, b: seq<Item>, item: nat, offset: nat, w: Word)
    requires Progress(a, item, offset, w).Some?
    ensures Progress(a + b, item, offset, w) == Progress(a, item, offset, w)
  {
    hide Means, Data;
    assert (a + b)[item] == a[item];
  }

  lemma AtEnd(a: seq<Item>, item: nat, offset: nat, w: Word)
    requires Progress(a, item, offset, w).Some? && Progress(a, item, offset, w).value.0 == |a|
    ensures Progress(a, item, offset, w).value.1 == 0
  {
  }

  /** The words spell the pattern and mean the values. */
  predicate Spell(pattern: seq<Item>, ws: seq<Word>, vs: seq<Value>) {
    pattern != [] && ws != [] && Spelled(pattern, 0, 0, ws) == Some(vs)
  }

  lemma Both(a: seq<Item>, ws: seq<Word>, vs: seq<Value>, b: seq<Item>, xs: seq<Word>, ys: seq<Value>)
    requires Spell(a, ws, vs) && Spell(b, xs, ys)
    ensures Spell(a + b, ws + xs, vs + ys)
  {
    SpelledAppend(a, 0, 0, ws, vs, b, xs, ys);
  }

  lemma One(m: Marker, w: Word, vs: seq<Value>)
    requires Means(m, w) == Some(vs)
    ensures Spell([Mark(m)], [w], vs)
  {
  }

  lemma Symbol(c: char)
    requires c != ' '
    ensures Spell([Lit([c])], [Sym(c)], [])
  {
    assert [c][0..] == [c];
  }

  /** A symbol and then a word at a marker. */
  lemma SymbolAnd(c: char, m: Marker, w: Word, vs: seq<Value>)
    requires c != ' ' && Means(m, w) == Some(vs)
    ensures Spell([Lit([c]), Mark(m)], [Sym(c), w], vs)
  {
    Symbol(c);
    One(m, w, vs);
    Both([Lit([c])], [Sym(c)], [], [Mark(m)], [w], vs);
    assert [Lit([c])] + [Mark(m)] == [Lit([c]), Mark(m)] && [Sym(c)] + [w] == [Sym(c), w] && [] + vs == vs;
  }

  // ---------- numbers

  function Digits(n: nat): string {
    if n < 10 then [('0' as nat + n) as char] else Digits(n / 10) + [('0' as nat + n % 10) as char]
  }

  lemma {:induction false} DigitsDenote(n: nat)
    ensures Digits(n) != "" && AllDigits(Digits(n)) && IsDecimal(Digits(n)) && Decimal(Digits(n)) == n
  {
    var s := Digits(n);
    if n < 10 {
      assert s[..0] == "";
    } else {
      DigitsDenote(n / 10);
      assert s[..|s| - 1] == Digits(n / 10);
    }
  }

  function Natural(n: nat): Word {
    Word.Number(Numeral(None, Digits(n), None, None))
  }

  lemma NaturalMeans(n: nat)
    requires n < WORD
    ensures WordOk(Natural(n)) && Means(UINTEGER, Natural(n)) == Some([Uint32(n)])
  {
    DigitsDenote(n);
  }

  // ---------- signals

  datatype Multiplexing = Plainly | Switch | Under(number: nat) | SwitchUnder(number: nat)

  datatype Signal = Signal(
    name: string, multiplexing: Multiplexing, start: nat, size: nat, bigEndian: bool, unsigned: bool,
    factor: Numeral, offset: Numeral, minimum: Numeral, maximum: Numeral, unit: string, receiver: string, others: seq<string>)

  datatype Message = Message(id: nat, name: string, size: nat, sender: string, signals: seq<Signal>)

  predicate NameOk(s: string) {
    WordOk(Name(s))
  }

  predicate SignalOk(s: Signal) {
    && NameOk(s.name) && s.start < WORD && s.size < WORD
    && (s.multiplexing.Under? ==> s.multiplexing.number < WORD) && (s.multiplexing.SwitchUnder? ==> s.multiplexing.number < WORD)
    && NumeralOk(s.factor) && NumeralOk(s.offset) && NumeralOk(s.minimum) && NumeralOk(s.maximum)
    && NameOk(s.receiver) && forall i :: 0 <= i < |s.others| ==> NameOk(s.others[i])
  }

  /** How a signal is written: SG_ name [M | m1 | m1M] : start | size @ order sign ( factor , offset ) [ min | max ]
      "unit" receiver , receiver ... */
  function MultiplexingWords(m: Multiplexing): seq<Word> {
    match m
    case Plainly => []
    case Switch => [Name("M")]
    case Under(n) => [Name("m" + Digits(n))]
    case SwitchUnder(n) => [Name("m" + Digits(n) + "M")]
  }

  function MultiplexingValues(m: Multiplexing): seq<Value> {
    match m
    case Plainly => []
    case Switch => [Identifier(Static, "M")]
    case Under(n) => [Uint32(n)]
    case SwitchUnder(n) => [Uint32(n), Identifier(Static, "M")]
  }

  function PositionWords(s: Signal): seq<Word> { [Sym(':'), Natural(s.start), Sym('|')] }

  function LayoutWords(s: Signal): seq<Word> {
    [Natural(s.size), Sym('@'), Natural(if s.bigEndian then 0 else 1), Sym(if s.unsigned then '+' else '-')]
  }

  function ScalingWords(s: Signal): seq<Word> { [Sym('('), Word.Number(s.factor), Sym(','), Word.Number(s.offset)] }

  function RangeWords(s: Signal): seq<Word> {
    [Sym(')'), Sym('['), Word.Number(s.minimum), Sym('|'), Word.Number(s.maximum), Sym(']'), Str(s.unit)]
  }

  function InfoWords(s: Signal): seq<Word> {
    PositionWords(s) + LayoutWords(s) + ScalingWords(s) + RangeWords(s)
  }

  function OtherWords(names: seq<string>): seq<Word> {
    if names == [] then [] else [Sym(','), Name(names[0])] + OtherWords(names[1..])
  }

  function Identifiers(names: seq<string>): seq<Value> {
    if names == [] then [] else [Identifier(Static, names[0])] + Identifiers(names[1..])
  }

  /** What a section says of the layout of a signal: start, size, byte order, sign, scaling, range and unit. */
  function InfoValues(s: Signal): seq<Value> {
    [Uint32(s.start)] + [Uint32(s.size), Uint32(if s.bigEndian then 48 else 49), Uint32(if s.unsigned then 1 else 0)]
    + [Double(NumeralText(s.factor)), Double(NumeralText(s.offset))]
    + [Double(NumeralText(s.minimum)), Double(NumeralText(s.maximum)), CStr(Static, s.unit)]
  }

  lemma PositionSpelled(s: Signal)
    requires SignalOk(s)
    ensures Spell([Lit(":"), Mark(UINTEGER), Lit("|")], PositionWords(s), [Uint32(s.start)])
  {
    NaturalMeans(s.start);
    hide Means, Digits, Spell;
    SymbolAnd(':', UINTEGER, Natural(s.start), [Uint32(s.start)]);
    Symbol('|');
    Both([Lit(":"), Mark(UINTEGER)], [Sym(':'), Natural(s.start)], [Uint32(s.start)], [Lit("|")], [Sym('|')], []);
    assert [Lit(":"), Mark(UINTEGER)] + [Lit("|")] == [Lit(":"), Mark(UINTEGER), Lit("|")];
    assert [Sym(':'), Natural(s.start)] + [Sym('|')] == PositionWords(s) && [Uint32(s.start)] + [] == [Uint32(s.start)];
  }

  lemma OrderMeans(bigEndian: bool)
    ensures var w := Natural(if bigEndian then 0 else 1); WordOk(w) && Means(ENDIAN, w) == Some([Uint32(if bigEndian then 48 else 49)])
  {
    assert Digits(0) == "0" && Digits(1) == "1";
    var n := Numeral(None, Digits(if bigEndian then 0 else 1), None, None);
    assert NumeralText(n) == n.whole;
  }

  lemma LayoutSpelled(s: Signal)
    requires SignalOk(s)
    ensures Spell(LAYOUT, LayoutWords(s), [Uint32(s.size), Uint32(if s.bigEndian then 48 else 49), Uint32(if s.unsigned then 1 else 0)])
  {
    NaturalMeans(s.size);
    OrderMeans(s.bigEndian);
    var order, sign := Natural(if s.bigEndian then 0 else 1), Sym(if s.unsigned then '+' else '-');
    var o, u := [Uint32(if s.bigEndian then 48 else 49)], [Uint32(if s.unsigned then 1 else 0)];
    assert Means(SIGNE, sign) == Some(u);
    hide Means, Digits, Spell;
    One(UINTEGER, Natural(s.size), [Uint32(s.size)]);
    SymbolAnd('@', ENDIAN, order, o);
    One(SIGNE, sign, u);
    Both([Mark(UINTEGER)], [Natural(s.size)], [Uint32(s.size)], [Lit("@"), Mark(ENDIAN)], [Sym('@'), order], o);
    Both([Mark(UINTEGER)] + [Lit("@"), Mark(ENDIAN)], [Natural(s.size)] + [Sym('@'), order], [Uint32(s.size)] + o, [Mark(SIGNE)], [sign], u);
    assert [Mark(UINTEGER)] + [Lit("@"), Mark(ENDIAN)] + [Mark(SIGNE)] == LAYOUT;
    assert [Natural(s.size)] + [Sym('@'), order] + [sign] == LayoutWords(s);
    assert [Uint32(s.size)] + o + u == [Uint32(s.size), o[0], u[0]];
  }

  lemma DoubleMeans(n: Numeral)
    ensures Means(DOUBLE, Word.Number(n)) == Some([Double(NumeralText(n))])
  {
  }

  lemma ScalingSpelled(s: Signal)
    ensures Spell(SCALING, ScalingWords(s), [Double(NumeralText(s.factor)), Double(NumeralText(s.offset))])
  {
    DoubleMeans(s.factor);
    DoubleMeans(s.offset);
    var f, o := [Double(NumeralText(s.factor))], [Double(NumeralText(s.offset))];
    hide Means, Spell, NumeralText;
    SymbolAnd('(', DOUBLE, Word.Number(s.factor), f);
    SymbolAnd(',', DOUBLE, Word.Number(s.offset), o);
    Both([Lit("("), Mark(DOUBLE)], [Sym('('), Word.Number(s.factor)], f, [Lit(","), Mark(DOUBLE)], [Sym(','), Word.Number(s.offset)], o);
    assert [Lit("("), Mark(DOUBLE)] + [Lit(","), Mark(DOUBLE)] == SCALING;
    assert [Sym('('), Word.Number(s.factor)] + [Sym(','), Word.Number(s.offset)] == ScalingWords(s);
    assert f + o == [f[0], o[0]];
  }

  lemma TwoSymbols(c: char, d: char)
    requires c != ' ' && d != ' '
    ensures Spell([Lit([c, d])], [Sym(c), Sym(d)], [])
  {
    assert [c, d][0..] == [c, d] && [c, d][1..] == [d] && [Sym(c), Sym(d)][1..] == [Sym(d)];
    var pattern := [Lit([c, d])];
    assert |[c]| != |[c, d]| && [c] <= [c, d];
    assert Progress(pattern, 0, 0, Sym(c)) == Some((0, 1, []));
    assert Progress(pattern, 0, 1, Sym(d)) == Some((1, 0, []));
    assert Spelled(pattern, 0, 1, [Sym(d)]) == Some([]);
    var none: seq<Value> := [];
    assert none + none == none;
  }

  lemma RangeSpelled(s: Signal)
    ensures Spell(RANGE, RangeWords(s), [Double(NumeralText(s.minimum)), Double(NumeralText(s.maximum)), CStr(Static, s.unit)])
  {
    DoubleMeans(s.minimum);
    DoubleMeans(s.maximum);
    var lo, hi, u := [Double(NumeralText(s.minimum))], [Double(NumeralText(s.maximum))], [CStr(Static, s.unit)];
    assert Means(STRING, Str(s.unit)) == Some(u);
    hide Means, Spell, NumeralText;
    var a, b, c, d := [Lit(")[")], [Mark(DOUBLE)], [Lit("|"), Mark(DOUBLE)], [Lit("]"), Mark(STRING)];
    var v, w, x, y := [Sym(')'), Sym('[')], [Word.Number(s.minimum)], [Sym('|'), Word.Number(s.maximum)], [Sym(']'), Str(s.unit)];
    TwoSymbols(')', '[');
    One(DOUBLE, Word.Number(s.minimum), lo);
    SymbolAnd('|', DOUBLE, Word.Number(s.maximum), hi);
    SymbolAnd(']', STRING, Str(s.unit), u);
    Both(a, v, [], b, w, lo);
    Both(a + b, v + w, [] + lo, c, x, hi);
    Both(a + b + c, v + w + x, [] + lo + hi, d, y, u);
    assert a + b + c + d == RANGE && v + w + x + y == RangeWords(s) && [] + lo + hi + u == [lo[0], hi[0], u[0]];
  }

  lemma InfoSpelled(s: Signal)
    requires SignalOk(s)
    ensures Spell(SIGNAL_INFO + [Mark(KEYWORD)], InfoWords(s) + [Name(s.receiver)], InfoValues(s) + [Identifier(Static, s.receiver)])
  {
    PositionSpelled(s);
    LayoutSpelled(s);
    ScalingSpelled(s);
    RangeSpelled(s);
    var p := [Lit(":"), Mark(UINTEGER), Lit("|")];
    var a, b, c, d := [Uint32(s.start)], [Uint32(s.size), Uint32(if s.bigEndian then 48 else 49), Uint32(if s.unsigned then 1 else 0)],
      [Double(NumeralText(s.factor)), Double(NumeralText(s.offset))],
      [Double(NumeralText(s.minimum)), Double(NumeralText(s.maximum)), CStr(Static, s.unit)];
    var r := [Identifier(Static, s.receiver)];
    One(KEYWORD, Name(s.receiver), r);
    hide Means, Spell, NumeralText, PositionWords, LayoutWords, ScalingWords, RangeWords, Digits;
    Both(p, PositionWords(s), a, LAYOUT, LayoutWords(s), b);
    Both(p + LAYOUT, PositionWords(s) + LayoutWords(s), a + b, SCALING, ScalingWords(s), c);
    Both(p + LAYOUT + SCALING, PositionWords(s) + LayoutWords(s) + ScalingWords(s), a + b + c, RANGE, RangeWords(s), d);
    Both(SIGNAL_INFO, InfoWords(s), a + b + c + d, [Mark(KEYWORD)], [Name(s.receiver)], r);
  }

  lemma MultiplexingSpelled(s: Signal)
    requires SignalOk(s) && s.multiplexing != Plainly
    ensures Spell([Mark(MPLEX)], MultiplexingWords(s.multiplexing), MultiplexingValues(s.multiplexing))
    ensures |MultiplexingWords(s.multiplexing)| == 1 && MultiplexingWords(s.multiplexing)[0].Name?
  {
    hide NumeralText, Decimal, Spell;
    var w := MultiplexingWords(s.multiplexing)[0];
    match s.multiplexing {
      case Plainly =>
      case Switch =>
      case Under(n) =>
        DigitsDenote(n);
        assert w.name[1..] == Digits(n);
      case SwitchUnder(n) =>
        DigitsDenote(n);
        assert w.name[1..|w.name| - 1] == Digits(n) && w.name[1..][|w.name| - 2] == 'M';
    }
    One(MPLEX, w, MultiplexingValues(s.multiplexing));
  }

  // ---------- what the init functions take

  function SignalValues(s: Signal): seq<Value> {
    [Identifier(Static, s.name)] + MultiplexingValues(s.multiplexing) + InfoValues(s) + Identifiers([s.receiver] + s.others)
  }

  lemma ShiftOne(f: Field, v: Value, fields: seq<Field>, rest: seq<Value>)
    requires ShiftField(f, [v] + rest) == Shifted([v], rest) && ShiftFields(fields, rest) == Shifted(rest, [])
    ensures ShiftFields([f] + fields, [v] + rest) == Shifted([v] + rest, [])
  {
    assert ([f] + fields)[0] == f && ([f] + fields)[1..] == fields;
  }

  lemma ShiftNumber(v: Value, fields: seq<Field>, rest: seq<Value>)
    requires (v.Uint32? || v.Double?) && ShiftFields(fields, rest) == Shifted(rest, [])
    ensures ShiftFields([if v.Uint32? then TakeUint else TakeDouble] + fields, [v] + rest) == Shifted([v] + rest, [])
  {
    assert ([v] + rest)[1..] == rest;
    ShiftOne(if v.Uint32? then TakeUint else TakeDouble, v, fields, rest);
  }

  lemma {:induction false} IdentifiersAre(names: seq<string>)
    ensures forall v :: v in Identifiers(names) ==> IsText(v)
  {
    if names != [] { IdentifiersAre(names[1..]); }
  }

  lemma TextsTaken(vs: seq<Value>)
    requires forall v :: v in vs ==> IsText(v)
    ensures ShiftFields([TakeTexts], vs) == Shifted(vs, [])
  {
    assert [TakeTexts][1..] == [] && ShiftFields([], []) == Shifted([], []);
    assert vs + [] == vs;
  }

  /** Size, order, sign, scaling, range, unit and receivers. */
  lemma TailTaken(s: Signal, vs: seq<Value>)
    requires forall v :: v in vs ==> IsText(v)
    ensures ShiftFields(INFO_FIELDS + [TakeTexts], InfoValues(s) + vs) == Shifted(InfoValues(s) + vs, [])
  {
    var xs := [Uint32(s.start), Uint32(s.size), Uint32(if s.bigEndian then 48 else 49), Uint32(if s.unsigned then 1 else 0)];
    var ys := [Double(NumeralText(s.factor)), Double(NumeralText(s.offset)), Double(NumeralText(s.minimum)), Double(NumeralText(s.maximum))];
    var u := CStr(Static, s.unit);
    hide ShiftFields, NumeralText;
    assert InfoValues(s) == xs + ys + [u];
    hide InfoValues;
    TextsTaken(vs);
    UnitTaken(u, vs);
    TailParts(xs, ys, u, vs);
    Regroup(xs, ys, [u], vs);
  }

  lemma TailParts(xs: seq<Value>, ys: seq<Value>, u: Value, vs: seq<Value>)
    requires |xs| == |ys| == 4 && (forall i :: 0 <= i < 4 ==> xs[i].Uint32?) && (forall i :: 0 <= i < 4 ==> ys[i].Double?)
    requires ShiftFields([TakeCStr, TakeTexts], [u] + vs) == Shifted([u] + vs, [])
    ensures var all := xs + (ys + ([u] + vs)); ShiftFields(INFO_FIELDS + [TakeTexts], all) == Shifted(all, [])
  {
    hide ShiftFields;
    FoursTaken(ys, [TakeCStr, TakeTexts], [u] + vs);
    FoursTaken(xs, Fours(TakeDouble) + [TakeCStr, TakeTexts], ys + ([u] + vs));
    assert Fours(TakeUint) + (Fours(TakeDouble) + [TakeCStr, TakeTexts]) == INFO_FIELDS + [TakeTexts];
  }

  lemma Regroup<T>(a: seq<T>, b: seq<T>, c: seq<T>, d: seq<T>)
    ensures a + (b + (c + d)) == a + b + c + d
  {
  }

  lemma UnitTaken(u: Value, vs: seq<Value>)
    requires u.CStr? && ShiftFields([TakeTexts], vs) == Shifted(vs, [])
    ensures ShiftFields([TakeCStr, TakeTexts], [u] + vs) == Shifted([u] + vs, [])
  {
    assert ([u] + vs)[1..] == vs;
    ShiftOne(TakeCStr, u, [TakeTexts], vs);
    assert [TakeCStr] + [TakeTexts] == [TakeCStr, TakeTexts];
  }

  function Fours(f: Field): seq<Field> { [f, f, f, f] }

  lemma FoursTaken(vs: seq<Value>, fields: seq<Field>, rest: seq<Value>)
    requires |vs| == 4 && ((forall i :: 0 <= i < 4 ==> vs[i].Uint32?) || (forall i :: 0 <= i < 4 ==> vs[i].Double?))
    requires ShiftFields(fields, rest) == Shifted(rest, [])
    ensures ShiftFields(Fours(if vs[0].Uint32? then TakeUint else TakeDouble) + fields, vs + rest) == Shifted(vs + rest, [])
  {
    hide ShiftFields;
    var f := if vs[0].Uint32? then TakeUint else TakeDouble;
    ShiftNumber(vs[3], fields, rest);
    ShiftNumber(vs[2], [f] + fields, [vs[3]] + rest);
    ShiftNumber(vs[1], [f] + ([f] + fields), [vs[2]] + ([vs[3]] + rest));
    ShiftNumber(vs[0], [f] + ([f] + ([f] + fields)), [vs[1]] + ([vs[2]] + ([vs[3]] + rest)));
    assert [vs[0]] + ([vs[1]] + ([vs[2]] + ([vs[3]] + rest))) == vs + rest;
    assert [f] + ([f] + ([f] + ([f] + fields))) == Fours(f) + fields;
  }

  lemma MultiplexerTaken(s: Signal, rest: seq<Value>, fields: seq<Field>)
    requires s.multiplexing != Plainly && rest != [] && rest[0].Uint32? && ShiftFields(fields, rest) == Shifted(rest, [])
    ensures var m := MultiplexingValues(s.multiplexing); ShiftFields([TakeMultiplexer] + fields, m + rest) == Shifted(m + rest, [])
  {
    var m := MultiplexingValues(s.multiplexing);
    var all := m + rest;
    assert all[..|m|] == m && all[|m|..] == rest;
    assert ShiftField(TakeMultiplexer, all) == Shifted(m, rest);
    assert ([TakeMultiplexer] + fields)[1..] == fields;
    hide MultiplexingValues;
  }

  lemma ValuesTaken(s: Signal, vs: seq<Value>)
    requires forall v :: v in vs ==> IsText(v)
    ensures var all := [Identifier(Static, s.name)] + MultiplexingValues(s.multiplexing) + InfoValues(s) + vs;
      var fields := [TakeIdentifier] + (if s.multiplexing == Plainly then [] else [TakeMultiplexer]) + (INFO_FIELDS + [TakeTexts]);
      ShiftFields(fields, all) == Shifted(all, [])
  {
    hide ShiftFields, InfoValues, MultiplexingValues;
    StartsWithNumber(s, vs);
    TailTaken(s, vs);
    var id, m, rest, fs := Identifier(Static, s.name), MultiplexingValues(s.multiplexing), InfoValues(s) + vs, INFO_FIELDS + [TakeTexts];
    if s.multiplexing == Plainly {
      NoMultiplexer(s, rest, fs);
      IdentifierTaken(id, fs, m + rest);
    } else {
      MultiplexerTaken(s, rest, fs);
      IdentifierTaken(id, [TakeMultiplexer] + fs, m + rest);
      assert [TakeIdentifier] + ([TakeMultiplexer] + fs) == [TakeIdentifier] + [TakeMultiplexer] + fs;
    }
    Regroup([id], m, InfoValues(s), vs);
  }

  lemma NoMultiplexer(s: Signal, rest: seq<Value>, fields: seq<Field>)
    requires s.multiplexing == Plainly
    ensures MultiplexingValues(s.multiplexing) + rest == rest && [TakeIdentifier] + [] + fields == [TakeIdentifier] + fields
  {
  }

  lemma IdentifierTaken(id: Value, fields: seq<Field>, rest: seq<Value>)
    requires id.Identifier? && ShiftFields(fields, rest) == Shifted(rest, [])
    ensures ShiftFields([TakeIdentifier] + fields, [id] + rest) == Shifted([id] + rest, [])
  {
    assert ([id] + rest)[1..] == rest;
    ShiftOne(TakeIdentifier, id, fields, rest);
  }

  lemma StartsWithNumber(s: Signal, vs: seq<Value>)
    ensures var rest := InfoValues(s) + vs; rest != [] && rest[0] == Uint32(s.start)
  {
    hide NumeralText;
  }
}
