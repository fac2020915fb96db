/** A type discipline for opcode tables: if a table checks, the interpreter cannot go wrong on it. */
module DBCTyping {
  import opened Words
  import opened DBCLexer
  import opened CStrToNum
  import opened DBCMachine

  // ---------- the values a stretch of pattern leaves behind

  /** One value of a known kind, one attribute value, or what a multiplexer indicator leaves. */
  datatype Slot = AnIdentifier | AText | AnInt | AUint | ADouble | AVariant | AMultiplexer

  function SlotsOfMarker(m: Marker): seq<Slot> {
    match m
    case KEYWORD => [AnIdentifier]
    case NOTBSKW => [AnIdentifier]
    case STRING => [AText]
    case ATTR => [AText]
    case UINTEGER => [AUint]
    case UINTCAST => [AUint]
    case ENDIAN => [AUint]
    case SIGNE => [AUint]
    case EXTYPE => [AUint]
    case EVTYPE => [AUint]
    case ACCESS => [AUint]
    case SINTEGER => [AnInt]
    case DOUBLE => [ADouble]
    case VALUE => [AVariant]
    case MPLEX => [AMultiplexer]
    case CMIGNORE => []
  }

  function Slots(pattern: seq<Item>): seq<Slot> {
    if pattern == [] then []
    else (if pattern[0].Mark? then SlotsOfMarker(pattern[0].marker) else []) + Slots(pattern[1..])
  }

  predicate Fits(v: Value, s: Slot) {
    match s
    case AnIdentifier => v.Identifier?
    case AText => v.CStr?
    case AnInt => v.Int32?
    case AUint => v.Uint32?
    case ADouble => v.Double?
    case AVariant => !v.Identifier?
    case AMultiplexer => false
  }

  /** The values are what the slots say, in order. */
  predicate Matches(vs: seq<Value>, ss: seq<Slot>) {
    if ss == [] then vs == []
    else if ss[0] != AMultiplexer then vs != [] && Fits(vs[0], ss[0]) && Matches(vs[1..], ss[1..])
    else
      || (vs != [] && (vs[0].Identifier? || vs[0].Uint32?) && Matches(vs[1..], ss[1..]))
      || (|vs| > 1 && vs[0].Uint32? && vs[1].Identifier? && Matches(vs[2..], ss[1..]))
  }

  lemma {:induction false} MatchesAppend(vs: seq<Value>, ss: seq<Slot>, ws: seq<Value>, ts: seq<Slot>)
    requires Matches(vs, ss) && Matches(ws, ts)
    ensures Matches(vs + ws, ss + ts)
    decreases |ss|
  {
    if ss == [] {
      assert vs + ws == ws && ss + ts == ts;
    } else {
      assert (ss + ts)[1..] == ss[1..] + ts;
      assert (vs + ws)[1..] == vs[1..] + ws;
      if |vs| > 1 { assert (vs + ws)[2..] == vs[2..] + ws; }
      if vs != [] && Matches(vs[1..], ss[1..]) { MatchesAppend(vs[1..], ss[1..], ws, ts); }
      if |vs| > 1 && Matches(vs[2..], ss[1..]) { MatchesAppend(vs[2..], ss[1..], ws, ts); }
    }
  }

  lemma {:induction false} MatchesLength(vs: seq<Value>, ss: seq<Slot>)
    requires Matches(vs, ss)
    ensures |ss| <= |vs| <= 2 * |ss|
  {
    if ss != [] {
      if vs != [] && Matches(vs[1..], ss[1..]) {
        MatchesLength(vs[1..], ss[1..]);
      } else {
        MatchesLength(vs[2..], ss[1..]);
      }
    }
  }

  lemma {:induction false} SlotsAppend(p: seq<Item>, q: seq<Item>)
    ensures Slots(p + q) == Slots(p) + Slots(q)
  {
    if p == [] {
      assert p + q == q;
    } else {
      assert (p + q)[1..] == p[1..] + q;
      SlotsAppend(p[1..], q);
    }
  }

  function Repeat(g: seq<Slot>, n: nat): seq<Slot> {
    if n == 0 then [] else g + Repeat(g, n - 1)
  }

  lemma {:induction false} RepeatOnce(g: seq<Slot>, n: nat)
    ensures Repeat(g, n) + g == Repeat(g, n + 1)
  {
    if n == 0 {
      assert Repeat(g, 0) + g == g + Repeat(g, 0);
    } else {
      RepeatOnce(g, n - 1);
      assert Repeat(g, n) + g == g + (Repeat(g, n - 1) + g);
    }
  }

  // ---------- the state of the queue when an opcode starts

  /** The queue holds `fixed` and then any number of times `group`; or it is only ever thrown away; or the
      opcode is never reached. */
  datatype Shape = Exact(fixed: seq<Slot>, group: seq<Slot>) | Anything | Never

  /** The queue fits the shape `n` groups on, followed by `more`. */
  ghost predicate FitsWith(vs: seq<Value>, h: Shape, n: nat, more: seq<Slot>) {
    match h
    case Anything => true
    case Never => false
    case Exact(fixed, group) => Matches(vs, fixed + Repeat(group, n) + more)
  }

  ghost predicate FitsShape(vs: seq<Value>, h: Shape, more: seq<Slot>) {
    exists n: nat :: FitsWith(vs, h, n, more)
  }

  /** Every queue of shape `narrow` is one of shape `wide`. */
  predicate Covers(wide: Shape, narrow: Shape) {
    wide.Anything? || narrow.Never? || wide == narrow || (wide.Exact? && narrow.Exact? && narrow.group == [] && wide.fixed == narrow.fixed)
  }

  lemma CoversFits(vs: seq<Value>, wide: Shape, narrow: Shape)
    requires Covers(wide, narrow) && FitsShape(vs, narrow, [])
    ensures FitsShape(vs, wide, [])
  {
    var n: nat :| FitsWith(vs, narrow, n, []);
    if wide.Anything? || wide == narrow {
      assert FitsWith(vs, wide, n, []);
    } else {
      RepeatNothing(n);
      assert narrow.fixed + Repeat(narrow.group, n) + [] == wide.fixed + Repeat(wide.group, 0) + [];
      assert FitsWith(vs, wide, 0, []);
    }
  }

  /** The shape behind a pattern that pushes `more`. */
  function Extend(h: Shape, more: seq<Slot>): Shape {
    if h.Exact? && h.group == [] then Exact(h.fixed + more, [])
    else if h.Never? || more == [] then h
    else Anything
  }

  /** A starred pattern that pushes `more` keeps the shape. */
  predicate Loops(h: Shape, more: seq<Slot>) {
    !h.Exact? || h.group == more || more == []
  }

  // ---------- what an init function needs

  predicate PairSlot(i: nat, s: Slot) {
    if i % 2 == 0 then s == AnInt || s == AUint else s == AText
  }

  predicate PairSlots(ss: seq<Slot>) {
    |ss| % 2 == 0 && forall i :: 0 <= i < |ss| ==> PairSlot(i, ss[i])
  }

  predicate TextSlots(ss: seq<Slot>) {
    forall s :: s in ss ==> s == AnIdentifier || s == AText
  }

  predicate UintSlots(ss: seq<Slot>) {
    forall s :: s in ss ==> s == AUint
  }

  /** The fields can be shifted out of every queue of that shape, and leave nothing behind. */
  predicate FieldsOk(fields: seq<Field>, ss: seq<Slot>, group: seq<Slot>) {
    if fields == [] then ss == [] && group == []
    else match fields[0]
      case TakeIdentifier => ss != [] && ss[0] == AnIdentifier && FieldsOk(fields[1..], ss[1..], group)
      case TakeCStr => ss != [] && ss[0] == AText && FieldsOk(fields[1..], ss[1..], group)
      case TakeInt => ss != [] && ss[0] == AnInt && FieldsOk(fields[1..], ss[1..], group)
      case TakeUint => ss != [] && ss[0] == AUint && FieldsOk(fields[1..], ss[1..], group)
      case TakeDouble => ss != [] && ss[0] == ADouble && FieldsOk(fields[1..], ss[1..], group)
      case TakeVariant => ss != [] && ss[0] == AVariant && FieldsOk(fields[1..], ss[1..], group)
      case TakeMultiplexer => |ss| > 1 && ss[0] == AMultiplexer && ss[1] == AUint && FieldsOk(fields[1..], ss[1..], group)
      case TakeTexts => fields[1..] == [] && TextSlots(ss) && TextSlots(group)
      case TakeDescriptions => fields[1..] == [] && PairSlots(ss) && PairSlots(group)
      case TakeRanges => fields[1..] == [] && UintSlots(ss) && UintSlots(group) && |ss| % 2 == 0 && |group| % 2 == 0
      case Clear => fields[1..] == []
  }

  predicate InitOk(init: Init, h: Shape) {
    || h.Never?
    || init.fields == [Clear]
    || (h == Exact([], []) && init.skipsEmpty)
    || (h.Exact? && FieldsOk(init.fields, h.fixed, h.group))
  }

  // ---------- the check

  /** No token of the lexer can match: a digit is never a symbol token, and a space never a token. */
  predicate Blocked(item: Item) {
    item == Mark(EXTYPE) || item == Mark(EVTYPE) || (item.Lit? && ' ' in item.text)
  }

  predicate Live(pattern: seq<Item>) {
    forall i :: 0 <= i < |pattern| ==> !Blocked(pattern[i])
  }

  function ShapeAt(shapes: seq<Shape>, k: nat): Option<Shape> {
    if k < |shapes| then Some(shapes[k]) else None
  }

  /** The interpreter may go on where the queue is expected to have shape `to`, if there is such an opcode. */
  predicate GoesTo(to: Option<Shape>, h: Shape) {
    to.Some? && Covers(to.value, h)
  }

  /** The token does not start this opcode: `jump` is the shape `op.next` opcodes on, `next` that of the
      following opcode. */
  predicate SkipOk(op: Opcode, h: Shape, jump: Option<Shape>, next: Option<Shape>) {
    if op.next != 0 then GoesTo(jump, h)
    else if op.required != '?' && op.required != '*' then true
    else if op.init.Some? then InitOk(op.init.value, h)
    else GoesTo(next, h)
  }

  /** The pattern of this opcode has matched to its end. */
  predicate CompleteOk(op: Opcode, h: Shape, next: Option<Shape>) {
    var more := Slots(op.pattern);
    if op.required == '*' then Loops(h, more)
    else if op.init.Some? then InitOk(op.init.value, Extend(h, more))
    else GoesTo(next, Extend(h, more))
  }

  /** A multiplexer indicator pushes two values on the strength of one overflow test, so it must come early. */
  predicate RoomOk(pattern: seq<Item>, h: Shape) {
    Mark(MPLEX) in pattern ==> h.Never? || (h.Exact? && h.group == [] && |h.fixed| + |pattern| < 500)
  }

  /** The markers with assertions of their own are where these are understood: a byte order is never the first item,
      and an access type comes behind an item no token matches. */
  predicate ItemOk(pattern: seq<Item>, i: nat)
    requires i < |pattern|
  {
    && (pattern[i] == Mark(ENDIAN) ==> i > 0)
    && (pattern[i] == Mark(ACCESS) ==> i > 2 && Blocked(pattern[2]))
  }

  predicate PatternOk(pattern: seq<Item>) {
    && pattern != [] && (forall i :: 0 <= i < |pattern| ==> pattern[i] != Lit(""))
    && forall i :: 0 <= i < |pattern| ==> ItemOk(pattern, i)
  }

  predicate RowOk(op: Opcode, h: Shape, jump: Option<Shape>, next: Option<Shape>) {
    && PatternOk(op.pattern)
    && SkipOk(op, h, jump, next)
    && (Live(op.pattern) ==> CompleteOk(op, h, next))
    && RoomOk(op.pattern, h)
  }

  predicate OpcodeOk(table: seq<Opcode>, shapes: seq<Shape>, k: nat)
    requires k < |table| == |shapes|
  {
    RowOk(table[k], shapes[k], ShapeAt(shapes, k + table[k].next), ShapeAt(shapes, k + 1))
  }

  predicate TableOk(table: seq<Opcode>, shapes: seq<Shape>) {
    && |table| == |shapes| > 0 && shapes[0] == Exact([], [])
    && forall k :: 0 <= k < |table| ==> OpcodeOk(table, shapes, k)
  }

  // ---------- the invariant of a running machine

  ghost predicate Typed(m: Machine, shapes: seq<Shape>) {
    && TableOk(m.table, shapes)
    && WellPlaced(m)
    && (forall i :: 0 <= i < m.item ==> !Blocked(m.table[m.opcode].pattern[i]))
    && (m.item < |m.table[m.opcode].pattern| && m.table[m.opcode].pattern[m.item].Lit? ==>
          ' ' !in m.table[m.opcode].pattern[m.item].text[..m.offset])
    && FitsShape(m.queue, shapes[m.opcode], Slots(m.table[m.opcode].pattern[..m.item]))
    && (m.done ==> m.item == 0 && m.offset == 0 && m.table[m.opcode].next == 0 && m.table[m.opcode].init.Some?
                   && m.table[m.opcode].required in {'?', '*'})
  }

  lemma {:induction false} MarkerSlots(marker: Marker, t: Token)
    requires TokenOk(t) && MatchMarker(marker, t).Some?
    ensures Matches(MatchMarker(marker, t).value, SlotsOfMarker(marker))
    ensures marker != EXTYPE && marker != EVTYPE
    ensures |MatchMarker(marker, t).value| <= if marker == MPLEX then 2 else 1
  {
  }

  lemma Start(table: seq<Opcode>, shapes: seq<Shape>)
    requires TableOk(table, shapes)
    ensures Typed(Machine(table, 0, 0, 0, false, []), shapes)
  {
    assert OpcodeOk(table, shapes, 0);
    assert FitsWith([], shapes[0], 0, Slots(table[0].pattern[..0]));
  }

  // ---------- init functions

  /** A property of single slots that their values inherit, when no multiplexer is among them. */
  lemma {:induction false} TextValues(vs: seq<Value>, ss: seq<Slot>)
    requires Matches(vs, ss) && TextSlots(ss)
    ensures forall v :: v in vs ==> IsText(v)
  {
    if ss != [] {
      assert ss[0] in ss && forall s :: s in ss[1..] ==> s in ss;
      TextValues(vs[1..], ss[1..]);
      assert vs == [vs[0]] + vs[1..];
    }
  }

  lemma {:induction false} UintValues(vs: seq<Value>, ss: seq<Slot>)
    requires Matches(vs, ss) && UintSlots(ss)
    ensures |vs| == |ss| && forall v :: v in vs ==> v.Uint32?
  {
    if ss != [] {
      assert ss[0] in ss && forall s :: s in ss[1..] ==> s in ss;
      UintValues(vs[1..], ss[1..]);
      assert vs == [vs[0]] + vs[1..];
    }
  }

  lemma {:induction false} PairValues(vs: seq<Value>, ss: seq<Slot>)
    requires Matches(vs, ss) && PairSlots(ss)
    ensures ArePairs(vs)
  {
    if ss != [] {
      assert PairSlot(0, ss[0]) && PairSlot(1, ss[1]);
      assert vs[1..][1..] == vs[2..] && ss[1..][1..] == ss[2..];
      assert Matches(vs[2..], ss[2..]);
      assert PairSlots(ss[2..]) by {
        forall i | 0 <= i < |ss[2..]| ensures PairSlot(i, ss[2..][i]) {
          assert ss[2..][i] == ss[i + 2] && PairSlot(i + 2, ss[i + 2]);
        }
      }
      PairValues(vs[2..], ss[2..]);
      forall i | 0 <= i < |vs| ensures if i % 2 == 0 then vs[i].Int32? || vs[i].Uint32? else vs[i].CStr? {
        if i > 1 { assert vs[i] == vs[2..][i - 2]; }
      }
    }
  }

  lemma {:induction false} RepeatTexts(ss: seq<Slot>, g: seq<Slot>, n: nat)
    requires TextSlots(ss) && TextSlots(g)
    ensures TextSlots(ss + Repeat(g, n))
    decreases n
  {
    if n > 0 {
      RepeatTexts(ss + g, g, n - 1);
      assert ss + Repeat(g, n) == ss + g + Repeat(g, n - 1);
    } else {
      assert ss + Repeat(g, 0) == ss;
    }
  }

  lemma {:induction false} RepeatUints(ss: seq<Slot>, g: seq<Slot>, n: nat)
    requires UintSlots(ss) && UintSlots(g) && |ss| % 2 == 0 && |g| % 2 == 0
    ensures UintSlots(ss + Repeat(g, n)) && |ss + Repeat(g, n)| % 2 == 0
    decreases n
  {
    if n > 0 {
      RepeatUints(ss + g, g, n - 1);
      assert ss + Repeat(g, n) == ss + g + Repeat(g, n - 1);
    } else {
      assert ss + Repeat(g, 0) == ss;
    }
  }

  lemma AppendPairs(ss: seq<Slot>, ts: seq<Slot>)
    requires PairSlots(ss) && PairSlots(ts)
    ensures PairSlots(ss + ts)
  {
  }

  lemma {:induction false} RepeatPairs(ss: seq<Slot>, g: seq<Slot>, n: nat)
    requires PairSlots(ss) && PairSlots(g)
    ensures PairSlots(ss + Repeat(g, n))
    decreases n
  {
    if n > 0 {
      AppendPairs(ss, g);
      RepeatPairs(ss + g, g, n - 1);
      assert ss + Repeat(g, n) == ss + g + Repeat(g, n - 1);
    } else {
      assert ss + Repeat(g, 0) == ss;
    }
  }

  /** The fields of an init function that fits the shape take the whole queue without a failed assertion. */
  lemma {:induction false} FieldsRun(fields: seq<Field>, vs: seq<Value>, ss: seq<Slot>, group: seq<Slot>, n: nat)
    requires FieldsOk(fields, ss, group) && Matches(vs, ss + Repeat(group, n))
    ensures ShiftFields(fields, vs).Shifted? && ShiftFields(fields, vs).rest == []
    decreases |fields|
  {
    if fields == [] {
      RepeatNothing(n);
    } else if fields[0] in {TakeTexts, TakeDescriptions, TakeRanges, Clear} {
      LastFieldRuns(fields[0], fields[1..], vs, ss, group, n);
    } else {
      assert (ss + Repeat(group, n))[1..] == ss[1..] + Repeat(group, n);
      var s := ShiftField(fields[0], vs);
      FieldRuns(fields[0], vs, ss + Repeat(group, n));
      FieldsRun(fields[1..], s.rest, ss[1..], group, n);
    }
  }

  lemma {:induction false} RepeatNothing(n: nat)
    ensures Repeat([], n) == []
  {
    if n > 0 { RepeatNothing(n - 1); }
  }

  lemma LastFieldRuns(f: Field, fields: seq<Field>, vs: seq<Value>, ss: seq<Slot>, group: seq<Slot>, n: nat)
    requires f in {TakeTexts, TakeDescriptions, TakeRanges, Clear}
    requires FieldsOk([f] + fields, ss, group) && Matches(vs, ss + Repeat(group, n))
    ensures fields == [] && ShiftField(f, vs).Shifted? && ShiftField(f, vs).rest == []
  {
    assert ([f] + fields)[1..] == fields;
    match f {
      case TakeTexts =>
        RepeatTexts(ss, group, n);
        TextValues(vs, ss + Repeat(group, n));
      case TakeDescriptions =>
        RepeatPairs(ss, group, n);
        PairValues(vs, ss + Repeat(group, n));
      case TakeRanges =>
        RepeatUints(ss, group, n);
        UintValues(vs, ss + Repeat(group, n));
      case _ =>
    }
  }

  /** The slot a field takes. */
  predicate FieldFits(f: Field, ss: seq<Slot>) {
    match f
    case TakeIdentifier => ss != [] && ss[0] == AnIdentifier
    case TakeCStr => ss != [] && ss[0] == AText
    case TakeInt => ss != [] && ss[0] == AnInt
    case TakeUint => ss != [] && ss[0] == AUint
    case TakeDouble => ss != [] && ss[0] == ADouble
    case TakeVariant => ss != [] && ss[0] == AVariant
    case TakeMultiplexer => |ss| > 1 && ss[0] == AMultiplexer && ss[1] == AUint
    case _ => false
  }

  lemma FieldRuns(f: Field, vs: seq<Value>, ss: seq<Slot>)
    requires FieldFits(f, ss) && Matches(vs, ss)
    ensures ShiftField(f, vs).Shifted? && Matches(ShiftField(f, vs).rest, ss[1..])
  {
  }

  lemma InitRuns(init: Init, h: Shape, vs: seq<Value>)
    requires InitOk(init, h) && FitsShape(vs, h, [])
    ensures RunInit(init, vs).0.Some? && RunInit(init, vs).1 == []
  {
    if init.fields == [Clear] {
      assert init.fields[1..] == [] && ShiftField(Clear, vs) == Shifted([], []);
      assert ShiftFields(init.fields, vs) == Shifted([] + [], []);
    } else {
      var n: nat :| FitsWith(vs, h, n, []);
      assert h.fixed + Repeat(h.group, n) + [] == h.fixed + Repeat(h.group, n);
      if h == Exact([], []) && init.skipsEmpty {
        RepeatNothing(n);
      } else {
        FieldsRun(init.fields, vs, h.fixed, h.group, n);
      }
    }
  }

  // ---------- one token

  lemma NoSpaces(t: Token)
    requires TokenOk(t) && (t.kind == IdentifierToken || t.kind == SymbolToken)
    ensures ' ' !in t.data
  {
  }

  lemma {:induction false} SlotsShorter(p: seq<Item>)
    ensures |Slots(p)| <= |p|
  {
    if p != [] { SlotsShorter(p[1..]); }
  }

  lemma SlotsUpTo(p: seq<Item>, i: nat)
    requires i < |p|
    ensures Slots(p[..i + 1]) == Slots(p[..i]) + if p[i].Mark? then SlotsOfMarker(p[i].marker) else []
  {
    assert p[..i + 1] == p[..i] + [p[i]];
    SlotsAppend(p[..i], [p[i]]);
    assert Slots([p[i]]) == (if p[i].Mark? then SlotsOfMarker(p[i].marker) else []) + Slots([p[i]][1..]);
  }

  /** A queue still short enough for two more values when a multiplexer indicator comes. */
  lemma RoomForTwo(vs: seq<Value>, h: Shape, p: seq<Item>, i: nat)
    requires RoomOk(p, h) && i < |p| && p[i] == Mark(MPLEX) && FitsShape(vs, h, Slots(p[..i]))
    ensures |vs| <= 1000
  {
    assert p[i] in p;
    var n: nat :| FitsWith(vs, h, n, Slots(p[..i]));
    RepeatNothing(n);
    SlotsShorter(p[..i]);
    MatchesLength(vs, h.fixed + Repeat(h.group, n) + Slots(p[..i]));
  }

  lemma PushFits(vs: seq<Value>, h: Shape, p: seq<Item>, i: nat, t: Token)
    requires i < |p| && p[i].Mark? && TokenOk(t) && MatchMarker(p[i].marker, t).Some?
    requires FitsShape(vs, h, Slots(p[..i]))
    ensures FitsShape(vs + MatchMarker(p[i].marker, t).value, h, Slots(p[..i + 1]))
  {
    hide Matches, MatchMarker, TokenOk;
    var n: nat :| FitsWith(vs, h, n, Slots(p[..i]));
    var pushed := MatchMarker(p[i].marker, t).value;
    MarkerSlots(p[i].marker, t);
    SlotsUpTo(p, i);
    if h.Exact? {
      MatchesAppend(vs, h.fixed + Repeat(h.group, n) + Slots(p[..i]), pushed, SlotsOfMarker(p[i].marker));
      assert h.fixed + Repeat(h.group, n) + Slots(p[..i]) + SlotsOfMarker(p[i].marker) == h.fixed + Repeat(h.group, n) + Slots(p[..i + 1]);
    }
    assert FitsWith(vs + pushed, h, n, Slots(p[..i + 1]));
  }

  lemma RoomAt(m: Machine, shapes: seq<Shape>)
    requires TableOk(m.table, shapes) && m.opcode < |m.table|
    ensures |m.table| == |shapes| && RoomOk(m.table[m.opcode].pattern, shapes[m.opcode])
  {
    assert OpcodeOk(m.table, shapes, m.opcode);
  }

  /** A matching token keeps the queue typed and inside its 1024 slots. */
  lemma Next2Typed(m: Machine, shapes: seq<Shape>, t: Token)
    requires Typed(m, shapes) && !m.done && TokenOk(t) && |m.queue| < STACK_SIZE && Next2(m, t).Some?
    ensures Typed(Next2(m, t).value, shapes) && !Next2(m, t).value.done && |Next2(m, t).value.queue| <= STACK_SIZE
    ensures Next2(m, t).value.table == m.table
  {
    hide TokenOk, MatchMarker, FitsShape, TableOk, RoomOk, SlotsOfMarker, Slots;
    var n := Next2(m, t).value;
    var p := m.table[m.opcode].pattern;
    RoomAt(m, shapes);
    match p[m.item] {
      case Mark(marker) =>
        MarkerSlots(marker, t);
        PushFits(m.queue, shapes[m.opcode], p, m.item, t);
        if marker == MPLEX { RoomForTwo(m.queue, shapes[m.opcode], p, m.item); }
      case Lit(text) =>
        NoSpaces(t);
        SlotsUpTo(p, m.item);
        var rest := text[m.offset..];
        assert rest[..|t.data|] == t.data;
        assert text[..m.offset + |t.data|] == text[..m.offset] + t.data;
        assert Slots(p[..m.item]) + [] == Slots(p[..m.item]);
        if t.data == rest {
          assert text[..m.offset] + t.data == text;
        }
    }
  }

  lemma SkipFits(m: Machine, shapes: seq<Shape>, to: nat)
    requires Typed(m, shapes) && m.item == 0 && GoesTo(ShapeAt(shapes, to), shapes[m.opcode])
    ensures Typed(SetOpcode(m, to), shapes)
  {
    assert OpcodeOk(m.table, shapes, to);
    assert Slots(m.table[m.opcode].pattern[..0]) == [] && Slots(m.table[to].pattern[..0]) == [];
    CoversFits(m.queue, shapes[to], shapes[m.opcode]);
  }

  /** The machine waits for a byte order, and gets an integer of more than one digit. */
  predicate AtLongEndian(m: Machine, t: Token)
    requires WellPlaced(m)
  {
    && m.item < |m.table[m.opcode].pattern| && m.table[m.opcode].pattern[m.item] == Mark(ENDIAN)
    && t.kind == UIntegerToken && |t.data| != 1
  }

  /** No other assertion of an opcode can fail. */
  lemma AssertsEndian(m: Machine, shapes: seq<Shape>, t: Token)
    requires Typed(m, shapes)
    ensures AssertsAt(m, t) <==> AtLongEndian(m, t)
    ensures AtLongEndian(m, t) ==> m.item > 0
  {
    hide StrToUint32, FitsShape;
    assert OpcodeOk(m.table, shapes, m.opcode);
    var p := m.table[m.opcode].pattern;
    if m.item < |p| {
      assert ItemOk(p, m.item);
    }
  }

  /** Whatever the token, the interpreter stays inside its table, and fails an assertion only at a byte order. */
  lemma {:induction false} NextTyped(m: Machine, shapes: seq<Shape>, t: Token)
    requires Typed(m, shapes) && !m.done && TokenOk(t) && |m.queue| < STACK_SIZE
    ensures var r := Next(m, t);
      && !r.Lost? && (r.Asserted? <==> AtLongEndian(m, t))
      && (r.Taken? ==> Typed(r.machine, shapes) && r.machine.done == r.repeat && |r.machine.queue| <= STACK_SIZE
                       && r.machine.table == m.table)
      && (r.Taken? && r.repeat ==> r.machine.queue == m.queue)
    decreases |m.table| - m.opcode
  {
    hide TokenOk, MatchMarker, FitsShape, InitOk, Asserts;
    AssertsEndian(m, shapes, t);
    if AtLongEndian(m, t) {
    } else if Next2(m, t).Some? {
      Next2Typed(m, shapes, t);
    } else if m.item == 0 && m.offset == 0 {
      var k := m.opcode;
      var op := m.table[k];
      assert OpcodeOk(m.table, shapes, k);
      if op.next != 0 || ((op.required == '?' || op.required == '*') && op.init.None?) {
        var to := k + if op.next != 0 then op.next else 1;
        SkipFits(m, shapes, to);
        AssertsEndian(SetOpcode(m, to), shapes, t);
        NextTyped(SetOpcode(m, to), shapes, t);
      }
    }
  }

  // ---------- what follows a token

  lemma ExtendFits(vs: seq<Value>, h: Shape, more: seq<Slot>)
    requires FitsShape(vs, h, more)
    ensures FitsShape(vs, Extend(h, more), [])
  {
    var n: nat :| FitsWith(vs, h, n, more);
    var e := Extend(h, more);
    if h.Exact? && h.group == [] {
      RepeatNothing(n);
      assert h.fixed + Repeat(h.group, n) + more == e.fixed + Repeat(e.group, 0) + [];
      assert FitsWith(vs, e, 0, []);
    } else {
      assert FitsWith(vs, e, n, []);
    }
  }

  lemma LoopFits(vs: seq<Value>, h: Shape, more: seq<Slot>)
    requires FitsShape(vs, h, more) && Loops(h, more)
    ensures FitsShape(vs, h, [])
  {
    var n: nat :| FitsWith(vs, h, n, more);
    if !h.Exact? || more == [] {
      assert FitsWith(vs, h, n, []);
    } else {
      RepeatOnce(h.group, n);
      assert h.fixed + Repeat(h.group, n) + more == h.fixed + Repeat(h.group, n + 1) + [];
      assert FitsWith(vs, h, n + 1, []);
    }
  }

  /** After a token either the machine goes on typed, or an init function has taken exactly what is in the
      queue. No assertion fails and no opcode outside the table is reached. */
  lemma ResultTyped(m: Machine, shapes: seq<Shape>)
    requires Typed(m, shapes)
    ensures match ResultOf(m)
      case More(n) => !m.done && Typed(n, shapes) && !n.done && n.queue == m.queue && n.table == m.table
      case Ready(_, rest) => rest == []
      case Broken => false
  {
    hide FitsShape, InitOk, RunInit;
    var k := m.opcode;
    var op := m.table[k];
    var h := shapes[k];
    assert OpcodeOk(m.table, shapes, k);
    if m.done {
      assert Slots(op.pattern[..0]) == [];
      InitRuns(op.init.value, h, m.queue);
    } else if m.item == |op.pattern| {
      assert op.pattern[..m.item] == op.pattern;
      assert Live(op.pattern);
      var more := Slots(op.pattern);
      if op.required == '*' {
        LoopFits(m.queue, h, more);
        assert Slots(op.pattern[..0]) == [];
      } else {
        ExtendFits(m.queue, h, more);
        if op.init.Some? {
          InitRuns(op.init.value, Extend(h, more), m.queue);
        } else {
          CompleteFits(m, shapes, Extend(h, more));
        }
      }
    }
  }

  lemma CompleteFits(m: Machine, shapes: seq<Shape>, h: Shape)
    requires TableOk(m.table, shapes) && m.opcode < |m.table| && GoesTo(ShapeAt(shapes, m.opcode + 1), h) && FitsShape(m.queue, h, [])
    ensures Typed(SetOpcode(m, m.opcode + 1), shapes)
  {
    var to := m.opcode + 1;
    assert OpcodeOk(m.table, shapes, to);
    assert Slots(m.table[to].pattern[..0]) == [];
    CoversFits(m.queue, shapes[to], h);
  }

  // ---------- what a machine does not touch

  /** The section comes from an opcode that can be reached, and whose pattern can be completed unless it may be
      left out. */
  lemma ReadyRow(m: Machine, shapes: seq<Shape>)
    requires Typed(m, shapes) && ResultOf(m).Ready?
    ensures var op := m.table[m.opcode];
      && op.init.Some? && ResultOf(m).section.name == op.init.value.name
      && m.opcode < |shapes| && shapes[m.opcode] != Never && (Live(op.pattern) || op.required in {'?', '*'})
  {
  }

  lemma {:induction false} ShiftedSubset(fields: seq<Field>, queue: seq<Value>)
    requires ShiftFields(fields, queue).Shifted?
    ensures forall v :: v in ShiftFields(fields, queue).values ==> v in queue
    ensures forall v :: v in ShiftFields(fields, queue).rest ==> v in queue
  {
    if fields != [] {
      ShiftedSubset(fields[1..], ShiftField(fields[0], queue).rest);
    }
  }

  /** A section is made of values of the queue. */
  lemma ReadyValues(m: Machine)
    requires WellPlaced(m) && ResultOf(m).Ready?
    ensures forall v :: v in ResultOf(m).section.values ==> v in m.queue
  {
    var op := m.table[m.opcode];
    if !(op.init.value.skipsEmpty && m.queue == []) {
      ShiftedSubset(op.init.value.fields, m.queue);
    }
  }

  /** The values a token adds: texts among them are the token's own, or constants. */
  predicate FromToken(vs: seq<Value>, t: Token) {
    forall i :: 0 <= i < |vs| && IsText(vs[i]) && vs[i].place.Buffer? ==> i == 0 && |vs| == 1 && vs[i].place == t.place && vs[i].text == t.data
  }

  lemma MarkerFromToken(marker: Marker, t: Token)
    requires MatchMarker(marker, t).Some?
    ensures FromToken(MatchMarker(marker, t).value, t)
  {
  }

  lemma {:induction false} NextQueue(m: Machine, t: Token)
    requires WellPlaced(m) && Next(m, t).Taken?
    ensures var n := Next(m, t).machine;
      |m.queue| <= |n.queue| && n.queue[..|m.queue|] == m.queue && FromToken(n.queue[|m.queue|..], t)
    decreases |m.table| - m.opcode
  {
    hide MatchMarker, FromToken;
    if Next2(m, t).Some? {
      NothingFromToken(t);
      var n := Next2(m, t).value;
      if m.table[m.opcode].pattern[m.item].Mark? {
        var marker := m.table[m.opcode].pattern[m.item].marker;
        MarkerFromToken(marker, t);
        assert n.queue[|m.queue|..] == MatchMarker(marker, t).value;
      } else {
        assert n.queue[|m.queue|..] == [];
      }
    } else {
      NothingFromToken(t);
      var op := m.table[m.opcode];
      if op.next == 0 && op.init.Some? {
        assert m.queue[|m.queue|..] == [];
      } else {
        NextQueue(SetOpcode(m, m.opcode + if op.next != 0 then op.next else 1), t);
      }
    }
  }

  lemma NothingFromToken(t: Token)
    ensures FromToken([], t)
  {
  }
}
