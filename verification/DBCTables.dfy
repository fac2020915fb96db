/** The opcode tables of libnetq/dbc/DBCParser.c, each row with the shape of the queue when it starts. */
module DBCTables {
  import opened Words
  import opened DBCLexer
  import opened DBCMachine
  import opened DBCTyping

  datatype Row = Row(op: Opcode, shape: Shape)

  function Table(rows: seq<Row>): seq<Opcode> {
    seq(|rows|, k requires 0 <= k < |rows| => rows[k].op)
  }

  function Shapes(rows: seq<Row>): seq<Shape> {
    seq(|rows|, k requires 0 <= k < |rows| => rows[k].shape)
  }

  function At(rows: seq<Row>, k: nat): Option<Shape> {
    if k < |rows| then Some(rows[k].shape) else None
  }

  predicate Good(rows: seq<Row>, k: nat)
    requires k < |rows|
  {
    RowOk(rows[k].op, rows[k].shape, At(rows, k + rows[k].op.next), At(rows, k + 1))
  }

  predicate RowsOk(rows: seq<Row>) {
    && rows != [] && rows[0].shape == Exact([], [])
    && forall k :: 0 <= k < |rows| ==> Good(rows, k)
  }

  lemma RowsMakeTable(rows: seq<Row>)
    requires RowsOk(rows)
    ensures TableOk(Table(rows), Shapes(rows))
  {
    var table, shapes := Table(rows), Shapes(rows);
    forall k | 0 <= k < |table| ensures OpcodeOk(table, shapes, k) {
      assert Good(rows, k);
    }
  }

  // ---------- writing rows

  function Op(next: nat, required: char, pattern: seq<Item>, shape: Shape): Row {
    Row(Opcode(next, required, pattern, None), shape)
  }

  function OpInit(next: nat, required: char, pattern: seq<Item>, name: string, fields: seq<Field>, shape: Shape): Row {
    Row(Opcode(next, required, pattern, Some(Init.Init(name, fields, false, false))), shape)
  }

  // ---------- reading rows: what patterns push and init functions take

  function SlotsAt(p: seq<Item>, i: nat): seq<Slot> {
    if i < |p| && p[i].Mark? then SlotsOfMarker(p[i].marker) else []
  }

  function Upto(p: seq<Item>, i: nat): seq<Item> {
    p[..if i < |p| then i else |p|]
  }

  lemma SlotsStep(p: seq<Item>, i: nat)
    ensures Slots(Upto(p, i + 1)) == Slots(Upto(p, i)) + SlotsAt(p, i)
  {
    if i < |p| {
      SlotsUpTo(p, i);
    } else {
      assert Slots(p) + [] == Slots(p);
    }
  }

  lemma SlotsEnds(p: seq<Item>)
    requires |p| <= 7
    ensures Slots(Upto(p, 0)) == [] && Upto(p, 7) == p
  {
  }

  /** The slots of a pattern of at most seven items. */
  lemma Pushes(p: seq<Item>, ss: seq<Slot>)
    requires |p| <= 7
    requires ss == SlotsAt(p, 0) + SlotsAt(p, 1) + SlotsAt(p, 2) + SlotsAt(p, 3) + SlotsAt(p, 4) + SlotsAt(p, 5) + SlotsAt(p, 6)
    ensures Slots(p) == ss
  {
    hide Slots, SlotsAt, Upto;
    SlotsEnds(p);
    SlotsStep(p, 0);
    SlotsStep(p, 1);
    SlotsStep(p, 2);
    SlotsStep(p, 3);
    SlotsStep(p, 4);
    SlotsStep(p, 5);
    SlotsStep(p, 6);
    assert [] + SlotsAt(p, 0) == SlotsAt(p, 0);
  }

  /** The first `n` fields take one value each; the others are looked at as they are. */
  lemma {:induction false} FieldsFrom(fields: seq<Field>, ss: seq<Slot>, group: seq<Slot>, n: nat, i: nat)
    requires i <= n <= |fields| && n <= |ss| && (forall j :: 0 <= j < n ==> FieldFits(fields[j], [ss[j]]))
    requires FieldsOk(fields[n..], ss[n..], group)
    ensures FieldsOk(fields[i..], ss[i..], group)
    decreases n - i
  {
    if i < n {
      FieldsFrom(fields, ss, group, n, i + 1);
      assert fields[i..][1..] == fields[i + 1..] && ss[i..][1..] == ss[i + 1..];
      assert FieldFits(fields[i], [ss[i]]);
    }
  }

  lemma Takes(fields: seq<Field>, ss: seq<Slot>, group: seq<Slot>, n: nat)
    requires n <= |fields| && n <= |ss| && (forall j :: 0 <= j < n ==> FieldFits(fields[j], [ss[j]]))
    requires FieldsOk(fields[n..], ss[n..], group)
    ensures FieldsOk(fields, ss, group)
  {
    FieldsFrom(fields, ss, group, n, 0);
    assert fields[0..] == fields && ss[0..] == ss;
  }

  lemma TakesAll(fields: seq<Field>, ss: seq<Slot>)
    requires |fields| == |ss| && forall j :: 0 <= j < |fields| ==> FieldFits(fields[j], [ss[j]])
    ensures FieldsOk(fields, ss, [])
  {
    Takes(fields, ss, [], |fields|);
  }

  lemma ExtendsTo(h: Shape, p: seq<Item>, total: seq<Slot>)
    requires h.Exact? && h.group == [] && h.fixed + Slots(p) == total
    ensures Extend(h, Slots(p)) == Exact(total, [])
  {
  }

  /** A row without an init function that is passed once. */
  lemma LeadRow(rows: seq<Row>, k: nat, after: Shape)
    requires k < |rows| && rows[k].op.init.None? && rows[k].op.required != '*' && PatternOk(rows[k].op.pattern)
    requires Mark(MPLEX) in rows[k].op.pattern ==> RoomOk(rows[k].op.pattern, rows[k].shape)
    requires SkipOk(rows[k].op, rows[k].shape, At(rows, k + rows[k].op.next), At(rows, k + 1))
    requires Extend(rows[k].shape, Slots(rows[k].op.pattern)) == after && GoesTo(At(rows, k + 1), after)
    ensures Good(rows, k)
  {
  }

  /** A row that may be passed any number of times. */
  lemma StarRow(rows: seq<Row>, k: nat)
    requires k < |rows| && rows[k].op.required == '*' && PatternOk(rows[k].op.pattern) && Mark(MPLEX) !in rows[k].op.pattern
    requires SkipOk(rows[k].op, rows[k].shape, At(rows, k + rows[k].op.next), At(rows, k + 1))
    requires Loops(rows[k].shape, Slots(rows[k].op.pattern))
    ensures Good(rows, k)
  {
  }

  /** A row that ends a section. */
  lemma LastRow(rows: seq<Row>, k: nat, after: Shape)
    requires k < |rows| && rows[k].op.init.Some? && rows[k].op.required != '*' && PatternOk(rows[k].op.pattern) && Mark(MPLEX) !in rows[k].op.pattern
    requires SkipOk(rows[k].op, rows[k].shape, At(rows, k + rows[k].op.next), At(rows, k + 1))
    requires Extend(rows[k].shape, Slots(rows[k].op.pattern)) == after && InitOk(rows[k].op.init.value, after)
    ensures Good(rows, k)
  {
  }

  // ---------- the tables

  const VERSION := [
    OpInit(0, '1', [Mark(STRING)], "initVersion", [TakeCStr], START)
  ]

  const START := Exact([], [])

  const NEW_SYMBOLS := [
    Op(0, '1', [Lit(":\n")], START),
    OpInit(0, '*', [Mark(NOTBSKW), Lit("\n")], "initNewSymbol", [TakeTexts], Exact([], [AnIdentifier]))
  ]

  const BIT_TIMING := [
    Op(0, '1', [Lit(":")], START),
    Row(Opcode(0, '?', [Mark(UINTEGER), Lit(":"), Mark(UINTEGER), Lit(","), Mark(UINTEGER)],
               Some(Init.Init("initBitTiming", [TakeUint, TakeUint, TakeUint], true, false))), START)
  ]

  const NODES := [
    Op(0, '1', [Lit(":")], START),
    OpInit(0, '*', [Mark(KEYWORD)], "initNodes", [TakeTexts], Exact([], [AnIdentifier]))
  ]

  const VALUE_TABLES := [
    Op(0, '1', [Mark(KEYWORD)], START),
    Op(0, '*', [Mark(SINTEGER), Mark(STRING)], Exact([AnIdentifier], [AnInt, AText])),
    OpInit(0, '1', [Lit(";")], "initValueTable", [TakeIdentifier, TakeDescriptions], Exact([AnIdentifier], [AnInt, AText]))
  ]

  const MESSAGES := [
    OpInit(0, '1', [Mark(UINTEGER), Mark(KEYWORD), Lit(":"), Mark(UINTEGER), Mark(KEYWORD)], "initMessage",
           [TakeUint, TakeIdentifier, TakeUint, TakeIdentifier], START)
  ]

  /** The part that signals and signal types share: position, byte order, scaling, range and unit. */
  const LAYOUT := [Mark(UINTEGER), Lit("@"), Mark(ENDIAN), Mark(SIGNE)]
  const SCALING := [Lit("("), Mark(DOUBLE), Lit(","), Mark(DOUBLE)]
  const RANGE := [Lit(")["), Mark(DOUBLE), Lit("|"), Mark(DOUBLE), Lit("]"), Mark(STRING)]
  const SIGNAL_LAYOUT := [Lit(":"), Mark(UINTEGER), Lit("|")] + LAYOUT
  const SIGNAL_INFO := SIGNAL_LAYOUT + SCALING + RANGE
  const INFO_SLOTS := [AUint, AUint, AUint, AUint, ADouble, ADouble, ADouble, ADouble, AText]
  const INFO_FIELDS := [TakeUint, TakeUint, TakeUint, TakeUint, TakeDouble, TakeDouble, TakeDouble, TakeDouble, TakeCStr]
  const NORMAL := [AnIdentifier] + (INFO_SLOTS + [AnIdentifier])
  const MULTIPLEXED := [AnIdentifier] + ([AMultiplexer] + (INFO_SLOTS + [AnIdentifier]))

  const SIGNAL := [
    Op(0, '1', [Mark(KEYWORD)], START),
    Op(2, '1', SIGNAL_INFO + [Mark(KEYWORD)], Exact([AnIdentifier], [])),
    OpInit(0, '*', [Lit(","), Mark(KEYWORD)], "initSignalNormal", [TakeIdentifier] + (INFO_FIELDS + [TakeTexts]), Exact(NORMAL, [AnIdentifier])),
    Op(0, '1', [Mark(MPLEX)] + (SIGNAL_INFO + [Mark(KEYWORD)]), Exact([AnIdentifier], [])),
    OpInit(0, '*', [Lit(","), Mark(KEYWORD)], "initSignalMultiplexer", [TakeIdentifier] + ([TakeMultiplexer] + (INFO_FIELDS + [TakeTexts])),
           Exact(MULTIPLEXED, [AnIdentifier]))
  ]

  const TRANSMITTERS := [
    Op(0, '1', [Mark(UINTEGER), Lit(":"), Mark(KEYWORD)], START),
    Op(0, '*', [Lit(","), Mark(KEYWORD)], Exact([AUint, AnIdentifier], [AnIdentifier])),
    OpInit(0, '1', [Lit(";")], "initMessageTransmitter", [TakeUint, TakeTexts], Exact([AUint, AnIdentifier], [AnIdentifier]))
  ]

  const ENV_FIELDS := [TakeIdentifier, TakeUint, TakeDouble, TakeDouble, TakeDouble, TakeUint, TakeUint, TakeTexts]

  const ENVIRONMENT := [
    Op(0, '1', [Mark(KEYWORD), Lit(":"), Mark(EVTYPE), Lit("["), Mark(DOUBLE), Lit("|"), Mark(DOUBLE), Lit("]"), Mark(STRING),
                Mark(DOUBLE), Mark(UINTEGER), Mark(ACCESS), Mark(KEYWORD)], START),
    Op(0, '*', [Lit(","), Mark(KEYWORD)], Never),
    OpInit(0, '1', [Lit(";")], "initEnvVar", ENV_FIELDS, Never)
  ]

  const ENVIRONMENT_DATA := [
    OpInit(0, '1', [Mark(KEYWORD), Lit(":"), Mark(UINTEGER), Lit(";")], "initEnvVarData", [TakeIdentifier, TakeUint], START)
  ]

  const TYPE_REF_FIELDS := [TakeUint, TakeIdentifier, TakeIdentifier]

  const SIGNAL_TYPES := [
    OpInit(1, '1', [Mark(KEYWORD), Lit(":")] + LAYOUT + SCALING + RANGE + [Mark(DOUBLE), Lit(","), Mark(KEYWORD), Lit(";")], "initSignalType",
           [TakeIdentifier] + (INFO_FIELDS[1..] + [TakeDouble, TakeIdentifier]), START),
    OpInit(0, '1', [Mark(UINTEGER), Mark(KEYWORD), Lit(": "), Mark(KEYWORD), Lit(";")], "initSignalTypeRef", TYPE_REF_FIELDS, START)
  ]

  const SIGNAL_TYPE_REFS := [
    OpInit(0, '1', [Mark(UINTEGER), Mark(KEYWORD), Lit(":"), Mark(KEYWORD), Lit(";")], "initSignalTypeRef", TYPE_REF_FIELDS, START)
  ]

  function CommentEnd(name: string, fields: seq<Field>, slots: seq<Slot>): seq<Row> {
    [Op(0, '?', [Lit(";")], Exact(slots, [])), OpInit(0, '*', [Mark(CMIGNORE)], name, fields, Exact(slots, []))]
  }

  const COMMENTS :=
    [Op(5, '1', [Lit("BU_")], START), Op(23, '1', [Mark(KEYWORD)], START), Op(22, '1', [Mark(STRING)], Exact([AnIdentifier], []))]
    + CommentEnd("initNetNodeComment", [TakeIdentifier, TakeCStr, Clear], [AnIdentifier, AText])
    + [Op(5, '1', [Lit("BO_")], START), Op(18, '1', [Mark(UINTEGER)], START), Op(17, '1', [Mark(STRING)], Exact([AUint], []))]
    + CommentEnd("initMessageComment", [TakeUint, TakeCStr], [AUint, AText])
    + [Op(6, '1', [Lit("SG_")], START), Op(13, '1', [Mark(UINTEGER)], START), Op(12, '1', [Mark(KEYWORD)], Exact([AUint], [])),
       Op(11, '1', [Mark(STRING)], Exact([AUint, AnIdentifier], []))]
    + CommentEnd("initSignalComment", [TakeUint, TakeIdentifier, TakeCStr, Clear], [AUint, AnIdentifier, AText])
    + [Op(5, '1', [Lit("EV_")], START), Op(7, '1', [Mark(KEYWORD)], START), Op(6, '1', [Mark(STRING)], Exact([AnIdentifier], []))]
    + CommentEnd("initEnvVarComment", [TakeIdentifier, TakeCStr, Clear], [AnIdentifier, AText])
    + [Op(3, '1', [Mark(STRING)], START)]
    + CommentEnd("initNullComment", [TakeCStr, Clear], [AText])
    + [Row(Opcode(0, '*', [Mark(CMIGNORE)], Some(Init.Init("initIgnoreComment", [Clear], false, true))), Anything)]

  const NAMED := Exact([AText], [])
  const ENUM := Exact([AText, AText], [AText])

  /** Eight rows for the attributes of one kind of object: `head` leads in, and STRING reads `default`. */
  function DefinitionRows(next: nat, head: seq<Item>, name: string, string_: seq<Item>, stringFields: seq<Field>): seq<Row> {
    [Op(next, '1', head, START),
     OpInit(1, '1', [Lit("INT"), Mark(SINTEGER), Mark(SINTEGER), Lit(";")], name + "Int", [TakeCStr, TakeInt, TakeInt], NAMED),
     OpInit(1, '1', [Lit("HEX"), Mark(SINTEGER), Mark(SINTEGER), Lit(";")], name + "Hex", [TakeCStr, TakeInt, TakeInt], NAMED),
     OpInit(1, '1', [Lit("FLOAT"), Mark(DOUBLE), Mark(DOUBLE), Lit(";")], name + "Float", [TakeCStr, TakeDouble, TakeDouble], NAMED),
     OpInit(1, '1', string_, name + "String", stringFields, NAMED),
     Op(0, '1', [Lit("ENUM"), Mark(STRING)], NAMED),
     Op(0, '*', [Lit(","), Mark(STRING)], ENUM),
     OpInit(0, '1', [Lit(";")], name + "Enum", [TakeCStr, TakeTexts], ENUM)]
  }

  function Definition(next: nat, head: seq<Item>, name: string): seq<Row> {
    DefinitionRows(next, head, name, [Lit("STRING;")], [TakeCStr])
  }

  function RelDefinition(next: nat, head: seq<Item>, name: string): seq<Row> {
    DefinitionRows(next, head, name, [Lit("STRING"), Mark(STRING), Lit(";")], [TakeCStr, TakeCStr])
  }

  const ATTRIBUTE_DEFINITIONS :=
    Definition(8, [Lit("BU_"), Mark(ATTR)], "initAttrDefineNode")
    + Definition(8, [Lit("BO_"), Mark(ATTR)], "initAttrDefineMessage")
    + Definition(8, [Lit("SG_"), Mark(ATTR)], "initAttrDefineSignal")
    + Definition(8, [Lit("EV_"), Mark(ATTR)], "initAttrDefineEnvVar")
    + Definition(0, [Mark(ATTR)], "initAttrDefineNull")

  const RELATION_DEFINITIONS :=
    RelDefinition(8, [Lit("BU_BO_REL_"), Mark(ATTR)], "initAttrRelDefineMessage")
    + RelDefinition(8, [Lit("BU_SG_REL_"), Mark(ATTR)], "initAttrRelDefineSignal")
    + RelDefinition(0, [Lit("BU_EV_REL_"), Mark(ATTR)], "initAttrRelDefineEnvVar")

  function DefaultRows(name: string): seq<Row> {
    [OpInit(0, '1', [Mark(ATTR), Mark(VALUE), Lit(";")], name, [TakeCStr, TakeVariant], START)]
  }

  const ATTRIBUTE_DEFAULTS := DefaultRows("initAttrDefault")
  const RELATION_DEFAULTS := DefaultRows("initAttrRelDefault")

  const ATTRIBUTE_VALUES := [
    Op(0, '1', [Mark(ATTR)], START),
    OpInit(1, '1', [Lit("BU_"), Mark(KEYWORD), Mark(VALUE), Lit(";")], "initAttrNode", [TakeCStr, TakeIdentifier, TakeVariant], NAMED),
    OpInit(1, '1', [Lit("BO_"), Mark(UINTEGER), Mark(VALUE), Lit(";")], "initAttrMessage", [TakeCStr, TakeUint, TakeVariant], NAMED),
    OpInit(1, '1', [Lit("SG_"), Mark(UINTEGER), Mark(KEYWORD), Mark(VALUE), Lit(";")], "initAttrSignal",
           [TakeCStr, TakeUint, TakeIdentifier, TakeVariant], NAMED),
    OpInit(1, '1', [Lit("EV_"), Mark(KEYWORD), Mark(VALUE), Lit(";")], "initAttrEnvVar", [TakeCStr, TakeIdentifier, TakeVariant], NAMED),
    OpInit(0, '1', [Mark(VALUE), Lit(";")], "initAttrNull", [TakeCStr, TakeVariant], NAMED)
  ]

  const RELATION_VALUES := [
    Op(0, '1', [Mark(ATTR)], START),
    OpInit(1, '1', [Lit("BU_BO_REL_"), Mark(KEYWORD), Mark(UINTEGER), Mark(VALUE), Lit(";")], "initAttrRelMessage",
           [TakeCStr, TakeIdentifier, TakeUint, TakeVariant], NAMED),
    OpInit(1, '1', [Lit("BU_SG_REL_"), Mark(KEYWORD), Lit("SG_"), Mark(UINTEGER), Mark(KEYWORD), Mark(VALUE), Lit(";")], "initAttrRelSignal",
           [TakeCStr, TakeIdentifier, TakeUint, TakeIdentifier, TakeVariant], NAMED),
    OpInit(0, '1', [Lit("BU_EV_REL_"), Mark(KEYWORD), Mark(KEYWORD), Mark(VALUE), Lit(";")], "initAttrRelEnvVar",
           [TakeCStr, TakeIdentifier, TakeIdentifier, TakeVariant], NAMED)
  ]

  const VALUE_DESCRIPTIONS := [
    Op(3, '1', [Mark(UINTEGER), Mark(KEYWORD), Mark(UINTCAST), Mark(STRING)], START),
    Op(0, '*', [Mark(UINTCAST), Mark(STRING)], Exact([AUint, AnIdentifier, AUint, AText], [AUint, AText])),
    OpInit(0, '?', [Lit(";")], "initSignalValue", [TakeUint, TakeIdentifier, TakeDescriptions],
           Exact([AUint, AnIdentifier, AUint, AText], [AUint, AText])),
    Op(0, '1', [Mark(KEYWORD), Mark(UINTCAST), Mark(STRING)], START),
    Op(0, '*', [Mark(UINTCAST), Mark(STRING)], Exact([AnIdentifier, AUint, AText], [AUint, AText])),
    OpInit(0, '?', [Lit(";")], "initValueEnvVar", [TakeIdentifier, TakeDescriptions], Exact([AnIdentifier, AUint, AText], [AUint, AText]))
  ]

  const SIGNAL_GROUPS := [
    Op(0, '1', [Mark(UINTEGER), Mark(KEYWORD), Mark(UINTEGER), Lit(":")], START),
    Op(0, '*', [Mark(KEYWORD)], Exact([AUint, AnIdentifier, AUint], [AnIdentifier])),
    OpInit(0, '1', [Lit(";")], "initSignalGroup", [TakeUint, TakeIdentifier, TakeUint, TakeTexts],
           Exact([AUint, AnIdentifier, AUint], [AnIdentifier]))
  ]

  const SIGNAL_VALUE_TYPES := [
    OpInit(0, '1', [Mark(UINTEGER), Mark(KEYWORD), Mark(EXTYPE), Lit(";")], "initSignalValueType", [TakeUint, TakeIdentifier, TakeUint], START)
  ]

  const MULTIPLEXING := [
    Op(0, '1', [Mark(UINTEGER), Mark(KEYWORD), Mark(KEYWORD), Mark(UINTEGER), Lit("-"), Mark(UINTEGER)], START),
    Op(0, '*', [Lit(","), Mark(UINTEGER), Lit("-"), Mark(UINTEGER)], Exact([AUint, AnIdentifier, AnIdentifier, AUint, AUint], [AUint, AUint])),
    OpInit(0, '1', [Lit(";")], "initExMultiplex", [TakeUint, TakeIdentifier, TakeIdentifier, TakeRanges],
           Exact([AUint, AnIdentifier, AnIdentifier, AUint, AUint], [AUint, AUint]))
  ]
}
