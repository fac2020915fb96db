/** Every opcode table passes the type discipline. */
module DBCTableChecks {
  import opened Words
  import opened DBCLexer
  import opened DBCMachine
  import opened DBCTyping
  import opened DBCTables

  lemma Version()
    ensures RowsOk(VERSION)
  {
  }

  lemma NewSymbolsLeads()
    ensures Good(NEW_SYMBOLS, 0)
  {
  }

  lemma NewSymbolsInit()
    ensures Good(NEW_SYMBOLS, 1)
  {
  }

  lemma NewSymbols()
    ensures RowsOk(NEW_SYMBOLS)
  {
    hide Good;
    NewSymbolsLeads();
    NewSymbolsInit();
    assert |NEW_SYMBOLS| == 2;
  }

  lemma BitTimingLeads()
    ensures Good(BIT_TIMING, 0)
  {
  }

  lemma BitTimingPushes()
    ensures Slots([Mark(UINTEGER), Lit(":"), Mark(UINTEGER), Lit(","), Mark(UINTEGER)]) == [AUint, AUint, AUint]
    ensures Extend(START, [AUint, AUint, AUint]) == Exact([AUint, AUint, AUint], [])
  {
  }

  lemma BitTimingTakes()
    ensures FieldsOk([TakeUint, TakeUint, TakeUint], [AUint, AUint, AUint], [])
  {
  }

  lemma BitTimingInit()
    ensures Good(BIT_TIMING, 1)
  {
    hide Slots, FieldsOk, Good, Extend;
    BitTimingPushes();
    BitTimingTakes();
    LastRow(BIT_TIMING, 1, Exact([AUint, AUint, AUint], []));
  }

  lemma BitTiming()
    ensures RowsOk(BIT_TIMING)
  {
    hide Good;
    BitTimingLeads();
    BitTimingInit();
    assert |BIT_TIMING| == 2;
  }

  lemma Nodes()
    ensures RowsOk(NODES)
  {
  }

  lemma ValueTablesLeads()
    ensures Good(VALUE_TABLES, 0) && Good(VALUE_TABLES, 1)
  {
  }

  lemma ValueTablesInit()
    ensures Good(VALUE_TABLES, 2)
  {
  }

  lemma ValueTables()
    ensures RowsOk(VALUE_TABLES)
  {
    hide Good;
    ValueTablesLeads();
    ValueTablesInit();
    assert |VALUE_TABLES| == 3;
  }

  lemma MessagesInit()
    ensures Good(MESSAGES, 0)
  {
    hide Slots, FieldsOk, Good;
    Pushes([Mark(UINTEGER), Mark(KEYWORD), Lit(":"), Mark(UINTEGER), Mark(KEYWORD)], [AUint, AnIdentifier, AUint, AnIdentifier]);
    TakesAll([TakeUint, TakeIdentifier, TakeUint, TakeIdentifier], [AUint, AnIdentifier, AUint, AnIdentifier]);
    ExtendsTo(START, [Mark(UINTEGER), Mark(KEYWORD), Lit(":"), Mark(UINTEGER), Mark(KEYWORD)], [AUint, AnIdentifier, AUint, AnIdentifier]);
    LastRow(MESSAGES, 0, Exact([AUint, AnIdentifier, AUint, AnIdentifier], []));
  }

  lemma Messages()
    ensures RowsOk(MESSAGES)
  {
    hide Good;
    MessagesInit();
    assert |MESSAGES| == 1;
  }

  lemma TransmittersLeads()
    ensures Good(TRANSMITTERS, 0) && Good(TRANSMITTERS, 1)
  {
  }

  lemma TransmittersInit()
    ensures Good(TRANSMITTERS, 2)
  {
  }

  lemma Transmitters()
    ensures RowsOk(TRANSMITTERS)
  {
    hide Good;
    TransmittersLeads();
    TransmittersInit();
    assert |TRANSMITTERS| == 3;
  }

  lemma EnvironmentDataInit()
    ensures Good(ENVIRONMENT_DATA, 0)
  {
  }

  lemma EnvironmentData()
    ensures RowsOk(ENVIRONMENT_DATA)
  {
    hide Good;
    EnvironmentDataInit();
    assert |ENVIRONMENT_DATA| == 1;
  }

  lemma SignalTypeRefsInit()
    ensures Good(SIGNAL_TYPE_REFS, 0)
  {
    hide Slots, FieldsOk, Good;
    Pushes([Mark(UINTEGER), Mark(KEYWORD), Lit(":"), Mark(KEYWORD), Lit(";")], [AUint, AnIdentifier, AnIdentifier]);
    TakesAll([TakeUint, TakeIdentifier, TakeIdentifier], [AUint, AnIdentifier, AnIdentifier]);
    ExtendsTo(START, [Mark(UINTEGER), Mark(KEYWORD), Lit(":"), Mark(KEYWORD), Lit(";")], [AUint, AnIdentifier, AnIdentifier]);
    LastRow(SIGNAL_TYPE_REFS, 0, Exact([AUint, AnIdentifier, AnIdentifier], []));
  }

  lemma SignalTypeRefs()
    ensures RowsOk(SIGNAL_TYPE_REFS)
  {
    hide Good;
    SignalTypeRefsInit();
    assert |SIGNAL_TYPE_REFS| == 1;
  }

  /** A row of COMMENTS that reads one item and leaves values of `after`. */
  lemma CommentLead(k: nat, next: nat, item: Item, before: seq<Slot>, after: seq<Slot>)
    requires k + 1 < |COMMENTS| && item != Lit("") && item !in {Mark(ENDIAN), Mark(ACCESS), Mark(MPLEX)}
    requires COMMENTS[k] == Op(next, if next == 0 then '?' else '1', [item], Exact(before, []))
    requires before + SlotsAt([item], 0) == after && (next == 0 ==> before == after)
    requires At(COMMENTS, k + 1) == Some(Exact(after, []))
    requires next != 0 ==> GoesTo(At(COMMENTS, k + next), Exact(before, []))
    ensures Good(COMMENTS, k)
  {
    hide Good;
    Pushes([item], SlotsAt([item], 0));
    LeadRow(COMMENTS, k, Exact(after, []));
  }

  lemma NodeCommentLeads()
    ensures Good(COMMENTS, 0) && Good(COMMENTS, 1) && Good(COMMENTS, 2) && Good(COMMENTS, 3)
  {
    hide Good;
    CommentLead(0, 5, Lit("BU_"), [], []);
    CommentLead(1, 23, Mark(KEYWORD), [], [AnIdentifier]);
    CommentLead(2, 22, Mark(STRING), [AnIdentifier], [AnIdentifier, AText]);
    CommentLead(3, 0, Lit(";"), [AnIdentifier, AText], [AnIdentifier, AText]);
  }

  lemma MessageCommentLeads()
    ensures Good(COMMENTS, 5) && Good(COMMENTS, 6) && Good(COMMENTS, 7) && Good(COMMENTS, 8)
  {
    hide Good;
    CommentLead(5, 5, Lit("BO_"), [], []);
    CommentLead(6, 18, Mark(UINTEGER), [], [AUint]);
    CommentLead(7, 17, Mark(STRING), [AUint], [AUint, AText]);
    CommentLead(8, 0, Lit(";"), [AUint, AText], [AUint, AText]);
  }

  lemma SignalCommentLeads()
    ensures Good(COMMENTS, 10) && Good(COMMENTS, 11) && Good(COMMENTS, 12) && Good(COMMENTS, 13) && Good(COMMENTS, 14)
  {
    hide Good;
    CommentLead(10, 6, Lit("SG_"), [], []);
    CommentLead(11, 13, Mark(UINTEGER), [], [AUint]);
    CommentLead(12, 12, Mark(KEYWORD), [AUint], [AUint, AnIdentifier]);
    CommentLead(13, 11, Mark(STRING), [AUint, AnIdentifier], [AUint, AnIdentifier, AText]);
    CommentLead(14, 0, Lit(";"), [AUint, AnIdentifier, AText], [AUint, AnIdentifier, AText]);
  }

  lemma EnvVarCommentLeads()
    ensures Good(COMMENTS, 16) && Good(COMMENTS, 17) && Good(COMMENTS, 18) && Good(COMMENTS, 19)
  {
    hide Good;
    CommentLead(16, 5, Lit("EV_"), [], []);
    CommentLead(17, 7, Mark(KEYWORD), [], [AnIdentifier]);
    CommentLead(18, 6, Mark(STRING), [AnIdentifier], [AnIdentifier, AText]);
    CommentLead(19, 0, Lit(";"), [AnIdentifier, AText], [AnIdentifier, AText]);
  }

  lemma OtherCommentLeads()
    ensures Good(COMMENTS, 21) && Good(COMMENTS, 22)
  {
    hide Good;
    CommentLead(21, 3, Mark(STRING), [], [AText]);
    CommentLead(22, 0, Lit(";"), [AText], [AText]);
  }

  lemma CommentInit4()
    ensures Good(COMMENTS, 4)
  {
  }

  lemma CommentInit9()
    ensures Good(COMMENTS, 9)
  {
  }

  lemma CommentInit15()
    ensures Good(COMMENTS, 15)
  {
  }

  lemma CommentInit20()
    ensures Good(COMMENTS, 20)
  {
  }

  lemma CommentInit23()
    ensures Good(COMMENTS, 23)
  {
  }

  lemma CommentInit24()
    ensures Good(COMMENTS, 24)
  {
  }

  lemma Comments()
    ensures RowsOk(COMMENTS)
  {
    hide Good;
    NodeCommentLeads();
    MessageCommentLeads();
    SignalCommentLeads();
    EnvVarCommentLeads();
    OtherCommentLeads();
    CommentInit4();
    CommentInit9();
    CommentInit15();
    CommentInit20();
    CommentInit23();
    CommentInit24();
    assert |COMMENTS| == 25;
  }

  lemma AttributeDefaults()
    ensures RowsOk(ATTRIBUTE_DEFAULTS)
  {
  }

  lemma RelationDefaults()
    ensures RowsOk(RELATION_DEFAULTS)
  {
  }

  lemma AttributeValuesLeads()
    ensures Good(ATTRIBUTE_VALUES, 0)
  {
  }

  lemma AttributeValuesInit1()
    ensures Good(ATTRIBUTE_VALUES, 1)
  {
    hide Slots, FieldsOk, Good;
    Pushes([Lit("BU_"), Mark(KEYWORD), Mark(VALUE), Lit(";")], [AnIdentifier, AVariant]);
    TakesAll([TakeCStr, TakeIdentifier, TakeVariant], [AText, AnIdentifier, AVariant]);
    ExtendsTo(NAMED, [Lit("BU_"), Mark(KEYWORD), Mark(VALUE), Lit(";")], [AText, AnIdentifier, AVariant]);
    LastRow(ATTRIBUTE_VALUES, 1, Exact([AText, AnIdentifier, AVariant], []));
  }

  lemma AttributeValuesInit2()
    ensures Good(ATTRIBUTE_VALUES, 2)
  {
    hide Slots, FieldsOk, Good;
    Pushes([Lit("BO_"), Mark(UINTEGER), Mark(VALUE), Lit(";")], [AUint, AVariant]);
    TakesAll([TakeCStr, TakeUint, TakeVariant], [AText, AUint, AVariant]);
    ExtendsTo(NAMED, [Lit("BO_"), Mark(UINTEGER), Mark(VALUE), Lit(";")], [AText, AUint, AVariant]);
    LastRow(ATTRIBUTE_VALUES, 2, Exact([AText, AUint, AVariant], []));
  }

  lemma AttributeValuesInit3()
    ensures Good(ATTRIBUTE_VALUES, 3)
  {
    hide Slots, FieldsOk, Good;
    Pushes([Lit("SG_"), Mark(UINTEGER), Mark(KEYWORD), Mark(VALUE), Lit(";")], [AUint, AnIdentifier, AVariant]);
    TakesAll([TakeCStr, TakeUint, TakeIdentifier, TakeVariant], [AText, AUint, AnIdentifier, AVariant]);
    ExtendsTo(NAMED, [Lit("SG_"), Mark(UINTEGER), Mark(KEYWORD), Mark(VALUE), Lit(";")], [AText, AUint, AnIdentifier, AVariant]);
    LastRow(ATTRIBUTE_VALUES, 3, Exact([AText, AUint, AnIdentifier, AVariant], []));
  }

  lemma AttributeValuesInit4()
    ensures Good(ATTRIBUTE_VALUES, 4)
  {
    hide Slots, FieldsOk, Good;
    Pushes([Lit("EV_"), Mark(KEYWORD), Mark(VALUE), Lit(";")], [AnIdentifier, AVariant]);
    TakesAll([TakeCStr, TakeIdentifier, TakeVariant], [AText, AnIdentifier, AVariant]);
    ExtendsTo(NAMED, [Lit("EV_"), Mark(KEYWORD), Mark(VALUE), Lit(";")], [AText, AnIdentifier, AVariant]);
    LastRow(ATTRIBUTE_VALUES, 4, Exact([AText, AnIdentifier, AVariant], []));
  }

  lemma AttributeValuesInit5()
    ensures Good(ATTRIBUTE_VALUES, 5)
  {
  }

  lemma AttributeValues()
    ensures RowsOk(ATTRIBUTE_VALUES)
  {
    hide Good;
    AttributeValuesLeads();
    AttributeValuesInit1();
    AttributeValuesInit2();
    AttributeValuesInit3();
    AttributeValuesInit4();
    AttributeValuesInit5();
    assert |ATTRIBUTE_VALUES| == 6;
  }

  lemma RelationValuesLeads()
    ensures Good(RELATION_VALUES, 0)
  {
  }

  lemma RelationValuesInit1()
    ensures Good(RELATION_VALUES, 1)
  {
    hide Slots, FieldsOk, Good;
    Pushes([Lit("BU_BO_REL_"), Mark(KEYWORD), Mark(UINTEGER), Mark(VALUE), Lit(";")], [AnIdentifier, AUint, AVariant]);
    TakesAll([TakeCStr, TakeIdentifier, TakeUint, TakeVariant], [AText, AnIdentifier, AUint, AVariant]);
    ExtendsTo(NAMED, [Lit("BU_BO_REL_"), Mark(KEYWORD), Mark(UINTEGER), Mark(VALUE), Lit(";")], [AText, AnIdentifier, AUint, AVariant]);
    LastRow(RELATION_VALUES, 1, Exact([AText, AnIdentifier, AUint, AVariant], []));
  }

  lemma RelationValuesInit2()
    ensures Good(RELATION_VALUES, 2)
  {
    hide Slots, FieldsOk, Good;
    Pushes([Lit("BU_SG_REL_"), Mark(KEYWORD), Lit("SG_"), Mark(UINTEGER), Mark(KEYWORD), Mark(VALUE), Lit(";")], [AnIdentifier, AUint, AnIdentifier, AVariant]);
    TakesAll([TakeCStr, TakeIdentifier, TakeUint, TakeIdentifier, TakeVariant], [AText, AnIdentifier, AUint, AnIdentifier, AVariant]);
    ExtendsTo(NAMED, [Lit("BU_SG_REL_"), Mark(KEYWORD), Lit("SG_"), Mark(UINTEGER), Mark(KEYWORD), Mark(VALUE), Lit(";")], [AText, AnIdentifier, AUint, AnIdentifier, AVariant]);
    LastRow(RELATION_VALUES, 2, Exact([AText, AnIdentifier, AUint, AnIdentifier, AVariant], []));
  }

  lemma RelationValuesInit3()
    ensures Good(RELATION_VALUES, 3)
  {
    hide Slots, FieldsOk, Good;
    Pushes([Lit("BU_EV_REL_"), Mark(KEYWORD), Mark(KEYWORD), Mark(VALUE), Lit(";")], [AnIdentifier, AnIdentifier, AVariant]);
    TakesAll([TakeCStr, TakeIdentifier, TakeIdentifier, TakeVariant], [AText, AnIdentifier, AnIdentifier, AVariant]);
    ExtendsTo(NAMED, [Lit("BU_EV_REL_"), Mark(KEYWORD), Mark(KEYWORD), Mark(VALUE), Lit(";")], [AText, AnIdentifier, AnIdentifier, AVariant]);
    LastRow(RELATION_VALUES, 3, Exact([AText, AnIdentifier, AnIdentifier, AVariant], []));
  }

  lemma RelationValues()
    ensures RowsOk(RELATION_VALUES)
  {
    hide Good;
    RelationValuesLeads();
    RelationValuesInit1();
    RelationValuesInit2();
    RelationValuesInit3();
    assert |RELATION_VALUES| == 4;
  }

  lemma ValueDescriptionsLeads1()
    ensures Good(VALUE_DESCRIPTIONS, 0) && Good(VALUE_DESCRIPTIONS, 1)
  {
    hide Slots, FieldsOk, Good;
    Pushes([Mark(UINTEGER), Mark(KEYWORD), Mark(UINTCAST), Mark(STRING)], [AUint, AnIdentifier, AUint, AText]);
    Pushes([Mark(UINTCAST), Mark(STRING)], [AUint, AText]);
    ExtendsTo(START, [Mark(UINTEGER), Mark(KEYWORD), Mark(UINTCAST), Mark(STRING)], [AUint, AnIdentifier, AUint, AText]);
    LeadRow(VALUE_DESCRIPTIONS, 0, Exact([AUint, AnIdentifier, AUint, AText], []));
    StarRow(VALUE_DESCRIPTIONS, 1);
  }

  lemma ValueDescriptionsLeads2()
    ensures Good(VALUE_DESCRIPTIONS, 3) && Good(VALUE_DESCRIPTIONS, 4)
  {
    hide Slots, FieldsOk, Good;
    Pushes([Mark(KEYWORD), Mark(UINTCAST), Mark(STRING)], [AnIdentifier, AUint, AText]);
    Pushes([Mark(UINTCAST), Mark(STRING)], [AUint, AText]);
    ExtendsTo(START, [Mark(KEYWORD), Mark(UINTCAST), Mark(STRING)], [AnIdentifier, AUint, AText]);
    LeadRow(VALUE_DESCRIPTIONS, 3, Exact([AnIdentifier, AUint, AText], []));
    StarRow(VALUE_DESCRIPTIONS, 4);
  }

  lemma ValueDescriptionsInit2()
    ensures Good(VALUE_DESCRIPTIONS, 2)
  {
  }

  lemma ValueDescriptionsInit5()
    ensures Good(VALUE_DESCRIPTIONS, 5)
  {
  }

  lemma ValueDescriptions()
    ensures RowsOk(VALUE_DESCRIPTIONS)
  {
    hide Good;
    ValueDescriptionsLeads1();
    ValueDescriptionsLeads2();
    ValueDescriptionsInit2();
    ValueDescriptionsInit5();
    assert |VALUE_DESCRIPTIONS| == 6;
  }

  lemma SignalGroupsLeads()
    ensures Good(SIGNAL_GROUPS, 0) && Good(SIGNAL_GROUPS, 1)
  {
  }

  lemma SignalGroupsInit()
    ensures Good(SIGNAL_GROUPS, 2)
  {
    hide Slots, Good;
    Pushes([Lit(";")], []);
    Takes([TakeUint, TakeIdentifier, TakeUint, TakeTexts], [AUint, AnIdentifier, AUint], [AnIdentifier], 3);
    LastRow(SIGNAL_GROUPS, 2, SIGNAL_GROUPS[2].shape);
  }

  lemma SignalGroups()
    ensures RowsOk(SIGNAL_GROUPS)
  {
    hide Good;
    SignalGroupsLeads();
    SignalGroupsInit();
    assert |SIGNAL_GROUPS| == 3;
  }

  lemma MultiplexingLeads()
    ensures Good(MULTIPLEXING, 0) && Good(MULTIPLEXING, 1)
  {
    hide Slots, FieldsOk, Good;
    Pushes([Mark(UINTEGER), Mark(KEYWORD), Mark(KEYWORD), Mark(UINTEGER), Lit("-"), Mark(UINTEGER)], [AUint, AnIdentifier, AnIdentifier, AUint, AUint]);
    Pushes([Lit(","), Mark(UINTEGER), Lit("-"), Mark(UINTEGER)], [AUint, AUint]);
    ExtendsTo(START, [Mark(UINTEGER), Mark(KEYWORD), Mark(KEYWORD), Mark(UINTEGER), Lit("-"), Mark(UINTEGER)], [AUint, AnIdentifier, AnIdentifier, AUint, AUint]);
    LeadRow(MULTIPLEXING, 0, Exact([AUint, AnIdentifier, AnIdentifier, AUint, AUint], []));
    StarRow(MULTIPLEXING, 1);
  }

  lemma MultiplexingInit()
    ensures Good(MULTIPLEXING, 2)
  {
    hide Slots, Good;
    Pushes([Lit(";")], []);
    Takes([TakeUint, TakeIdentifier, TakeIdentifier, TakeRanges], [AUint, AnIdentifier, AnIdentifier, AUint, AUint], [AUint, AUint], 3);
    LastRow(MULTIPLEXING, 2, MULTIPLEXING[2].shape);
  }

  lemma Multiplexing()
    ensures RowsOk(MULTIPLEXING)
  {
    hide Good;
    MultiplexingLeads();
    MultiplexingInit();
    assert |MULTIPLEXING| == 3;
  }

  // ---------- signals

  lemma LayoutPushes()
    ensures Slots(LAYOUT) == [AUint, AUint, AUint]
    ensures Slots(SCALING) == [ADouble, ADouble]
    ensures Slots(RANGE) == [ADouble, ADouble, AText]
  {
  }

  lemma ThreePush(a: seq<Item>, b: seq<Item>, c: seq<Item>)
    ensures Slots(a + b + c) == Slots(a) + Slots(b) + Slots(c)
  {
    SlotsAppend(a + b, c);
    SlotsAppend(a, b);
  }

  lemma SignalInfoPushes()
    ensures Slots(SIGNAL_INFO) == INFO_SLOTS
  {
    hide Slots;
    LayoutPushes();
    var colon := [Lit(":"), Mark(UINTEGER), Lit("|")];
    Pushes(colon, [AUint]);
    SlotsAppend(colon, LAYOUT);
    ThreePush(SIGNAL_LAYOUT, SCALING, RANGE);
  }

  lemma SignalPushes()
    ensures Slots(SIGNAL_INFO + [Mark(KEYWORD)]) == INFO_SLOTS + [AnIdentifier]
    ensures Slots([Mark(MPLEX)] + (SIGNAL_INFO + [Mark(KEYWORD)])) == [AMultiplexer] + (INFO_SLOTS + [AnIdentifier])
  {
    hide Slots;
    SignalInfoPushes();
    Pushes([Mark(KEYWORD)], [AnIdentifier]);
    Pushes([Mark(MPLEX)], [AMultiplexer]);
    SlotsAppend(SIGNAL_INFO, [Mark(KEYWORD)]);
    SlotsAppend([Mark(MPLEX)], SIGNAL_INFO + [Mark(KEYWORD)]);
  }

  lemma Prepend(f: Field, s: Slot, fields: seq<Field>, ss: seq<Slot>, group: seq<Slot>)
    requires FieldsOk(fields, ss, group) && (FieldFits(f, [s]) || (f == TakeMultiplexer && s == AMultiplexer && ss != [] && ss[0] == AUint))
    ensures FieldsOk([f] + fields, [s] + ss, group)
  {
  }

  lemma SignalTakes()
    ensures FieldsOk([TakeIdentifier] + (INFO_FIELDS + [TakeTexts]), NORMAL, [AnIdentifier])
    ensures FieldsOk([TakeIdentifier] + ([TakeMultiplexer] + (INFO_FIELDS + [TakeTexts])), MULTIPLEXED, [AnIdentifier])
  {
    var fields, ss := INFO_FIELDS + [TakeTexts], INFO_SLOTS + [AnIdentifier];
    assert FieldsOk(fields, ss, [AnIdentifier]) by {
      assert fields[9..] == [TakeTexts] && ss[9..] == [AnIdentifier];
      Takes(fields, ss, [AnIdentifier], 9);
    }
    hide FieldsOk;
    Prepend(TakeIdentifier, AnIdentifier, fields, ss, [AnIdentifier]);
    Prepend(TakeMultiplexer, AMultiplexer, fields, ss, [AnIdentifier]);
    Prepend(TakeIdentifier, AnIdentifier, [TakeMultiplexer] + fields, [AMultiplexer] + ss, [AnIdentifier]);
  }

  lemma SignalLeads()
    ensures Good(SIGNAL, 0) && Good(SIGNAL, 1) && Good(SIGNAL, 3)
  {
    hide Slots, FieldsOk;
    Pushes([Mark(KEYWORD)], [AnIdentifier]);
    SignalPushes();
    ExtendsTo(START, [Mark(KEYWORD)], [AnIdentifier]);
    ExtendsTo(Exact([AnIdentifier], []), SIGNAL_INFO + [Mark(KEYWORD)], NORMAL);
    ExtendsTo(Exact([AnIdentifier], []), [Mark(MPLEX)] + (SIGNAL_INFO + [Mark(KEYWORD)]), MULTIPLEXED);
    assert |SIGNAL_INFO| == 17;
  }

  lemma SignalInits()
    ensures Good(SIGNAL, 2) && Good(SIGNAL, 4)
  {
    hide Slots, FieldsOk;
    Pushes([Lit(","), Mark(KEYWORD)], [AnIdentifier]);
    SignalTakes();
  }

  lemma Signal()
    ensures RowsOk(SIGNAL)
  {
    hide Good;
    SignalLeads();
    SignalInits();
    assert |SIGNAL| == 5;
  }

  const TYPE_TAIL := [Mark(DOUBLE), Lit(","), Mark(KEYWORD), Lit(";")]

  lemma SignalTypePushes()
    ensures Slots(SIGNAL_TYPES[0].op.pattern) == [AnIdentifier] + (INFO_SLOTS[1..] + [ADouble, AnIdentifier])
  {
    hide Slots;
    LayoutPushes();
    var name := [Mark(KEYWORD), Lit(":")];
    Pushes(name, [AnIdentifier]);
    Pushes(TYPE_TAIL, [ADouble, AnIdentifier]);
    ThreePush(name, LAYOUT, SCALING);
    ThreePush(name + LAYOUT + SCALING, RANGE, TYPE_TAIL);
  }

  lemma SignalTypeTakes()
    ensures FieldsOk([TakeIdentifier] + (INFO_FIELDS[1..] + [TakeDouble, TakeIdentifier]), [AnIdentifier] + (INFO_SLOTS[1..] + [ADouble, AnIdentifier]), [])
  {
    TakesAll([TakeIdentifier] + (INFO_FIELDS[1..] + [TakeDouble, TakeIdentifier]), [AnIdentifier] + (INFO_SLOTS[1..] + [ADouble, AnIdentifier]));
  }

  lemma SignalTypesFirst()
    ensures Good(SIGNAL_TYPES, 0)
  {
    hide Slots, FieldsOk, Good;
    var ss := [AnIdentifier] + (INFO_SLOTS[1..] + [ADouble, AnIdentifier]);
    SignalTypePushes();
    SignalTypeTakes();
    ExtendsTo(START, SIGNAL_TYPES[0].op.pattern, ss);
    LastRow(SIGNAL_TYPES, 0, Exact(ss, []));
  }

  lemma SignalTypesSecond()
    ensures Good(SIGNAL_TYPES, 1)
  {
  }

  lemma SignalTypes()
    ensures RowsOk(SIGNAL_TYPES)
  {
    hide Good;
    SignalTypesFirst();
    SignalTypesSecond();
    assert |SIGNAL_TYPES| == 2;
  }

  // ---------- tables whose first row is never completed

  lemma SignalValueTypes()
    ensures RowsOk(SIGNAL_VALUE_TYPES)
  {
    assert Blocked(SIGNAL_VALUE_TYPES[0].op.pattern[2]);
    assert Good(SIGNAL_VALUE_TYPES, 0);
  }

  lemma EnvironmentRows()
    ensures Good(ENVIRONMENT, 0) && Good(ENVIRONMENT, 1) && Good(ENVIRONMENT, 2)
  {
    hide Slots, FieldsOk;
    assert Blocked(ENVIRONMENT[0].op.pattern[2]);
  }

  lemma Environment()
    ensures RowsOk(ENVIRONMENT)
  {
    hide Good;
    EnvironmentRows();
    assert |ENVIRONMENT| == 3;
  }

  /** What the first row of the environment table would leave in the queue. */
  const ENV_PUSHED := [AnIdentifier, AUint, ADouble, ADouble, AText, ADouble, AUint, AUint, AnIdentifier]

  lemma EnvironmentPushes()
    ensures Slots(ENVIRONMENT[0].op.pattern) == ENV_PUSHED
  {
    hide Slots;
    var a := [Mark(KEYWORD), Lit(":"), Mark(EVTYPE), Lit("["), Mark(DOUBLE), Lit("|"), Mark(DOUBLE)];
    var b := [Lit("]"), Mark(STRING), Mark(DOUBLE), Mark(UINTEGER), Mark(ACCESS), Mark(KEYWORD)];
    Pushes(a, [AnIdentifier, AUint, ADouble, ADouble]);
    Pushes(b, [AText, ADouble, AUint, AUint, AnIdentifier]);
    SlotsAppend(a, b);
    assert ENVIRONMENT[0].op.pattern == a + b;
  }

  /** Were the value type ever recognised, initEnvVar would run into a failed assertion: it does not take the
      unit that stands in front of the initial value. */
  lemma EnvironmentIsMistyped(queue: seq<Value>)
    requires Matches(queue, Slots(ENVIRONMENT[0].op.pattern))
    ensures RunInit(ENVIRONMENT[2].op.init.value, queue).0.None?
  {
    EnvironmentPushes();
    MistypedQueue(queue);
  }

  lemma MistypedQueue(queue: seq<Value>)
    requires Matches(queue, ENV_PUSHED)
    ensures ShiftFields(ENV_FIELDS, queue).Failed?
  {
    hide ShiftFields, Matches;
    UnitComesFifth(queue);
    FailsAt(ENV_FIELDS, queue, 4);
    FailsBefore(ENV_FIELDS, queue, 4, 0);
    assert ENV_FIELDS[0..] == ENV_FIELDS && queue[0..] == queue;
  }

  lemma UnitComesFifth(queue: seq<Value>)
    requires Matches(queue, ENV_PUSHED)
    ensures |queue| > 4 && queue[4].CStr?
  {
    hide Matches;
    assert queue[0..] == queue && ENV_PUSHED[0..] == ENV_PUSHED;
    Unroll(queue, ENV_PUSHED, 0);
    Unroll(queue, ENV_PUSHED, 1);
    Unroll(queue, ENV_PUSHED, 2);
    Unroll(queue, ENV_PUSHED, 3);
    Unroll(queue, ENV_PUSHED, 4);
  }

  /** The slots from `i` on match the values from `i` on, when the first ones are single values. */
  lemma Unroll(queue: seq<Value>, ss: seq<Slot>, i: nat)
    requires i < |ss| && ss[i] != AMultiplexer && i <= |queue| && Matches(queue[i..], ss[i..])
    ensures i < |queue| && Fits(queue[i], ss[i]) && Matches(queue[i + 1..], ss[i + 1..])
  {
  }

  lemma FailsAt(fields: seq<Field>, queue: seq<Value>, i: nat)
    requires i < |fields| && i < |queue| && fields[i] == TakeDouble && !queue[i].Double?
    ensures ShiftFields(fields[i..], queue[i..]).Failed?
  {
  }

  lemma {:induction false} FailsBefore(fields: seq<Field>, queue: seq<Value>, n: nat, i: nat)
    requires i <= n < |fields| && n < |queue| && ShiftFields(fields[n..], queue[n..]).Failed?
    requires forall j :: 0 <= j < n ==> fields[j] in {TakeIdentifier, TakeUint, TakeDouble}
    ensures ShiftFields(fields[i..], queue[i..]).Failed?
    decreases n - i
  {
    if i < n {
      FailsBefore(fields, queue, n, i + 1);
      assert fields[i..][1..] == fields[i + 1..] && queue[i..][1..] == queue[i + 1..];
    }
  }

  // ---------- attribute definitions

  lemma NumberRow(name: string, word: string, marker: Marker, field: Field, slot: Slot, next: Option<Shape>)
    requires word != "" && SlotsOfMarker(marker) == [slot] && FieldFits(field, [slot]) && marker !in {MPLEX, ACCESS}
    ensures RowOk(OpInit(1, '1', [Lit(word), Mark(marker), Mark(marker), Lit(";")], name, [TakeCStr, field, field], NAMED).op, NAMED, Some(NAMED), next)
  {
    hide Slots, FieldsOk;
    Pushes([Lit(word), Mark(marker), Mark(marker), Lit(";")], [slot, slot]);
    TakesAll([TakeCStr, field, field], [AText, slot, slot]);
    ExtendsTo(NAMED, [Lit(word), Mark(marker), Mark(marker), Lit(";")], [AText, slot, slot]);
  }

  lemma StringRow(name: string)
    ensures RowOk(OpInit(1, '1', [Lit("STRING;")], name, [TakeCStr], NAMED).op, NAMED, Some(NAMED), Some(NAMED))
  {
  }

  lemma RelStringRow(name: string)
    ensures RowOk(OpInit(1, '1', [Lit("STRING"), Mark(STRING), Lit(";")], name, [TakeCStr, TakeCStr], NAMED).op, NAMED, Some(NAMED), Some(NAMED))
  {
    hide Slots, FieldsOk;
    Pushes([Lit("STRING"), Mark(STRING), Lit(";")], [AText]);
    TakesAll([TakeCStr, TakeCStr], [AText, AText]);
    ExtendsTo(NAMED, [Lit("STRING"), Mark(STRING), Lit(";")], [AText, AText]);
  }

  lemma EnumRows(jump: Option<Shape>)
    ensures RowOk(Op(0, '1', [Lit("ENUM"), Mark(STRING)], NAMED).op, NAMED, jump, Some(ENUM))
    ensures RowOk(Op(0, '*', [Lit(","), Mark(STRING)], ENUM).op, ENUM, jump, Some(ENUM))
  {
  }

  lemma EnumEnd(name: string, jump: Option<Shape>, next: Option<Shape>)
    ensures RowOk(OpInit(0, '1', [Lit(";")], name, [TakeCStr, TakeTexts], ENUM).op, ENUM, jump, next)
  {
  }

  lemma HeadRow(next: nat, head: seq<Item>, jump: Option<Shape>)
    requires HeadOk(head)
    requires next != 0 ==> jump == Some(START)
    ensures RowOk(Op(next, '1', head, START).op, START, jump, Some(NAMED))
  {
    hide Slots, FieldsOk;
    Pushes(head, [AText]);
    ExtendsTo(START, head, [AText]);
  }

  predicate HeadOk(head: seq<Item>) {
    head == [Mark(ATTR)] || (|head| == 2 && head[0].Lit? && head[0].text != "" && head[1] == Mark(ATTR))
  }

  /** Eight rows of a table of attribute definitions, with `before` and `after` around them. */
  lemma DefinitionGood(before: seq<Row>, next: nat, head: seq<Item>, name: string, string_: seq<Item>, fields: seq<Field>, after: seq<Row>)
    requires HeadOk(head) && (next == 0 || (next == 8 && after != [] && after[0].shape == START))
    requires RowOk(OpInit(1, '1', string_, name + "String", fields, NAMED).op, NAMED, Some(NAMED), Some(NAMED))
    ensures var b, rows := |before|, before + DefinitionRows(next, head, name, string_, fields) + after;
      forall k :: b <= k < b + 8 ==> Good(rows, k)
  {
    hide RowOk, DefinitionRows;
    var d := DefinitionRows(next, head, name, string_, fields);
    DefinitionShape(next, head, name, string_, fields);
    var b, rows := |before|, before + d + after;
    assert At(rows, b + 8) == At(after, 0);
    forall k | b <= k < b + 8 ensures Good(rows, k) {
      var j := k - b;
      RowInside(before, d, after, j);
      if j < 7 { RowInside(before, d, after, j + 1); }
      DefinitionRowGood(next, head, name, string_, fields, At(after, 0), j);
      if j + d[j].op.next < 8 { RowInside(before, d, after, j + d[j].op.next); }
    }
  }

  lemma RowInside(before: seq<Row>, d: seq<Row>, after: seq<Row>, j: nat)
    requires j < |d|
    ensures (before + d + after)[|before| + j] == d[j]
  {
  }

  lemma DefinitionRowGood(next: nat, head: seq<Item>, name: string, string_: seq<Item>, fields: seq<Field>, after: Option<Shape>, j: nat)
    requires HeadOk(head) && (next == 0 || (next == 8 && after == Some(START)))
    requires RowOk(OpInit(1, '1', string_, name + "String", fields, NAMED).op, NAMED, Some(NAMED), Some(NAMED))
    requires j < 8
    ensures var d := DefinitionRows(next, head, name, string_, fields);
      RowOk(d[j].op, d[j].shape, if j + d[j].op.next < 8 then Some(d[j + d[j].op.next].shape) else after, if j < 7 then Some(d[j + 1].shape) else after)
  {
    hide RowOk;
    HeadRow(next, head, if next == 8 then after else Some(START));
    NumberRow(name + "Int", "INT", SINTEGER, TakeInt, AnInt, Some(NAMED));
    NumberRow(name + "Hex", "HEX", SINTEGER, TakeInt, AnInt, Some(NAMED));
    NumberRow(name + "Float", "FLOAT", DOUBLE, TakeDouble, ADouble, Some(NAMED));
    EnumRows(Some(NAMED));
    EnumRows(Some(ENUM));
    EnumEnd(name + "Enum", Some(ENUM), after);
  }

  lemma DefinitionShape(next: nat, head: seq<Item>, name: string, string_: seq<Item>, fields: seq<Field>)
    ensures var d := DefinitionRows(next, head, name, string_, fields);
      |d| == 8 && d[0].shape == START && d[0].op.next == next && forall j :: 1 <= j < 8 ==> d[j].op.next <= 1
  {
  }

  lemma AttributeGroupGood(before: seq<Row>, next: nat, head: seq<Item>, name: string, after: seq<Row>)
    requires HeadOk(head) && (next == 0 || (next == 8 && after != [] && after[0].shape == START))
    ensures var b, rows := |before|, before + Definition(next, head, name) + after;
      |Definition(next, head, name)| == 8 && Definition(next, head, name)[0].shape == START && forall k :: b <= k < b + 8 ==> Good(rows, k)
  {
    hide Good, RowOk;
    StringRow(name + "String");
    DefinitionGood(before, next, head, name, [Lit("STRING;")], [TakeCStr], after);
  }

  lemma RelationGroupGood(before: seq<Row>, next: nat, head: seq<Item>, name: string, after: seq<Row>)
    requires HeadOk(head) && (next == 0 || (next == 8 && after != [] && after[0].shape == START))
    ensures var b, rows := |before|, before + RelDefinition(next, head, name) + after;
      |RelDefinition(next, head, name)| == 8 && RelDefinition(next, head, name)[0].shape == START && forall k :: b <= k < b + 8 ==> Good(rows, k)
  {
    hide Good, RowOk;
    RelStringRow(name + "String");
    DefinitionGood(before, next, head, name, [Lit("STRING"), Mark(STRING), Lit(";")], [TakeCStr, TakeCStr], after);
  }

  lemma AttributeDefinitions()
    ensures RowsOk(ATTRIBUTE_DEFINITIONS)
  {
    hide Good, Definition;
    var a := Definition(8, [Lit("BU_"), Mark(ATTR)], "initAttrDefineNode");
    var b := Definition(8, [Lit("BO_"), Mark(ATTR)], "initAttrDefineMessage");
    var c := Definition(8, [Lit("SG_"), Mark(ATTR)], "initAttrDefineSignal");
    var d := Definition(8, [Lit("EV_"), Mark(ATTR)], "initAttrDefineEnvVar");
    var e := Definition(0, [Mark(ATTR)], "initAttrDefineNull");
    AttributeGroupGood(a + b + c + d, 0, [Mark(ATTR)], "initAttrDefineNull", []);
    AttributeGroupGood(a + b + c, 8, [Lit("EV_"), Mark(ATTR)], "initAttrDefineEnvVar", e);
    AttributeGroupGood(a + b, 8, [Lit("SG_"), Mark(ATTR)], "initAttrDefineSignal", d + e);
    AttributeGroupGood(a, 8, [Lit("BO_"), Mark(ATTR)], "initAttrDefineMessage", c + d + e);
    AttributeGroupGood([], 8, [Lit("BU_"), Mark(ATTR)], "initAttrDefineNode", b + c + d + e);
    var t := ATTRIBUTE_DEFINITIONS;
    assert t == a + b + c + d + e + [];
    assert t == a + b + c + d + e;
    assert t == a + b + c + (d + e);
    assert t == a + b + (c + d + e);
    assert t == [] + a + (b + c + d + e);
  }

  lemma RelationDefinitions()
    ensures RowsOk(RELATION_DEFINITIONS)
  {
    hide Good, RelDefinition;
    var a := RelDefinition(8, [Lit("BU_BO_REL_"), Mark(ATTR)], "initAttrRelDefineMessage");
    var b := RelDefinition(8, [Lit("BU_SG_REL_"), Mark(ATTR)], "initAttrRelDefineSignal");
    var c := RelDefinition(0, [Lit("BU_EV_REL_"), Mark(ATTR)], "initAttrRelDefineEnvVar");
    RelationGroupGood(a + b, 0, [Lit("BU_EV_REL_"), Mark(ATTR)], "initAttrRelDefineEnvVar", []);
    RelationGroupGood(a, 8, [Lit("BU_SG_REL_"), Mark(ATTR)], "initAttrRelDefineSignal", c);
    RelationGroupGood([], 8, [Lit("BU_BO_REL_"), Mark(ATTR)], "initAttrRelDefineMessage", b + c);
    var t := RELATION_DEFINITIONS;
    assert t == a + b + c + [];
    assert t == [] + a + (b + c);
  }
}
