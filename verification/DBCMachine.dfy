/** Number conversion of libnetq/string/CStrToNum.c, as far as the DBC parser uses it. */
module CStrToNum {
  import opened Words

  /** The value of a digit; `base` or more if it is none. */
  function DigitOf(c: char, base: nat): nat {
    if '0' <= c <= '9' then c as nat - '0' as nat
    else if 'a' <= c <= 'z' then c as nat - 'a' as nat + 10
    else if 'A' <= c <= 'Z' then c as nat - 'A' as nat + 10
    else base
  }

  /** Where the digits start: a leading 0 is skipped, and 0x when the base is 16. */
  function SkipPrefix(s: string, i: nat, base: nat): (r: (nat, bool))
    requires i <= |s|
    ensures i <= r.0 <= |s|
  {
    if i == |s| || s[i] != '0' then (i, true)
    else if i + 1 < |s| && (s[i + 1] == 'x' || s[i + 1] == 'X') then (if base == 16 then (i + 2, true) else (i + 1, false))
    else (i + 1, true)
  }

  /** The loop of NQCStrToUint32: the value in 32 bits and where it stopped. */
  function UintFrom(s: string, i: nat, base: nat, result: nat): (r: (nat, nat))
    requires i <= |s|
    ensures i <= r.1 <= |s|
    ensures result < WORD ==> r.0 < WORD
    decreases |s| - i
  {
    if i == |s| || DigitOf(s[i], base) >= base then (result, i) else
      var temp := (result * base + DigitOf(s[i], base)) % WORD;
      if result > temp then (result, i) else UintFrom(s, i + 1, base, temp)
  }

  /** NQCStrToUint32: value and end. */
  function StrToUint32(s: string, base: nat): (r: (nat, nat))
    ensures r.0 < WORD && r.1 <= |s|
  {
    var p := SkipPrefix(s, 0, base);
    if p.1 then UintFrom(s, p.0, base, 0) else (0, p.0)
  }

  function IntFrom(s: string, i: nat, base: nat, negative: bool, result: int): (r: (int, nat))
    requires i <= |s|
    ensures r.1 <= |s|
    decreases |s| - i
  {
    if i == |s| || DigitOf(s[i], base) >= base then (result, i) else
      var t1 := ToInt32(result * base + DigitOf(s[i], base));
      if (if negative then ToInt32(-t1) > 0 else t1 < 0) then (result, i) else IntFrom(s, i + 1, base, negative, t1)
  }

  /** NQCStrToInt32, on a machine whose signed arithmetic wraps. */
  function StrToInt32(s: string, base: nat): (r: (int, nat))
    ensures r.1 <= |s|
  {
    var negative := s != "" && s[0] == '-';
    var first := if s != "" && (s[0] == '-' || s[0] == '+') then 1 else 0;
    var p := SkipPrefix(s, first, base);
    if !p.1 then (0, p.0) else
      var r := IntFrom(s, p.0, base, negative, 0);
      (if negative then ToInt32(-r.0) else r.0, r.1)
  }

  /** The number a decimal string denotes. */
  function Decimal(s: string): nat {
    if s == "" then 0 else 10 * Decimal(s[..|s| - 1]) + DigitOf(s[|s| - 1], 0)
  }

  lemma {:induction false} DecimalGrows(s: string, i: nat)
    requires i <= |s|
    ensures Decimal(s[..i]) <= Decimal(s)
    decreases |s| - i
  {
    if i == |s| {
      assert s[..i] == s;
    } else {
      DecimalGrows(s, i + 1);
      assert s[..i + 1][..i] == s[..i];
    }
  }

  predicate IsDecimal(s: string) {
    forall i :: 0 <= i < |s| ==> '0' <= s[i] <= '9'
  }

  lemma UintStep(s: string, i: nat, result: nat)
    requires i < |s| && '0' <= s[i] <= '9' && result <= (result * 10 + DigitOf(s[i], 10)) % WORD
    ensures UintFrom(s, i, 10, result) == UintFrom(s, i + 1, 10, (result * 10 + DigitOf(s[i], 10)) % WORD)
  {
  }

  lemma UintEnd(s: string, result: nat)
    ensures UintFrom(s, |s|, 10, result) == (result, |s|)
  {
  }

  lemma {:induction false} UintFromExact(s: string, i: nat)
    requires i <= |s| && IsDecimal(s) && Decimal(s) < WORD
    ensures UintFrom(s, i, 10, Decimal(s[..i])) == (Decimal(s), |s|)
    decreases |s| - i
  {
    hide UintFrom, Decimal;
    if i == |s| {
      assert s[..i] == s;
      UintEnd(s, Decimal(s));
    } else {
      DecimalGrows(s, i + 1);
      UintFromExact(s, i + 1);
      DecimalStep(s, i);
      UintStep(s, i, Decimal(s[..i]));
    }
  }

  lemma DecimalStep(s: string, i: nat)
    requires i < |s| && IsDecimal(s)
    ensures Decimal(s[..i + 1]) == 10 * Decimal(s[..i]) + DigitOf(s[i], 10)
  {
    assert s[..i + 1][..i] == s[..i];
  }

  /** Every number that fits 32 bits is read to its end and exactly. */
  lemma StrToUint32Exact(s: string)
    requires IsDecimal(s) && Decimal(s) < WORD
    ensures StrToUint32(s, 10) == (Decimal(s), |s|)
  {
    if s != "" && s[0] == '0' {
      assert s[..1] == "0" && s[..1][..0] == "";
      UintFromExact(s, 1);
    } else {
      assert s[..0] == "";
      UintFromExact(s, 0);
    }
  }

  /** Reading one digit more never makes the 32-bit value fall. */
  ghost predicate NeverFalls(s: string, i: nat) {
    forall k :: i <= k < |s| ==> Decimal(s[..k]) % WORD <= Decimal(s[..k + 1]) % WORD
  }

  lemma ResidueStep(v: nat, d: nat)
    ensures (v % WORD * 10 + d) % WORD == (10 * v + d) % WORD
  {
    assert 10 * v + d == (v % WORD * 10 + d) + WORD * (10 * (v / WORD));
    AddMultiple(v % WORD * 10 + d, 10 * (v / WORD));
  }

  lemma AddMultiple(x: nat, m: nat)
    ensures (x + WORD * m) % WORD == x % WORD
  {
  }

  lemma UintStops(s: string, i: nat, result: nat)
    requires i < |s| && '0' <= s[i] <= '9' && result > (result * 10 + DigitOf(s[i], 10)) % WORD
    ensures UintFrom(s, i, 10, result) == (result, i)
  {
  }

  lemma {:induction false} UintFromResidue(s: string, i: nat)
    requires i <= |s| && IsDecimal(s)
    ensures var r := UintFrom(s, i, 10, Decimal(s[..i]) % WORD);
      (r.1 == |s| <==> NeverFalls(s, i)) && (r.1 == |s| ==> r.0 == Decimal(s) % WORD)
    decreases |s| - i
  {
    hide UintFrom, Decimal;
    var v := Decimal(s[..i]) % WORD;
    if i == |s| {
      assert s[..i] == s;
      UintEnd(s, v);
    } else {
      DecimalStep(s, i);
      ResidueStep(Decimal(s[..i]), DigitOf(s[i], 10));
      var next := Decimal(s[..i + 1]) % WORD;
      if v > next {
        UintStops(s, i, v);
      } else {
        UintStep(s, i, v);
        UintFromResidue(s, i + 1);
      }
    }
  }

  /** A number that does not fit is noticed, which means that reading stops before its end, if and only if the
      32-bit value falls at some digit; otherwise what comes out is the number modulo 2^32. */
  lemma OverflowIsNoticed(s: string)
    requires IsDecimal(s)
    ensures var r := StrToUint32(s, 10);
      && (r.1 == |s| <==> NeverFalls(s, 0)) && (r.1 == |s| ==> r.0 == Decimal(s) % WORD)
  {
    assert s[..0] == "";
    if s != "" && s[0] == '0' {
      assert s[..1] == "0" && s[..1][..0] == "";
      UintFromResidue(s, 1);
    } else {
      UintFromResidue(s, 0);
    }
  }

  /** A larger number need not be noticed: the test only compares with the value one digit before. */
  lemma OverflowIsMissed()
    ensures StrToUint32("9999999999", 10) == (1410065407, 10)
  {
    NinesMissed("9999999999");
  }

  lemma NinesMissed(s: string)
    requires |s| == 10 && forall i :: 0 <= i < 10 ==> s[i] == '9'
    ensures StrToUint32(s, 10) == (1410065407, 10)
  {
    hide UintFrom;
    Nines(s, 0, 0);
    Nines(s, 1, 9);
    Nines(s, 2, 99);
    Nines(s, 3, 999);
    Nines(s, 4, 9999);
    Nines(s, 5, 99999);
    Nines(s, 6, 999999);
    Nines(s, 7, 9999999);
    Nines(s, 8, 99999999);
    Nines(s, 9, 999999999);
    UintEnd(s, 1410065407);
  }

  lemma Nines(s: string, i: nat, result: nat)
    requires i < |s| && s[i] == '9' && (result <= 99999999 || result == 999999999)
    ensures UintFrom(s, i, 10, result) == UintFrom(s, i + 1, 10, (result * 10 + 9) % WORD)
  {
  }

  // ---------- signed numbers

  const HALF := 0x8000_0000

  /** The number a decimal string with an optional sign denotes. */
  function SignedDecimal(s: string): int {
    if s != "" && s[0] == '-' then -(Decimal(s[1..]) as int)
    else if s != "" && s[0] == '+' then Decimal(s[1..])
    else Decimal(s)
  }

  predicate IsSignedDecimal(s: string) {
    if s != "" && (s[0] == '-' || s[0] == '+') then IsDecimal(s[1..]) else IsDecimal(s)
  }

  lemma IntEnd(s: string, negative: bool, result: int)
    ensures IntFrom(s, |s|, 10, negative, result) == (result, |s|)
  {
  }

  /** A digit more, while the number still fits. */
  lemma IntStep(s: string, i: nat, negative: bool, v: nat)
    requires i < |s| && '0' <= s[i] <= '9' && v * 10 + DigitOf(s[i], 10) < HALF + (if negative then 1 else 0)
    ensures IntFrom(s, i, 10, negative, v) == IntFrom(s, i + 1, 10, negative, ToInt32(v * 10 + DigitOf(s[i], 10)))
  {
  }

  /** The loop from digit `i` on: the digits from `from` are those of the number. */
  lemma {:induction false} IntFromExact(s: string, from: nat, i: nat, negative: bool)
    requires from <= i <= |s| && IsDecimal(s[from..]) && Decimal(s[from..]) < HALF + (if negative then 1 else 0)
    ensures IntFrom(s, i, 10, negative, ToInt32(Decimal(s[from..i]))) == (ToInt32(Decimal(s[from..])), |s|)
    decreases |s| - i
  {
    hide IntFrom, Decimal, ToInt32;
    var t := s[from..];
    if i == |s| {
      assert s[from..i] == t;
      IntEnd(s, negative, ToInt32(Decimal(t)));
    } else {
      var k := i - from;
      assert t[..k] == s[from..i] && t[..k + 1] == s[from..i + 1] && t[k] == s[i];
      DecimalGrows(t, k + 1);
      DecimalStep(t, k);
      IntFromExact(s, from, i + 1, negative);
      SmallInt(Decimal(t[..k]), DigitOf(t[k], 10), negative);
      IntStep(s, i, negative, Decimal(t[..k]));
    }
  }

  lemma SmallInt(v: nat, d: nat, negative: bool)
    requires 10 * v + d < HALF + (if negative then 1 else 0)
    ensures v < HALF && ToInt32(v) == v && v * 10 + d == 10 * v + d
  {
  }

  /** Every signed number that fits 32 bits is read to its end and exactly. */
  lemma StrToInt32Exact(s: string)
    requires IsSignedDecimal(s) && -HALF <= SignedDecimal(s) < HALF
    ensures StrToInt32(s, 10) == (SignedDecimal(s), |s|)
  {
    hide IntFrom, Decimal;
    var negative := s != "" && s[0] == '-';
    var first: nat := if s != "" && (s[0] == '-' || s[0] == '+') then 1 else 0;
    var t := s[first..];
    assert t == if first == 1 then s[1..] else s;
    NoDigits();
    var p := SkipPrefix(s, first, 10);
    if p.0 == first {
      assert s[first..first] == "";
    } else {
      assert s[first..p.0] == t[..1] == "0";
    }
    assert Decimal(s[first..p.0]) == 0 && p.1 && first <= p.0 by { LeadingZero(s, first); }
    IntFromExact(s, first, p.0, negative);
    ToIntAndBack(Decimal(t), negative);
  }

  lemma NoDigits()
    ensures Decimal("") == 0 && Decimal("0") == 0 && ToInt32(0) == 0
  {
    assert "0"[..0] == "";
  }

  /** What the loop skips before it starts is nothing or a 0. */
  lemma LeadingZero(s: string, first: nat)
    requires first <= |s| && IsDecimal(s[first..])
    ensures var p := SkipPrefix(s, first, 10); p.1 && first <= p.0 <= |s| && Decimal(s[first..p.0]) == 0
  {
    var p := SkipPrefix(s, first, 10);
    NoDigits();
    var t := s[first..];
    assert forall i :: first <= i < |s| ==> s[i] == t[i - first];
    if p.0 == first { assert s[first..p.0] == ""; } else { assert s[first..p.0] == "0"; }
  }

  lemma ToIntAndBack(v: int, negative: bool)
    requires 0 <= v < HALF + (if negative then 1 else 0)
    ensures (if negative then ToInt32(-ToInt32(v)) else ToInt32(v)) == if negative then -v else v
  {
  }
}

/** The opcode interpreter of libnetq/dbc/DBCParser.c: patterns, the value queue, and the init functions. */
module DBCMachine {
  import opened Words
  import opened DBCLexer
  import opened CStrToNum

  // ---------- values

  datatype Value =
    | Identifier(place: Place, text: string)
    | CStr(place: Place, text: string)
    | Int32(int32: int)
    | Uint32(uint32: nat)
    | Double(digits: string)

  const STACK_SIZE := 1024
  const BIG_ENDIAN := 48
  const LITTLE_ENDIAN := 49

  /** A value that is a character pointer. */
  predicate IsText(v: Value) {
    v.Identifier? || v.CStr?
  }

  // ---------- opcodes

  /** The marker bytes 0x81 to 0x90. */
  datatype Marker =
    | KEYWORD | STRING | UINTEGER | SINTEGER | DOUBLE | ATTR | VALUE | ENDIAN | MPLEX | SIGNE | EXTYPE | EVTYPE | ACCESS
    | CMIGNORE | UINTCAST | NOTBSKW

  /** A stretch of a pattern: characters that stand for themselves, or one marker. */
  datatype Item = Lit(text: string) | Mark(marker: Marker)

  /** What one init function does with the queue, in order. */
  datatype Field =
    | TakeIdentifier | TakeCStr | TakeInt | TakeUint | TakeDouble
    | TakeMultiplexer
    | TakeVariant
    | TakeTexts
    | TakeDescriptions
    | TakeRanges
    | Clear

  /** `skipsEmpty` is the test of initBitTiming, `silent` that the section is not handed to the caller. */
  datatype Init = Init(name: string, fields: seq<Field>, skipsEmpty: bool, silent: bool)

  datatype Opcode = Opcode(next: nat, required: char, pattern: seq<Item>, init: Option<Init>)

  /** `item` and `offset` are `position`: the item of the pattern and, inside a literal, the character. */
  datatype Machine = Machine(table: seq<Opcode>, opcode: nat, item: nat, offset: nat, done: bool, queue: seq<Value>)

  datatype Section = Section(name: string, values: seq<Value>, silent: bool)

  // ---------- DBCMachine_next2

  function FullUint(t: Token): Option<nat> {
    var r := StrToUint32(t.data, 10);
    if r.1 == |t.data| then Some(r.0) else None
  }

  function FullInt(t: Token): Option<int> {
    var r := StrToInt32(t.data, 10);
    if r.1 == |t.data| then Some(r.0) else None
  }

  function OfUint(x: Option<nat>): Option<seq<Value>> {
    if x.Some? then Some([Uint32(x.value)]) else None
  }

  function OfInt(x: Option<int>): Option<seq<Value>> {
    if x.Some? then Some([Int32(x.value)]) else None
  }

  /** isCIdentifier. */
  predicate IsCIdentifier(s: string) {
    s != "" && IsFirstIdentifier(s[0]) && forall i :: 0 <= i < |s| ==> IsNextIdentifier(s[i])
  }

  /** A multiplexer indicator: M, m<number> or m<number>M. */
  function MatchMultiplexer(t: Token): Option<seq<Value>> {
    var d := t.data;
    if t.kind != IdentifierToken then None
    else if |d| <= 1 then (if d == "M" then Some([Identifier(Static, "M")]) else None)
    else if d[0] != 'm' then None
    else
      var r := StrToUint32(d[1..], 10);
      if r.1 + 1 == |d| then Some([Uint32(r.0)])
      else if r.1 + 2 == |d| && d[r.1 + 1] == 'M' then Some([Uint32(r.0), Identifier(Static, "M")])
      else None
  }

  /** A symbol token that is one of `symbols`: its index. */
  function MatchSymbol(t: Token, symbols: string): Option<seq<Value>> {
    if t.kind != SymbolToken || |t.data| != 1 then None
    else if |symbols| > 0 && t.data[0] == symbols[0] then Some([Uint32(0)])
    else if |symbols| > 1 && t.data[0] == symbols[1] then Some([Uint32(1)])
    else if |symbols| > 2 && t.data[0] == symbols[2] then Some([Uint32(2)])
    else if |symbols| > 3 && t.data[0] == symbols[3] then Some([Uint32(3)])
    else None
  }

  const DUMMY := "DUMMY_NODE_VECTOR"

  /** What a token leaves in the queue at a marker, or nothing if it does not match. */
  function MatchMarker(m: Marker, t: Token): Option<seq<Value>> {
    match m
    case KEYWORD => if t.kind == IdentifierToken then Some([Identifier(t.place, t.data)]) else None
    case STRING => if t.kind == StringToken then Some([CStr(t.place, t.data)]) else None
    case UINTCAST =>
      if t.kind == UIntegerToken then OfUint(FullUint(t))
      else if t.kind == SIntegerToken && FullInt(t).Some? then Some([Uint32(FullInt(t).value % WORD)])
      else None
    case UINTEGER => if t.kind == UIntegerToken then OfUint(FullUint(t)) else None
    case SINTEGER => if t.kind == SIntegerToken || t.kind == UIntegerToken then OfInt(FullInt(t)) else None
    case DOUBLE => if t.kind == SIntegerToken || t.kind == UIntegerToken || t.kind == NumberToken then Some([Double(t.data)]) else None
    case ATTR => if t.kind == StringToken && IsCIdentifier(t.data) then Some([CStr(t.place, t.data)]) else None
    case VALUE =>
      (match t.kind
       case UIntegerToken => OfUint(FullUint(t))
       case SIntegerToken => OfInt(FullInt(t))
       case NumberToken => Some([Double(t.data)])
       case StringToken => Some([CStr(t.place, t.data)])
       case _ => None)
    case ENDIAN =>
      if t.kind != UIntegerToken || t.data == "" then None
      else if t.data[0] == '0' then Some([Uint32(BIG_ENDIAN)])
      else if t.data[0] == '1' then Some([Uint32(LITTLE_ENDIAN)])
      else None
    case MPLEX => MatchMultiplexer(t)
    case SIGNE => MatchSymbol(t, "-+")
    case EXTYPE => MatchSymbol(t, "0123")
    case EVTYPE => MatchSymbol(t, "012")
    case ACCESS =>
      if t.kind != IdentifierToken || |t.data| <= |DUMMY| || t.data[..|DUMMY|] != DUMMY then None
      else
        var r := StrToUint32(t.data[|DUMMY|..], 16);
        if r.1 == |t.data| - |DUMMY| then Some([Uint32(r.0)]) else None
    case CMIGNORE => if t.kind == SymbolToken && '\n' in t.data then None else Some([])
    case NOTBSKW =>
      if t.kind != IdentifierToken || t.data == "BS_" then None else Some([Identifier(t.place, t.data)])
  }

  /** A marker whose case in the source asserts something about the token that need not hold: the byte order wants an
      integer of a single digit, and an access type no flags but three. */
  predicate Asserts(marker: Marker, t: Token) {
    match marker
    case ENDIAN => t.kind == UIntegerToken && |t.data| != 1
    case ACCESS =>
      && t.kind == IdentifierToken && |t.data| > |DUMMY| && t.data[..|DUMMY|] == DUMMY
      && var r := StrToUint32(t.data[|DUMMY|..], 16); r.1 == |t.data| - |DUMMY| && (r.0 >= 0x1_0000 || r.0 % 0x8000 >= 4)
    case _ => false
  }

  predicate WellPlaced(m: Machine) {
    && m.opcode < |m.table|
    && var pattern := m.table[m.opcode].pattern;
      && m.item <= |pattern|
      && (if m.item < |pattern| && pattern[m.item].Lit? then m.offset < |pattern[m.item].text| else m.offset == 0)
      && forall i :: 0 <= i < |pattern| ==> pattern[i] != Lit("")
  }

  /** The machine waits at a marker that does not bear the token: an assertion fails. */
  predicate AssertsAt(m: Machine, t: Token)
    requires WellPlaced(m)
  {
    var pattern := m.table[m.opcode].pattern;
    m.item < |pattern| && pattern[m.item].Mark? && Asserts(pattern[m.item].marker, t)
  }

  /** The machine after one item, or part of a literal, has matched the token. */
  function Next2(m: Machine, t: Token): Option<Machine>
    requires WellPlaced(m)
  {
    var pattern := m.table[m.opcode].pattern;
    if m.item == |pattern| then None
    else match pattern[m.item]
      case Mark(marker) =>
        var pushed := MatchMarker(marker, t);
        if pushed.Some? then Some(m.(item := m.item + 1, queue := m.queue + pushed.value)) else None
      case Lit(text) =>
        var rest := text[m.offset..];
        if rest[0] == ' ' || (t.kind != IdentifierToken && t.kind != SymbolToken) || !(t.data <= rest) then None
        else if t.data == rest then Some(m.(item := m.item + 1, offset := 0))
        else Some(m.(offset := m.offset + |t.data|))
  }

  // ---------- DBCMachine_next

  function SetOpcode(m: Machine, k: nat): Machine {
    m.(opcode := k, item := 0, offset := 0, done := false)
  }

  /** `Lost` stands for an opcode pointer past the end of its table, `Asserted` for a failed assertion. */
  datatype Taken = Refused | Lost | Asserted | Taken(machine: Machine, repeat: bool)

  function Next(m: Machine, t: Token): Taken
    requires WellPlaced(m)
    decreases |m.table| - m.opcode
  {
    var r := Next2(m, t);
    if AssertsAt(m, t) then Asserted
    else if r.Some? then Taken(r.value, false)
    else if m.item != 0 || m.offset != 0 then Refused
    else
      var op := m.table[m.opcode];
      if op.next == 0 && op.required != '?' && op.required != '*' then Refused
      else if op.next == 0 && op.init.Some? then Taken(m.(done := true), true)
      else
        var n := SetOpcode(m, m.opcode + if op.next != 0 then op.next else 1);
        if !WellPlaced(n) then Lost else Next(n, t)
  }

  // ---------- the init functions

  /** Values taken and values left, or nothing where an assertion of the queue would fail. */
  datatype Shift = Failed | Shifted(values: seq<Value>, rest: seq<Value>)

  function ShiftIf(queue: seq<Value>, typed: bool): Shift
    requires typed ==> queue != []
  {
    if typed then Shifted([queue[0]], queue[1..]) else Failed
  }

  /** DBCMachine_shiftDescriptions: pairs of a value and a text. */
  predicate ArePairs(queue: seq<Value>) {
    |queue| % 2 == 0
    && forall i :: 0 <= i < |queue| ==>
         if i % 2 == 0 then queue[i].Int32? || queue[i].Uint32? else queue[i].CStr?
  }

  function ShiftField(f: Field, queue: seq<Value>): Shift {
    match f
    case TakeIdentifier => ShiftIf(queue, queue != [] && queue[0].Identifier?)
    case TakeCStr => ShiftIf(queue, queue != [] && queue[0].CStr?)
    case TakeInt => ShiftIf(queue, queue != [] && queue[0].Int32?)
    case TakeUint => ShiftIf(queue, queue != [] && queue[0].Uint32?)
    case TakeDouble => ShiftIf(queue, queue != [] && queue[0].Double?)
    case TakeMultiplexer =>
      if queue == [] then Failed
      else
        var n := if queue[0].Uint32? then 1 else 0;
        if |queue| == n then Failed
        else
          var k := if queue[n].Identifier? then n + 1 else n;
          Shifted(queue[..k], queue[k..])
    case TakeVariant => ShiftIf(queue, queue != [] && !queue[0].Identifier?)
    case TakeTexts => if forall v :: v in queue ==> IsText(v) then Shifted(queue, []) else Failed
    case TakeDescriptions => if ArePairs(queue) then Shifted(queue, []) else Failed
    case TakeRanges => if |queue| % 2 == 0 && forall v :: v in queue ==> v.Uint32? then Shifted(queue, []) else Failed
    case Clear => Shifted([], [])
  }

  function ShiftFields(fields: seq<Field>, queue: seq<Value>): Shift {
    if fields == [] then Shifted([], queue) else
      var s := ShiftField(fields[0], queue);
      if s.Failed? then Failed else
        var r := ShiftFields(fields[1..], s.rest);
        if r.Failed? then Failed else Shifted(s.values + r.values, r.rest)
  }

  /** What an init function hands over: nothing where one of its assertions fails. */
  function RunInit(init: Init, queue: seq<Value>): (Option<Section>, seq<Value>) {
    if init.skipsEmpty && queue == [] then (Some(Section(init.name, [], true)), [])
    else
      var s := ShiftFields(init.fields, queue);
      if s.Failed? then (None, queue) else (Some(Section(init.name, s.values, init.silent)), s.rest)
  }

  // ---------- DBCMachine_result

  /** `Broken` stands for a failed assertion, a missing init function or an opcode past the end of its table. */
  datatype Result = More(machine: Machine) | Ready(section: Section, rest: seq<Value>) | Broken

  function ResultOf(m: Machine): Result
    requires WellPlaced(m)
  {
    var op := m.table[m.opcode];
    if m.done then (if op.init.None? then Broken else RunResult(op.init.value, m.queue))
    else if m.item != |op.pattern| then More(m)
    else if op.required == '*' then More(m.(item := 0, offset := 0))
    else if op.init.Some? then RunResult(op.init.value, m.queue)
    else
      var n := SetOpcode(m, m.opcode + 1);
      if WellPlaced(n) then More(n) else Broken
  }

  function RunResult(init: Init, queue: seq<Value>): Result {
    var r := RunInit(init, queue);
    if r.0.Some? then Ready(r.0.value, r.1) else Broken
  }
}
