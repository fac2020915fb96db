/** What words mean where an opcode waits for them, and what a pattern makes of words that spell it. */
module DBCMeaning {
  import opened Words
  import opened DBCLexer
  import opened CStrToNum
  import opened DBCMachine
  import opened DBCParserModel
  import opened DBCWords

  // ---------- values without their places

  function Plain(v: Value): Value {
    match v
    case Identifier(_, text) => Identifier(Static, text)
    case CStr(_, text) => CStr(Static, text)
    case _ => v
  }

  function PlainAll(vs: seq<Value>): (r: seq<Value>)
    ensures |r| == |vs| && forall i :: 0 <= i < |vs| ==> r[i] == Plain(vs[i])
  {
    seq(|vs|, i requires 0 <= i < |vs| => Plain(vs[i]))
  }

  lemma PlainConcat(a: seq<Value>, b: seq<Value>)
    ensures PlainAll(a + b) == PlainAll(a) + PlainAll(b)
  {
  }

  // ---------- what a word means at a marker

  /** The integer a numeral without fraction and exponent denotes. */
  function IntegerOf(n: Numeral): int {
    if n.sign == Some('-') then -(Decimal(n.whole) as int) else Decimal(n.whole)
  }

  predicate IsIdentifierText(s: string) {
    s != "" && IsFirstIdentifier(s[0]) && AllIdentifier(s)
  }

  function Unsigned(n: Numeral): Option<seq<Value>> {
    if IsInteger(n) && n.sign.None? && Decimal(n.whole) < WORD then Some([Uint32(Decimal(n.whole))]) else None
  }

  function Signed(n: Numeral): Option<seq<Value>> {
    if IsInteger(n) && -HALF <= IntegerOf(n) < HALF then Some([Int32(IntegerOf(n))]) else None
  }

  /** The number of a multiplexed signal, m<number>; it is a multiplexer itself with an M behind. */
  function Multiplexed(s: string): Option<seq<Value>> {
    if s == "M" then Some([Identifier(Static, "M")])
    else if |s| > 1 && s[0] == 'm' && IsDecimal(s[1..]) && Decimal(s[1..]) < WORD then Some([Uint32(Decimal(s[1..]))])
    else if |s| > 2 && s[0] == 'm' && s[|s| - 1] == 'M' && IsDecimal(s[1..|s| - 1]) && Decimal(s[1..|s| - 1]) < WORD then
      Some([Uint32(Decimal(s[1..|s| - 1])), Identifier(Static, "M")])
    else None
  }

  /** What is to be understood when the word stands at the marker; nothing where it should not stand there, or is a
      number that does not fit. */
  function Means(m: Marker, w: Word): Option<seq<Value>> {
    match w
    case Name(s) =>
      if m == KEYWORD || (m == NOTBSKW && s != "BS_") then Some([Identifier(Static, s)])
      else if m == MPLEX then Multiplexed(s)
      else if m == CMIGNORE then Some([]) else None
    case Str(s) =>
      if m == STRING || m == VALUE || (m == ATTR && IsIdentifierText(s)) then Some([CStr(Static, s)])
      else if m == CMIGNORE then Some([]) else None
    case Sym(c) =>
      if m == SIGNE && c == '-' then Some([Uint32(0)])
      else if m == SIGNE && c == '+' then Some([Uint32(1)])
      else if m == CMIGNORE && c != '\n' then Some([]) else None
    case Number(n) =>
      if m == DOUBLE || (m == VALUE && !IsInteger(n)) then Some([Double(NumeralText(n))])
      else if m == UINTEGER || (m == VALUE && n.sign.None?) then Unsigned(n)
      else if m == SINTEGER || m == VALUE then Signed(n)
      else if m == UINTCAST then
        if n.sign.None? then Unsigned(n) else if Signed(n).Some? then Some([Uint32(IntegerOf(n) % WORD)]) else None
      else if m == ENDIAN && NumeralText(n) == "0" then Some([Uint32('0' as nat)])
      else if m == ENDIAN && NumeralText(n) == "1" then Some([Uint32('1' as nat)])
      else if m == CMIGNORE then Some([]) else None
  }

  lemma IntegerText(n: Numeral)
    requires NumeralOk(n) && IsInteger(n)
    ensures NumeralText(n) == SignText(n.sign) + n.whole
    ensures n.sign.None? ==> NumeralText(n) == n.whole
    ensures IsSignedDecimal(NumeralText(n)) && SignedDecimal(NumeralText(n)) == IntegerOf(n)
    ensures IsDecimal(n.whole) && n.whole[0] != '+' && n.whole[0] != '-'
    ensures n.sign.Some? ==> NumeralText(n) != "0" && NumeralText(n) != "1"
  {
    assert NumeralText(n) == SignText(n.sign) + n.whole;
    if n.sign.Some? {
      assert NumeralText(n)[0] == n.sign.value && NumeralText(n)[1..] == n.whole;
    } else {
      assert NumeralText(n) == n.whole;
    }
  }

  lemma FullNumbers(t: Token, n: Numeral)
    requires t.data == NumeralText(n) && NumeralOk(n) && IsInteger(n)
    ensures n.sign.None? && Decimal(n.whole) < WORD ==> FullUint(t) == Some(Decimal(n.whole))
    ensures -HALF <= IntegerOf(n) < HALF ==> FullInt(t) == Some(IntegerOf(n))
    ensures n.sign.Some? ==> t.data != "0" && t.data != "1"
  {
    hide Decimal, SignedDecimal, StrToUint32, StrToInt32, NumeralText, IsDecimal, IsSignedDecimal;
    IntegerText(n);
    if n.sign.None? && Decimal(n.whole) < WORD { StrToUint32Exact(n.whole); }
    if -HALF <= IntegerOf(n) < HALF { StrToInt32Exact(NumeralText(n)); }
  }

  lemma NumberMeans(m: Marker, t: Token, n: Numeral, at: nat)
    requires TokenFor(t, Word.Number(n), at) && NumeralOk(n) && Means(m, Word.Number(n)).Some?
    ensures MatchMarker(m, t) == Means(m, Word.Number(n)) && !Asserts(m, t)
  {
    hide Decimal, StrToUint32, NumeralText, FullUint, FullInt, NumeralOk, IntegerOf, MatchMultiplexer, MatchSymbol;
    if IsInteger(n) { FullNumbers(t, n); } else { NotOneDigit(n); }
  }

  lemma NotOneDigit(n: Numeral)
    requires NumeralOk(n) && !IsInteger(n)
    ensures |NumeralText(n)| > 1
  {
  }

  // ---------- multiplexer indicators

  lemma UintStopsAt(s: string, i: nat, result: nat)
    requires i < |s| && s[i] == 'M'
    ensures UintFrom(s, i, 10, result) == (result, i)
  {
  }

  lemma {:induction false} UintUpTo(s: string, n: nat, i: nat)
    requires i <= n < |s| && s[n] == 'M' && IsDecimal(s[..n]) && Decimal(s[..n]) < WORD
    ensures UintFrom(s, i, 10, Decimal(s[..i])) == (Decimal(s[..n]), n)
    decreases n - i
  {
    hide UintFrom, Decimal;
    var t := s[..n];
    if i == n {
      UintStopsAt(s, n, Decimal(t));
    } else {
      assert t[..i] == s[..i] && t[..i + 1] == s[..i + 1] && t[i] == s[i];
      DecimalGrows(t, i + 1);
      UintUpTo(s, n, i + 1);
      DecimalStep(t, i);
      UintStep(s, i, Decimal(t[..i]));
    }
  }

  /** The digits in front of an M are read, and the M is not. */
  lemma UintBeforeM(s: string)
    requires |s| > 1 && s[|s| - 1] == 'M' && IsDecimal(s[..|s| - 1]) && Decimal(s[..|s| - 1]) < WORD
    ensures StrToUint32(s, 10) == (Decimal(s[..|s| - 1]), |s| - 1)
  {
    var n := |s| - 1;
    assert s[..n][0] == s[0];
    if s[0] == '0' {
      assert s[1] == 'M' || (n > 1 && s[1] == s[..n][1]);
      assert s[..1] == "0" && s[..1][..0] == "";
      UintUpTo(s, n, 1);
    } else {
      assert s[..0] == "";
      UintUpTo(s, n, 0);
    }
  }

  lemma MultiplexerMeans(t: Token)
    requires t.kind == IdentifierToken && Multiplexed(t.data).Some?
    ensures MatchMultiplexer(t) == Multiplexed(t.data)
  {
    hide StrToUint32, Decimal;
    var s := t.data;
    if |s| > 1 {
      if IsDecimal(s[1..]) && Decimal(s[1..]) < WORD {
        StrToUint32Exact(s[1..]);
      } else {
        assert s[1..][..|s| - 2] == s[1..|s| - 1];
        UintBeforeM(s[1..]);
      }
    }
  }

  /** Every token is understood as its word means. */
  lemma MarkerMeans(m: Marker, t: Token, w: Word, at: nat)
    requires TokenFor(t, w, at) && WordOk(w) && Means(m, w).Some?
    ensures MatchMarker(m, t).Some? && PlainAll(MatchMarker(m, t).value) == Means(m, w).value && !Asserts(m, t)
  {
    hide StrToUint32, Decimal, NumeralText, MatchMultiplexer, Multiplexed, StrToInt32;
    match w {
      case Number(n) => NumberMeans(m, t, n, at); NumbersArePlain(m, n);
      case Name(s) => if m == MPLEX { MultiplexerMeans(t); MultiplexersArePlain(s); }
      case Str(s) =>
      case Sym(c) =>
    }
  }

  lemma NumbersArePlain(m: Marker, n: Numeral)
    ensures Means(m, Word.Number(n)).Some? ==> PlainAll(Means(m, Word.Number(n)).value) == Means(m, Word.Number(n)).value
  {
  }

  lemma MultiplexersArePlain(s: string)
    ensures Multiplexed(s).Some? ==> PlainAll(Multiplexed(s).value) == Multiplexed(s).value
  {
  }
}
