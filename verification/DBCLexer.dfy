/** The character lexer of libnetq/dbc/DBCParser.c. */
module DBCLexer {
  import opened Words

  datatype Mode =
    | Init | CRLF | LF | AnySymbol | CIdentifier | CString | EscapeCString | FinalCString
    | PlusSymbol | MinusSymbol | SInteger | UInteger | Number
    | ExponentSymbolNumber | ExponentSignNumber | ExponentNumber

  datatype TokenType = IdentifierToken | StringToken | SIntegerToken | UIntegerToken | NumberToken | SymbolToken

  /** Where the characters of a token are: a constant of the program, or the lexer buffer from an index on. */
  datatype Place = Static | Buffer(at: nat)

  datatype Token = Token(kind: TokenType, line: nat, column: nat, indent: nat, place: Place, data: string)

  /** `text` is what has been written to the buffer since the last reset: the buffer up to `position`. */
  datatype Lexer = Lexer(
    mode: Mode, currentLine: nat, currentColumn: nat, tokenLine: nat, tokenColumn: nat,
    indent: nat, text: string, start: nat, prev: char)

  const NIL := '\0'
  const BUFFER_SIZE := 12288

  predicate IsDigit(c: char) { '0' <= c <= '9' }

  predicate IsFirstIdentifier(c: char) { 'a' <= c <= 'z' || 'A' <= c <= 'Z' || c == '_' }

  predicate IsNextIdentifier(c: char) { IsDigit(c) || IsFirstIdentifier(c) }

  predicate IsSpace(c: char) { c == ' ' || c == '\t' || c == '\U{00000B}' }

  function Reset(l: Lexer): Lexer {
    l.(mode := Init, indent := 0, text := "", start := 0, prev := NIL)
  }

  function New(): Lexer {
    Lexer(Init, 0, 0, 0, 0, 0, "", 0, NIL)
  }

  // ---------- DBCLexer_apply

  function Put(l: Lexer, mode: Mode, c: char): Lexer {
    l.(mode := mode, text := l.text + [c])
  }

  /** The mode a sign starts: a sign right behind a digit is a symbol of its own. */
  function SignMode(l: Lexer, mode: Mode): Mode {
    if l.indent == 0 && IsDigit(l.prev) then AnySymbol else mode
  }

  /** The first character of a token, or a space before it. */
  function ApplyInit(lexer: Lexer, c: char): Lexer {
    var l := lexer.(tokenLine := lexer.currentLine, tokenColumn := lexer.currentColumn);
    if c == '\r' then Put(l, CRLF, '\n')
    else if c == '\n' then Put(l, LF, c)
    else if IsSpace(c) then l.(indent := l.indent + 1)
    else if c == '"' then l.(mode := CString)
    else if c == '+' then Put(l, SignMode(l, PlusSymbol), c)
    else if c == '-' then Put(l, SignMode(l, MinusSymbol), c)
    else if IsDigit(c) then Put(l, UInteger, c)
    else if IsFirstIdentifier(c) then Put(l, CIdentifier, c)
    else Put(l, AnySymbol, c)
  }

  /** The lexer after `c`, or nothing if the token ends before `c`. */
  function Apply(l: Lexer, c: char): Option<Lexer> {
    match l.mode
    case Init => Some(ApplyInit(l, c))
    case CRLF => if c == '\r' || c == '\n' then Some(l.(mode := LF)) else None
    case LF => if c == '\r' then Some(l.(mode := CRLF)) else if c == '\n' then Some(l) else None
    case CIdentifier => if IsNextIdentifier(c) then Some(Put(l, CIdentifier, c)) else None
    case CString =>
      Some(if c == '"' then l.(mode := FinalCString) else if c == '\\' then l.(mode := EscapeCString) else Put(l, CString, c))
    case EscapeCString => Some(Put(l, CString, c))
    case PlusSymbol => if IsDigit(c) then Some(Put(l, SInteger, c)) else None
    case MinusSymbol => if IsDigit(c) then Some(Put(l, SInteger, c)) else None
    case SInteger => ApplyInteger(l, c)
    case UInteger =>
      var r := ApplyInteger(l, c);
      if r.None? && IsNextIdentifier(c) then Some(Put(l, CIdentifier, c)) else r
    case Number =>
      if c == 'e' || c == 'E' then Some(Put(l, ExponentSymbolNumber, c)) else if IsDigit(c) then Some(Put(l, Number, c)) else None
    case ExponentSymbolNumber =>
      if c == '+' || c == '-' then Some(Put(l, ExponentSignNumber, c))
      else if IsDigit(c) then Some(Put(l, ExponentNumber, c)) else None
    case ExponentSignNumber => if IsDigit(c) then Some(Put(l, ExponentNumber, c)) else None
    case ExponentNumber => if IsDigit(c) then Some(Put(l, ExponentNumber, c)) else None
    case AnySymbol => None
    case FinalCString => None
  }

  function ApplyInteger(l: Lexer, c: char): Option<Lexer> {
    if IsDigit(c) then Some(Put(l, l.mode, c))
    else if c == '.' then Some(Put(l, Number, c))
    else if c == 'e' || c == 'E' then Some(Put(l, ExponentSymbolNumber, c))
    else None
  }

  /** The bookkeeping of DBCLexer_next after a character has been taken. */
  function Advance(l: Lexer, c: char): Lexer {
    if l.mode == LF then l.(currentColumn := 0, currentLine := l.currentLine + 1, prev := c)
    else l.(currentColumn := l.currentColumn + 1, prev := c)
  }

  // ---------- DBCLexer_finish

  datatype Finished = TokenDone(lexer: Lexer, token: Token) | WaitSymbol | NumberError | StringError

  function TypeOf(mode: Mode): Option<TokenType> {
    match mode
    case LF => Some(SymbolToken)
    case CRLF => Some(SymbolToken)
    case AnySymbol => Some(SymbolToken)
    case PlusSymbol => Some(SymbolToken)
    case MinusSymbol => Some(SymbolToken)
    case CIdentifier => Some(IdentifierToken)
    case FinalCString => Some(StringToken)
    case SInteger => Some(SIntegerToken)
    case UInteger => Some(UIntegerToken)
    case Number => Some(NumberToken)
    case ExponentNumber => Some(NumberToken)
    case _ => None
  }

  function Finish(l: Lexer): Finished
    requires l.start <= |l.text|
  {
    if l.mode == Init then WaitSymbol
    else if l.mode == CString || l.mode == EscapeCString then StringError
    else if TypeOf(l.mode).None? then NumberError
    else
      var data := l.text[l.start..];
      var text := if data == "" then l.text else l.text + [NIL];
      TokenDone(l.(mode := Init, indent := 0, text := text, start := |text|),
                Token(TypeOf(l.mode).value, l.tokenLine, l.tokenColumn, l.indent, if data == "" then Static else Buffer(l.start), data))
  }

  // ---------- what the tokens look like

  predicate AllDigits(s: string) {
    forall i :: 0 <= i < |s| ==> IsDigit(s[i])
  }

  predicate AllIdentifier(s: string) {
    forall i :: 0 <= i < |s| ==> IsNextIdentifier(s[i])
  }

  /** What the type of a token says about its characters. */
  predicate TokenOk(t: Token) {
    match t.kind
    case IdentifierToken => t.data != "" && AllIdentifier(t.data)
    case SymbolToken => |t.data| == 1 && !IsNextIdentifier(t.data[0]) && !IsSpace(t.data[0]) && t.data[0] != '"'
    case UIntegerToken => t.data != "" && AllDigits(t.data)
    case SIntegerToken => |t.data| > 1 && (t.data[0] == '+' || t.data[0] == '-') && AllDigits(t.data[1..])
    case NumberToken => t.data != ""
    case StringToken => true
  }

  /** What the current mode says about the characters of the token so far. */
  predicate PartOk(mode: Mode, s: string) {
    match mode
    case Init => s == ""
    case CRLF => s == "\n"
    case LF => s == "\n"
    case AnySymbol => |s| == 1 && !IsNextIdentifier(s[0]) && !IsSpace(s[0]) && s[0] != '"'
    case PlusSymbol => s == "+"
    case MinusSymbol => s == "-"
    case CIdentifier => s != "" && AllIdentifier(s)
    case UInteger => s != "" && AllDigits(s)
    case SInteger => |s| > 1 && (s[0] == '+' || s[0] == '-') && AllDigits(s[1..])
    case CString => true
    case EscapeCString => true
    case FinalCString => true
    case Number => s != ""
    case ExponentSymbolNumber => s != ""
    case ExponentSignNumber => s != ""
    case ExponentNumber => s != ""
  }

  predicate LexInv(l: Lexer) {
    && l.start <= |l.text| <= BUFFER_SIZE && (l.mode != Init ==> |l.text| < BUFFER_SIZE)
    && PartOk(l.mode, l.text[l.start..])
  }

  lemma PutInv(l: Lexer, mode: Mode, c: char)
    requires LexInv(l) && |l.text| < BUFFER_SIZE - 1 && mode != Init && PartOk(mode, l.text[l.start..] + [c])
    ensures LexInv(Put(l, mode, c))
  {
    assert Put(l, mode, c).text[l.start..] == l.text[l.start..] + [c];
  }

  /** The characters that can start a token. */
  lemma ApplyInitInv(l: Lexer, c: char)
    requires LexInv(l) && |l.text| < BUFFER_SIZE - 1 && l.mode == Init
    ensures LexInv(ApplyInit(l, c)) && ApplyInit(l, c).start == l.start && l.text <= ApplyInit(l, c).text
  {
  }

  lemma SameText(l: Lexer, m: Lexer)
    requires LexInv(l) && l.start == m.start && l.text == m.text && |l.text| < BUFFER_SIZE
    requires PartOk(m.mode, l.text[l.start..])
    ensures LexInv(m)
  {
  }

  /** A character that is taken keeps the invariant; there was room for it. */
  lemma ApplyInv(l: Lexer, c: char)
    requires LexInv(l) && |l.text| < BUFFER_SIZE - 1 && Apply(l, c).Some?
    ensures LexInv(Apply(l, c).value) && Apply(l, c).value.start == l.start && l.text <= Apply(l, c).value.text
  {
    hide LexInv, AllDigits, AllIdentifier, IsNextIdentifier;
    if l.mode == Init {
      ApplyInitInv(l, c);
    } else {
      var m := Apply(l, c).value;
      assert l.start <= |l.text| && PartOk(l.mode, l.text[l.start..]) by { PartOf(l); }
      var s := l.text[l.start..];
      if m.text == l.text {
        SameText(l, m);
      } else {
        assert m == Put(l, m.mode, c);
        PartAppend(l.mode, s, c, m.mode);
        PutInv(l, m.mode, c);
      }
    }
  }

  lemma PartOf(l: Lexer)
    requires LexInv(l)
    ensures l.start <= |l.text| && PartOk(l.mode, l.text[l.start..])
  {
  }

  /** The ways a token goes on. */
  lemma PartAppend(mode: Mode, s: string, c: char, next: Mode)
    requires PartOk(mode, s)
    requires match next
      case CString => true
      case CIdentifier => (mode == CIdentifier || mode == UInteger) && IsNextIdentifier(c)
      case UInteger => mode == UInteger && IsDigit(c)
      case SInteger => (mode == PlusSymbol || mode == MinusSymbol || mode == SInteger) && IsDigit(c)
      case Number => true
      case ExponentSymbolNumber => true
      case ExponentSignNumber => true
      case ExponentNumber => true
      case _ => false
    ensures PartOk(next, s + [c])
  {
  }

  /** From Init every character is taken. */
  lemma InitTakesAll(l: Lexer, c: char)
    requires l.mode == Init
    ensures Apply(l, c).Some?
  {
  }

  /** A finished token is well-formed, lies NUL-terminated in the buffer and leaves the lexer in Init; only an
      open string or number is an error, and the case kLexerInternalError does not occur. */
  lemma FinishInv(l: Lexer)
    requires LexInv(l)
    ensures match Finish(l)
      case TokenDone(n, t) =>
        && TokenOk(t) && n.mode == Init && n.start == |n.text| <= BUFFER_SIZE && l.text <= n.text
        && InBuffer(t.place, t.data, n.text) && (t.place.Buffer? ==> t.place.at == l.start) && LexInv(n)
      case WaitSymbol => l.mode == Init
      case NumberError => l.mode == ExponentSymbolNumber || l.mode == ExponentSignNumber
      case StringError => l.mode == CString || l.mode == EscapeCString
  {
  }

  /** The string is where its place says, with a NUL behind it. */
  predicate InBuffer(place: Place, data: string, text: string) {
    match place
    case Static => true
    case Buffer(at) => at + |data| < |text| && text[at..at + |data|] == data && text[at + |data|] == NIL
  }
}
