/** Reading one token of serialised runtime state (devtools-panel.js). */
module JsonLexer {
  import opened Wrappers
  import opened JsonGrammar
  import opened JsonMachine

  // ----- characters -----

  const QUOTE: CodeUnit := 0x22
  const BACKSLASH: CodeUnit := 0x5C
  const MINUS: CodeUnit := 0x2D
  const DOT: CodeUnit := 0x2E
  const ZERO: CodeUnit := 0x30
  const LETTER_U: CodeUnit := 0x75
  const TRUE_WORD: Units := [0x74, 0x72, 0x75, 0x65]
  const FALSE_WORD: Units := [0x66, 0x61, 0x6C, 0x73, 0x65]
  const NULL_WORD: Units := [0x6E, 0x75, 0x6C, 0x6C]

  predicate IsSpace(u: CodeUnit) {
    u == 0x09 || u == 0x0A || u == 0x0D || u == 0x20
  }

  predicate IsDigit(u: CodeUnit) {
    0x30 <= u <= 0x39
  }

  predicate IsExponentMark(u: CodeUnit) {
    u == 0x65 || u == 0x45
  }

  predicate IsSign(u: CodeUnit) {
    u == 0x2B || u == 0x2D
  }

  /** Letters, digits, `_` and `$`: what may not follow a keyword. */
  predicate IsWordUnit(u: CodeUnit) {
    IsDigit(u) || 0x41 <= u <= 0x5A || 0x61 <= u <= 0x7A || u == 0x5F || u == 0x24
  }

  function HexValue(u: CodeUnit): (v: Option<nat>)
    ensures v.Some? ==> v.value < 16
  {
    if IsDigit(u) then Some(u - 0x30)
    else if 0x41 <= u <= 0x46 then Some(u - 0x41 + 10)
    else if 0x61 <= u <= 0x66 then Some(u - 0x61 + 10)
    else None
  }

  /** The meaning of the one-letter escapes. */
  function ShortEscape(u: CodeUnit): Option<CodeUnit> {
    if u == QUOTE || u == BACKSLASH || u == 0x2F then Some(u)
    else if u == 0x62 then Some(0x08)
    else if u == 0x66 then Some(0x0C)
    else if u == 0x6E then Some(0x0A)
    else if u == 0x72 then Some(0x0D)
    else if u == 0x74 then Some(0x09)
    else None
  }

  function Punctuation(u: CodeUnit): Option<Token> {
    if u == 0x7B then Some(Open(ObjectKind))
    else if u == 0x7D then Some(Close(ObjectKind))
    else if u == 0x5B then Some(Open(ArrayKind))
    else if u == 0x5D then Some(Close(ArrayKind))
    else if u == 0x3A then Some(Colon)
    else if u == 0x2C then Some(Comma)
    else None
  }

  /** What four hexadecimal digits stand for. */
  function HexUnit(d0: CodeUnit, d1: CodeUnit, d2: CodeUnit, d3: CodeUnit): CodeUnit
    requires HexValue(d0).Some? && HexValue(d1).Some? && HexValue(d2).Some? && HexValue(d3).Some?
  {
    HexValue(d0).value * 0x1000 + HexValue(d1).value * 0x100 + HexValue(d2).value * 0x10 + HexValue(d3).value
  }

  // ----- scanning -----

  datatype Scan<+T> = Scanned(value: T, next: nat) | Failed(error: Error)

  function SkipSpace(text: Units, i: nat): nat
    decreases |text| - i
  {
    if i < |text| && IsSpace(text[i]) then SkipSpace(text, i + 1) else i
  }

  function SkipDigits(text: Units, i: nat): nat
    decreases |text| - i
  {
    if i < |text| && IsDigit(text[i]) then SkipDigits(text, i + 1) else i
  }

  predicate DigitAt(text: Units, i: nat) {
    i < |text| && IsDigit(text[i])
  }

  /** The rest of a string after its opening quote, decoded behind `sofar`. */
  function ScanString(text: Units, i: nat, sofar: Units): Scan<Units>
    decreases |text| - i
  {
    if i >= |text| then Failed(UnterminatedString)
    else if text[i] < 0x20 then Failed(InvalidString)
    else if text[i] == QUOTE then Scanned(sofar, i + 1)
    else if text[i] != BACKSLASH then ScanString(text, i + 1, sofar + [text[i]])
    else if i + 1 < |text| && ShortEscape(text[i + 1]).Some? then
      ScanString(text, i + 2, sofar + [ShortEscape(text[i + 1]).value])
    else if HexEscapeAt(text, i + 1) then
      ScanString(text, i + 6, sofar + [HexUnit(text[i + 2], text[i + 3], text[i + 4], text[i + 5])])
    else Failed(InvalidEscape)
  }

  /** `u` and four hexadecimal digits. */
  predicate HexEscapeAt(text: Units, i: nat) {
    && i + 4 < |text| && text[i] == LETTER_U
    && HexValue(text[i + 1]).Some? && HexValue(text[i + 2]).Some?
    && HexValue(text[i + 3]).Some? && HexValue(text[i + 4]).Some?
  }

  function ScanWhole(text: Units, i: nat): Scan<()> {
    if i < |text| && text[i] == ZERO then
      if DigitAt(text, i + 1) then Failed(InvalidNumber) else Scanned((), i + 1)
    else if DigitAt(text, i) then Scanned((), SkipDigits(text, i))
    else Failed(UnsupportedToken)
  }

  function ScanFraction(text: Units, i: nat): Scan<()> {
    if !(i < |text| && text[i] == DOT) then Scanned((), i)
    else if !DigitAt(text, i + 1) then Failed(InvalidNumber)
    else Scanned((), SkipDigits(text, i + 1))
  }

  function ScanExponent(text: Units, i: nat): Scan<()> {
    if !(i < |text| && IsExponentMark(text[i])) then Scanned((), i)
    else
      var j := if i + 1 < |text| && IsSign(text[i + 1]) then i + 2 else i + 1;
      if !DigitAt(text, j) then Failed(InvalidNumber) else Scanned((), SkipDigits(text, j))
  }

  function ScanNumber(text: Units, i: nat): Scan<()> {
    var afterSign := if i < |text| && text[i] == MINUS then i + 1 else i;
    var whole := ScanWhole(text, afterSign);
    if whole.Failed? then whole
    else
      var fraction := ScanFraction(text, whole.next);
      if fraction.Failed? then fraction else ScanExponent(text, fraction.next)
  }

  /** `w` stands at `i`. */
  predicate At(text: Units, i: nat, w: Units) {
    i + |w| <= |text| && forall k :: 0 <= k < |w| ==> text[i + k] == w[k]
  }

  predicate KeywordAt(text: Units, i: nat, word: Units) {
    At(text, i, word) && !(i + |word| < |text| && IsWordUnit(text[i + |word|]))
  }

  datatype Lexed = End | Lexed(token: Token, next: nat) | LexError(error: Error)

  /** The token at `i`, where no white space is left. */
  function LexWord(finite: Units -> bool, text: Units, i: nat): Lexed
    requires i < |text|
  {
    if Punctuation(text[i]).Some? then Lexed.Lexed(Punctuation(text[i]).value, i + 1)
    else if text[i] == QUOTE then
      match ScanString(text, i + 1, [])
      case Scanned(units, next) => Lexed.Lexed(Str(units), next)
      case Failed(e) => LexError(e)
    else if KeywordAt(text, i, TRUE_WORD) then Lexed.Lexed(Literal(Bool(true)), i + 4)
    else if KeywordAt(text, i, FALSE_WORD) then Lexed.Lexed(Literal(Bool(false)), i + 5)
    else if KeywordAt(text, i, NULL_WORD) then Lexed.Lexed(Literal(Null), i + 4)
    else
      match ScanNumber(text, i)
      case Failed(e) => LexError(e)
      case Scanned(_, next) =>
        if i <= next <= |text| && finite(text[i..next]) then Lexed.Lexed(Literal(Number(text[i..next])), next)
        else LexError(NonFiniteNumber)
  }

  function Lex(finite: Units -> bool, text: Units, i: nat): Lexed {
    var start := SkipSpace(text, i);
    if start >= |text| then End else LexWord(finite, text, start)
  }

  // ----- progress -----

  lemma SkipSpaceSpec(text: Units, i: nat)
    ensures SkipSpace(text, i) >= i && (i <= |text| ==> SkipSpace(text, i) <= |text|)
    ensures forall k :: i <= k < SkipSpace(text, i) && k < |text| ==> IsSpace(text[k])
    ensures SkipSpace(text, i) < |text| ==> !IsSpace(text[SkipSpace(text, i)])
    decreases |text| - i
  {
  }

  lemma SkipDigitsSpec(text: Units, i: nat)
    ensures SkipDigits(text, i) >= i && (i <= |text| ==> SkipDigits(text, i) <= |text|)
    ensures forall k :: i <= k < SkipDigits(text, i) && k < |text| ==> IsDigit(text[k])
    ensures SkipDigits(text, i) < |text| ==> !IsDigit(text[SkipDigits(text, i)])
    ensures DigitAt(text, i) ==> SkipDigits(text, i) > i
    decreases |text| - i
  {
  }

  lemma ScanStringAdvances(text: Units, i: nat, sofar: Units)
    ensures ScanString(text, i, sofar).Scanned? ==> i < ScanString(text, i, sofar).next <= |text|
    decreases |text| - i
  {
  }

  lemma LexAdvances(finite: Units -> bool, text: Units, i: nat)
    ensures Lex(finite, text, i).Lexed? ==> i < Lex(finite, text, i).next <= |text|
  {
    SkipSpaceSpec(text, i);
    var start := SkipSpace(text, i);
    if start < |text| {
      ScanStringAdvances(text, start + 1, []);
      ScanNumberAdvances(text, start);
    }
  }

  lemma ScanNumberAdvances(text: Units, i: nat)
    ensures ScanNumber(text, i).Scanned? ==> i < ScanNumber(text, i).next <= |text|
  {
    var afterSign := if i < |text| && text[i] == MINUS then i + 1 else i;
    SkipDigitsSpec(text, afterSign);
    var whole := ScanWhole(text, afterSign);
    if whole.Scanned? {
      SkipDigitsSpec(text, whole.next + 1);
      var fraction := ScanFraction(text, whole.next);
      if fraction.Scanned? {
        SkipDigitsSpec(text, fraction.next + 1);
        SkipDigitsSpec(text, fraction.next + 2);
      }
    }
  }
}
