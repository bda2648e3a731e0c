/** JSON values, and which texts spell them: the grammar of RFC 8259 over UTF-16 code units, with its
    characters and limits written out as numbers. Nothing here is used by the scanner or the machine. */
module JsonGrammar {
  import opened Wrappers

  /** A UTF-16 code unit, as JavaScript strings have them. */
  type CodeUnit = u: int | 0 <= u < 0x1_0000

  type Units = seq<CodeUnit>

  datatype Kind = ArrayKind | ObjectKind

  /** Array entries have no key. */
  datatype Entry = Entry(key: Option<Units>, value: Json)

  /** Numbers are kept as they are spelled. */
  datatype Json = Null | Bool(truth: bool) | Number(word: Units) | String(units: Units) | Container(kind: Kind, entries: seq<Entry>)

  datatype Token = Open(kind: Kind) | Close(kind: Kind) | Colon | Comma | Str(units: Units) | Literal(value: Json)

  // ----- the grammar of RFC 8259, sections 2 to 5, over tokens: the tokens of each value -----

  function Toks(v: Json): seq<Token>
    decreases v, 0
  {
    match v
    case String(units) => [Str(units)]
    case Container(kind, es) => [Open(kind)] + EntriesToks(es) + [Close(kind)]
    case _ => [Literal(v)]
  }

  function EntriesToks(es: seq<Entry>): seq<Token>
    decreases es, 0
  {
    if es == [] then []
    else if |es| == 1 then EntryToks(es[0])
    else EntriesToks(es[..|es| - 1]) + [Comma] + EntryToks(es[|es| - 1])
  }

  function EntryToks(e: Entry): seq<Token>
    decreases e, 1
  {
    KeyToks(e.key) + Toks(e.value)
  }

  function KeyToks(key: Option<Units>): seq<Token> {
    if key.Some? then [Str(key.value), Colon] else []
  }

  // ----- the limits -----

  /** Objects have keys and arrays have none; containers nest, are filled and are keyed within
      the limits; no object repeats a key. `depth` containers already enclose the value. */
  predicate Fits(v: Json, depth: nat)
    decreases v, 0
  {
    v.Container? ==> depth < 12 && EntriesFit(v.kind, v.entries, depth + 1)
  }

  predicate EntriesFit(kind: Kind, es: seq<Entry>, depth: nat)
    decreases es, 0
  {
    && |es| <= 100
    && (forall i :: 0 <= i < |es| ==> EntryFits(kind, es[i], depth))
    && (kind.ObjectKind? ==> forall i, j :: 0 <= i < j < |es| ==> es[i].key != es[j].key)
  }

  predicate EntryFits(kind: Kind, e: Entry, depth: nat)
    decreases e, 0
  {
    KeyFits(kind, e.key) && Fits(e.value, depth)
  }

  predicate KeyFits(kind: Kind, key: Option<Units>) {
    match kind
    case ArrayKind => key.None?
    case ObjectKind => key.Some? && |key.value| <= 1_024
  }

  // ----- words (sections 2, 3, 6 and 7) -----

  predicate IsWhite(u: CodeUnit) {
    u == 0x20 || u == 0x09 || u == 0x0A || u == 0x0D
  }

  /** `c` is the hexadecimal digit for `v`, in either case. */
  predicate IsHexDigit(c: CodeUnit, v: nat) {
    || (v < 10 && c == 0x30 + v)
    || (10 <= v < 16 && c == 0x41 + (v - 10))
    || (10 <= v < 16 && c == 0x61 + (v - 10))
  }

  /** The letter that, behind a backslash, stands for a unit. */
  predicate IsShortEscape(letter: CodeUnit, u: CodeUnit) {
    || (letter == 0x22 && u == 0x22) || (letter == 0x5C && u == 0x5C) || (letter == 0x2F && u == 0x2F)
    || (letter == 0x62 && u == 0x08) || (letter == 0x66 && u == 0x0C) || (letter == 0x6E && u == 0x0A)
    || (letter == 0x72 && u == 0x0D) || (letter == 0x74 && u == 0x09)
  }

  /** Inside a string `w` stands for `u`: as itself, as a short escape, or by its four digits. */
  predicate SpellsUnit(w: Units, u: CodeUnit) {
    || (w == [u] && u >= 0x20 && u != 0x22 && u != 0x5C)
    || (|w| == 2 && w[0] == 0x5C && IsShortEscape(w[1], u))
    || (|w| == 6 && w[0] == 0x5C && w[1] == 0x75
        && IsHexDigit(w[2], u / 0x1000) && IsHexDigit(w[3], u / 0x100 % 0x10)
        && IsHexDigit(w[4], u / 0x10 % 0x10) && IsHexDigit(w[5], u % 0x10))
  }

  predicate SpellsUnits(ws: seq<Units>, units: Units) {
    |ws| == |units| && forall i :: 0 <= i < |ws| ==> SpellsUnit(ws[i], units[i])
  }

  function Joined(ws: seq<Units>): Units {
    if ws == [] then [] else ws[0] + Joined(ws[1..])
  }

  ghost predicate IsStringWord(w: Units, units: Units) {
    exists ws: seq<Units> :: SpellsUnits(ws, units) && w == [0x22] + Joined(ws) + [0x22]
  }

  predicate AllDecimal(w: Units) {
    forall i :: 0 <= i < |w| ==> 0x30 <= w[i] <= 0x39
  }

  /** number = [ minus ] int [ frac ] [ exp ] */
  datatype NumberParts = NumberParts(minus: bool, whole: Units, fraction: Option<Units>, exponent: Option<Exponent>)
  datatype Exponent = Exponent(mark: CodeUnit, sign: Option<CodeUnit>, digits: Units)

  predicate PartsValid(n: NumberParts) {
    && n.whole != [] && AllDecimal(n.whole) && (n.whole[0] == 0x30 ==> |n.whole| == 1)
    && (n.fraction.Some? ==> n.fraction.value != [] && AllDecimal(n.fraction.value))
    && (n.exponent.Some? ==> ExponentValid(n.exponent.value))
  }

  predicate ExponentValid(e: Exponent) {
    && (e.mark == 0x65 || e.mark == 0x45)
    && (e.sign.Some? ==> e.sign.value == 0x2B || e.sign.value == 0x2D)
    && e.digits != [] && AllDecimal(e.digits)
  }

  function SpellFraction(f: Option<Units>): Units {
    if f.Some? then [0x2E] + f.value else []
  }

  function SpellExponent(e: Option<Exponent>): Units {
    if e.Some? then [e.value.mark] + (if e.value.sign.Some? then [e.value.sign.value] else []) + e.value.digits else []
  }

  function SpellNumber(n: NumberParts): Units {
    (if n.minus then [0x2D] else []) + n.whole + SpellFraction(n.fraction) + SpellExponent(n.exponent)
  }

  ghost predicate IsNumberWord(w: Units) {
    exists n :: PartsValid(n) && w == SpellNumber(n)
  }

  /** `w` spells the token; numbers must also be finite. */
  ghost predicate IsWord(finite: Units -> bool, w: Units, t: Token) {
    match t
    case Open(kind) => w == if kind.ObjectKind? then [0x7B] else [0x5B]
    case Close(kind) => w == if kind.ObjectKind? then [0x7D] else [0x5D]
    case Colon => w == [0x3A]
    case Comma => w == [0x2C]
    case Str(units) => IsStringWord(w, units)
    case Literal(Null) => w == [0x6E, 0x75, 0x6C, 0x6C]
    case Literal(Bool(b)) => w == if b then [0x74, 0x72, 0x75, 0x65] else [0x66, 0x61, 0x6C, 0x73, 0x65]
    case Literal(Number(word)) => w == word && IsNumberWord(w) && finite(w)
    case Literal(_) => false
  }

  // ----- texts -----

  predicate AllWhite(text: Units, i: nat, k: nat) {
    i <= k <= |text| && forall j :: i <= j < k ==> IsWhite(text[j])
  }

  predicate StandsAt(text: Units, k: nat, w: Units) {
    k + |w| <= |text| && text[k..k + |w|] == w
  }

  /** From `i` on, `text` is the tokens' words in order, with white space around them. */
  ghost predicate Spells(finite: Units -> bool, text: Units, i: nat, tokens: seq<Token>)
    decreases tokens
  {
    if tokens == [] then AllWhite(text, i, |text|)
    else exists k: nat, w: Units ::
      AllWhite(text, i, k) && StandsAt(text, k, w) && IsWord(finite, w, tokens[0]) && Spells(finite, text, k + |w|, tokens[1..])
  }

  // ----- writing a text, in any of the ways that the grammar leaves open -----

  /** How to write a unit of a string: as short as may be, as a short escape where there is one, or by
      its digits, each in upper or lower case. */
  datatype Choice = Shortest | Escaped | ByDigits(upper0: bool, upper1: bool, upper2: bool, upper3: bool)

  /** The choice for each unit of each token, and the white space in front of each token (and behind the
      last one). */
  datatype Style = Style(choice: (nat, nat) -> Choice, space: nat -> Units)

  function HexDigit(v: nat, upper: bool): CodeUnit
    requires v < 16
  {
    if v < 10 then 0x30 + v else if upper then 0x41 + (v - 10) else 0x61 + (v - 10)
  }

  function ByFourDigits(u: CodeUnit, c: Choice): Units
    requires c.ByDigits?
  {
    [0x5C, 0x75, HexDigit(u / 0x1000, c.upper0), HexDigit(u / 0x100 % 0x10, c.upper1),
     HexDigit(u / 0x10 % 0x10, c.upper2), HexDigit(u % 0x10, c.upper3)]
  }

  function WriteUnit(u: CodeUnit, c: Choice): Units {
    if c.ByDigits? then ByFourDigits(u, c)
    else if c.Shortest? && u >= 0x20 && u != 0x22 && u != 0x5C then [u]
    else if u == 0x22 || u == 0x5C || u == 0x2F then [0x5C, u]
    else if u == 0x08 then [0x5C, 0x62]
    else if u == 0x0C then [0x5C, 0x66]
    else if u == 0x0A then [0x5C, 0x6E]
    else if u == 0x0D then [0x5C, 0x72]
    else if u == 0x09 then [0x5C, 0x74]
    else ByFourDigits(u, ByDigits(false, false, false, false))
  }

  function WriteUnits(units: Units, choice: nat -> Choice, from: nat): Units
    requires from <= |units|
    decreases |units| - from
  {
    if from == |units| then [] else WriteUnit(units[from], choice(from)) + WriteUnits(units, choice, from + 1)
  }

  function WriteToken(t: Token, choice: nat -> Choice): Units {
    match t
    case Open(kind) => if kind.ObjectKind? then [0x7B] else [0x5B]
    case Close(kind) => if kind.ObjectKind? then [0x7D] else [0x5D]
    case Colon => [0x3A]
    case Comma => [0x2C]
    case Str(units) => [0x22] + WriteUnits(units, choice, 0) + [0x22]
    case Literal(Null) => [0x6E, 0x75, 0x6C, 0x6C]
    case Literal(Bool(b)) => if b then [0x74, 0x72, 0x75, 0x65] else [0x66, 0x61, 0x6C, 0x73, 0x65]
    case Literal(Number(w)) => w
    case Literal(_) => []
  }

  function WriteTokens(tokens: seq<Token>, style: Style, from: nat): Units
    requires from <= |tokens|
    decreases |tokens| - from
  {
    if from == |tokens| then style.space(from)
    else style.space(from) + WriteToken(tokens[from], (j: nat) => style.choice(from, j)) + WriteTokens(tokens, style, from + 1)
  }

  function Write(v: Json, style: Style): Units {
    WriteTokens(Toks(v), style, 0)
  }

  ghost predicate SpacesAreWhite(style: Style) {
    forall i: nat :: AllWhite(style.space(i), 0, |style.space(i)|)
  }

  /** Numbers carry a word of the grammar that is finite. */
  ghost predicate Writable(finite: Units -> bool, tokens: seq<Token>) {
    forall t <- tokens :: t.Literal? ==>
      !t.value.Container? && !t.value.String? && (t.value.Number? ==> IsNumberWord(t.value.word) && finite(t.value.word))
  }
}
