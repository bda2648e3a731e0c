/** Why a text is refused: what each kind of mistake is answered with, behind any beginning that is right. */
module JsonErrors {
  import opened Wrappers
  import opened JsonGrammar
  import opened JsonMachine
  import opened JsonMachineProofs
  import opened JsonLexer
  import opened JsonLexerProofs

  // ----- tokens -----

  lemma ErrorsStay(m: Machine, a: seq<Token>, b: seq<Token>)
    requires Run(m, a).Err?
    ensures Run(m, a + b) == Run(m, a)
  {
    RunConcat(m, a, b);
  }

  lemma NothingIsEmpty()
    ensures ParseTokens([]) == Err(Empty)
  {
  }

  lemma AnythingBehindAValueIsTrailing(v: Json, t: Token, rest: seq<Token>)
    requires Fits(v, 0)
    ensures ParseTokens(Toks(v) + ([t] + rest)) == Err(TrailingData)
  {
    ValuesWithinLimitsAreRead(v);
    var end := Run(INITIAL, Toks(v)).value;
    RunConcat(INITIAL, Toks(v), [t] + rest);
    assert Step(end, t) == Err(TrailingData);
  }

  /** The first entries of a container, within the limits. */
  predicate IsBegun(kind: Kind, es: seq<Entry>) {
    EntriesFit(kind, es, 1)
  }

  function Beginning(kind: Kind, es: seq<Entry>): seq<Token> {
    [Open(kind)] + EntriesToks(es)
  }

  function AfterBeginning(kind: Kind, es: seq<Entry>): Machine {
    Machine([Frame(kind, if es == [] then InitialOrEnd else CommaOrEnd, None, es, NoChild)], true, None)
  }

  lemma BeginningIsRead(kind: Kind, es: seq<Entry>)
    requires IsBegun(kind, es)
    ensures Run(INITIAL, Beginning(kind, es)) == Ok(AfterBeginning(kind, es))
  {
    var begun := Machine([Frame(kind, InitialOrEnd, None, [], NoChild)], true, None);
    assert [] + [begun.stack[0]] == begun.stack;
    assert Step(INITIAL, Open(kind)) == Ok(begun);
    RunCons(INITIAL, Open(kind), EntriesToks(es));
    RunReadsEntries(begun, Container(kind, es), |es|);
    assert es[..|es|] == es;
    assert FilledWith(begun, es).stack == AfterBeginning(kind, es).stack;
  }

  lemma UnclosedContainersAreUnterminated(kind: Kind, es: seq<Entry>)
    requires IsBegun(kind, es)
    ensures ParseTokens(Beginning(kind, es)) == Err(UnterminatedContainer)
  {
    BeginningIsRead(kind, es);
  }

  /** A beginning and what comes next. */
  lemma Behind(kind: Kind, es: seq<Entry>, tokens: seq<Token>, rest: seq<Token>)
    requires IsBegun(kind, es) && Run(AfterBeginning(kind, es), tokens).Err?
    ensures ParseTokens(Beginning(kind, es) + (tokens + rest)) == Err(Run(AfterBeginning(kind, es), tokens).error)
  {
    BeginningIsRead(kind, es);
    ErrorsStay(AfterBeginning(kind, es), tokens, rest);
    RunConcat(INITIAL, Beginning(kind, es), tokens + rest);
  }

  predicate StartsValue(t: Token) {
    t.Literal? || t.Str? || t.Open?
  }

  lemma EntriesNeedSeparators(kind: Kind, es: seq<Entry>, t: Token, rest: seq<Token>)
    requires IsBegun(kind, es) && es != [] && t != Comma && t != Close(kind)
    ensures ParseTokens(Beginning(kind, es) + ([t] + rest))
         == Err(if kind.ArrayKind? then InvalidArraySeparator else InvalidObjectSeparator)
  {
    RunOne(AfterBeginning(kind, es), t);
    Behind(kind, es, [t], rest);
  }

  lemma ArraysNeedValues(es: seq<Entry>, t: Token, rest: seq<Token>)
    requires IsBegun(ArrayKind, es) && es != [] && !StartsValue(t)
    ensures ParseTokens(Beginning(ArrayKind, es) + ([Comma, t] + rest)) == Err(InvalidArrayValue)
  {
    RunTwo(ArrayKind, es, t);
    Behind(ArrayKind, es, [Comma, t], rest);
  }

  function AfterComma(kind: Kind, es: seq<Entry>): Machine {
    Machine([Frame(kind, if kind.ArrayKind? then ValueStage else KeyStage, None, es, NoChild)], true, None)
  }

  lemma RunTwo(kind: Kind, es: seq<Entry>, t: Token)
    requires es != []
    ensures Run(AfterBeginning(kind, es), [Comma, t]) == Step(AfterComma(kind, es), t)
  {
    assert Step(AfterBeginning(kind, es), Comma) == Ok(AfterComma(kind, es)) by {
      assert AfterBeginning(kind, es).stack[0 := AfterComma(kind, es).stack[0]] == AfterComma(kind, es).stack;
    }
    assert [Comma, t][1..] == [t];
    RunOne(AfterComma(kind, es), t);
  }

  lemma ObjectsNeedKeys(es: seq<Entry>, t: Token, rest: seq<Token>)
    requires IsBegun(ObjectKind, es) && es != []
    ensures !t.Str? ==> ParseTokens(Beginning(ObjectKind, es) + ([Comma, t] + rest)) == Err(InvalidKey)
    ensures t.Str? && |t.units| > 1_024 ==> ParseTokens(Beginning(ObjectKind, es) + ([Comma, t] + rest)) == Err(OverlongKey)
  {
    RunTwo(ObjectKind, es, t);
    if !t.Str? || |t.units| > 1_024 { Behind(ObjectKind, es, [Comma, t], rest); }
  }

  function AfterKey(es: seq<Entry>, key: Units): Machine {
    Machine([Frame(ObjectKind, ColonStage, Some(key), es, NoChild)], true, None)
  }

  function AfterColon(es: seq<Entry>, key: Units): Machine {
    Machine([Frame(ObjectKind, ValueStage, Some(key), es, NoChild)], true, None)
  }

  lemma RunKey(es: seq<Entry>, key: Units, t: Token)
    requires es != [] && |key| <= 1_024
    ensures Run(AfterBeginning(ObjectKind, es), [Comma, Str(key), t]) == Step(AfterKey(es, key), t)
  {
    RunTwo(ObjectKind, es, Str(key));
    assert AfterComma(ObjectKind, es).stack[0 := AfterKey(es, key).stack[0]] == AfterKey(es, key).stack;
    assert Step(AfterComma(ObjectKind, es), Str(key)) == Ok(AfterKey(es, key));
    assert [Comma, Str(key), t] == [Comma, Str(key)] + [t];
    RunConcat(AfterBeginning(ObjectKind, es), [Comma, Str(key)], [t]);
    RunOne(AfterKey(es, key), t);
  }

  lemma KeysNeedColons(es: seq<Entry>, key: Units, t: Token, rest: seq<Token>)
    requires IsBegun(ObjectKind, es) && es != [] && |key| <= 1_024 && t != Colon
    ensures ParseTokens(Beginning(ObjectKind, es) + ([Comma, Str(key), t] + rest)) == Err(MissingSeparator)
  {
    RunKey(es, key, t);
    Behind(ObjectKind, es, [Comma, Str(key), t], rest);
  }

  lemma RunPair(es: seq<Entry>, key: Units, t: Token)
    requires es != [] && |key| <= 1_024
    ensures Run(AfterBeginning(ObjectKind, es), [Comma, Str(key), Colon, t]) == Step(AfterColon(es, key), t)
  {
    RunKey(es, key, Colon);
    assert AfterKey(es, key).stack[0 := AfterColon(es, key).stack[0]] == AfterColon(es, key).stack;
    assert Step(AfterKey(es, key), Colon) == Ok(AfterColon(es, key));
    assert [Comma, Str(key), Colon, t] == [Comma, Str(key), Colon] + [t];
    RunConcat(AfterBeginning(ObjectKind, es), [Comma, Str(key), Colon], [t]);
    RunOne(AfterColon(es, key), t);
  }

  /** Behind a key: a full object is over its limit, a key that was there is a duplicate, and what is no value
      is not one. */
  lemma PairsAreRefused(es: seq<Entry>, key: Units, t: Token, rest: seq<Token>)
    requires IsBegun(ObjectKind, es) && es != [] && |key| <= 1_024
    ensures var answer := ParseTokens(Beginning(ObjectKind, es) + ([Comma, Str(key), Colon, t] + rest));
            && (!StartsValue(t) ==> answer == Err(InvalidObjectValue))
            && (StartsValue(t) && |es| == 100 ==> answer == Err(EntryLimit))
            && (StartsValue(t) && |es| < 100 && (exists e <- es :: e.key == Some(key)) ==> answer == Err(DuplicateKey))
  {
    RunPair(es, key, t);
    var repeated := exists e <- es :: e.key == Some(key);
    if e :| e in es && e.key == Some(key) {
      var i :| 0 <= i < |es| && es[i] == e;
      assert HasKey(Top(AfterColon(es, key)), Some(key));
    }
    if !StartsValue(t) || |es| == 100 || repeated {
      Behind(ObjectKind, es, [Comma, Str(key), Colon, t], rest);
    }
  }

  lemma FullArraysAreOverTheLimit(es: seq<Entry>, t: Token, rest: seq<Token>)
    requires IsBegun(ArrayKind, es) && |es| == 100 && StartsValue(t)
    ensures ParseTokens(Beginning(ArrayKind, es) + ([Comma, t] + rest)) == Err(EntryLimit)
  {
    RunTwo(ArrayKind, es, t);
    Behind(ArrayKind, es, [Comma, t], rest);
  }

  function Opens(n: nat): seq<Token> {
    if n == 0 then [] else Opens(n - 1) + [Open(ArrayKind)]
  }

  lemma {:induction false} OpensNest(n: nat)
    requires n <= 12
    ensures Run(INITIAL, Opens(n)).Ok? && |Run(INITIAL, Opens(n)).value.stack| == n
    ensures var m := Run(INITIAL, Opens(n)).value;
            if n == 0 then m == INITIAL else Top(m) == Frame(ArrayKind, InitialOrEnd, None, [], NoChild)
  {
    if n > 0 {
      OpensNest(n - 1);
      var m := Run(INITIAL, Opens(n - 1)).value;
      RunConcat(INITIAL, Opens(n - 1), [Open(ArrayKind)]);
      RunOne(m, Open(ArrayKind));
    }
  }

  /** A container in the twelfth is too deep. */
  lemma ThirteenthContainerIsTooDeep(kind: Kind, rest: seq<Token>)
    ensures ParseTokens(Opens(12) + ([Open(kind)] + rest)) == Err(DepthLimit)
  {
    OpensNest(12);
    var m := Run(INITIAL, Opens(12)).value;
    RunOne(m, Open(kind));
    ErrorsStay(m, [Open(kind)], rest);
    RunConcat(INITIAL, Opens(12), [Open(kind)] + rest);
  }

  // ----- strings -----

  lemma {:induction false} BeginningOfString(text: Units, i: nat, sofar: Units, ws: seq<Units>, units: Units)
    requires SpellsUnits(ws, units) && At(text, i, Joined(ws))
    ensures i + |Joined(ws)| <= |text|
    ensures ScanString(text, i, sofar) == ScanString(text, i + |Joined(ws)|, sofar + units)
    decreases |ws|
  {
    if ws == [] {
      assert sofar + units == sofar;
    } else {
      var w, u := ws[0], units[0];
      assert units == [u] + units[1..];
      AtSplit(text, i, w, Joined(ws[1..]));
      UnitIsScanned(text, i, sofar, w, u);
      BeginningOfString(text, i + |w|, sofar + [u], ws[1..], units[1..]);
      Associate(sofar, [u], units[1..]);
    }
  }

  /** Behind any spelled units: the end of the text leaves the string unterminated, a control character is not
      allowed, and neither is a backslash that begins no escape. */
  lemma StringsAreRefused(text: Units, i: nat, ws: seq<Units>, units: Units)
    requires SpellsUnits(ws, units) && At(text, i, Joined(ws))
    ensures var k := i + |Joined(ws)|;
            && (k == |text| ==> ScanString(text, i, []) == Failed(UnterminatedString))
            && (k < |text| && text[k] < 0x20 ==> ScanString(text, i, []) == Failed(InvalidString))
            && (k < |text| && text[k] == 0x5C && (forall w, u :: SpellsUnit(w, u) ==> !At(text, k, w)) ==>
                  ScanString(text, i, []) == Failed(InvalidEscape))
  {
    var k := i + |Joined(ws)|;
    BeginningOfString(text, i, [], ws, units);
    assert [] + units == units;
    if k < |text| && text[k] == 0x5C && forall w, u :: SpellsUnit(w, u) ==> !At(text, k, w) {
      NoEscape(text, k);
    }
  }

  lemma NoEscape(text: Units, k: nat)
    requires k < |text| && text[k] == 0x5C && forall w, u :: SpellsUnit(w, u) ==> !At(text, k, w)
    ensures !(k + 1 < |text| && ShortEscape(text[k + 1]).Some?) && !HexEscapeAt(text, k + 1)
  {
    if k + 1 < |text| && ShortEscape(text[k + 1]).Some? {
      ShortEscapeIsRead(text[k + 1], ShortEscape(text[k + 1]).value);
      assert SpellsUnit([0x5C, text[k + 1]], ShortEscape(text[k + 1]).value);
      assert false;
    }
    if HexEscapeAt(text, k + 1) {
      var w, u := HexSpells(text[k + 2], text[k + 3], text[k + 4], text[k + 5]);
      assert At(text, k, w);
      assert false;
    }
  }

  lemma HexSpells(d0: CodeUnit, d1: CodeUnit, d2: CodeUnit, d3: CodeUnit) returns (w: Units, u: CodeUnit)
    requires HexValue(d0).Some? && HexValue(d1).Some? && HexValue(d2).Some? && HexValue(d3).Some?
    ensures w == [BACKSLASH, LETTER_U, d0, d1, d2, d3] && SpellsUnit(w, u)
  {
    w, u := [BACKSLASH, LETTER_U, d0, d1, d2, d3], HexUnit(d0, d1, d2, d3);
    DigitsOf(HexValue(d0).value, HexValue(d1).value, HexValue(d2).value, HexValue(d3).value);
    HexDigitIsRead(d0, u / 0x1000);
    HexDigitIsRead(d1, u / 0x100 % 0x10);
    HexDigitIsRead(d2, u / 0x10 % 0x10);
    HexDigitIsRead(d3, u % 0x10);
  }
}
