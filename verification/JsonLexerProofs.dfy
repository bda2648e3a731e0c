/** The scanner reads exactly the words of the grammar. */
module JsonLexerProofs {
  import opened Wrappers
  import opened JsonGrammar
  import opened JsonMachine
  import opened JsonMachineProofs
  import opened JsonLexer

  lemma AtSplit(text: Units, i: nat, a: Units, b: Units)
    ensures At(text, i, a + b) <==> At(text, i, a) && At(text, i + |a|, b)
  {
    if At(text, i, a + b) {
      assert forall k :: 0 <= k < |a| ==> (a + b)[k] == a[k];
      assert forall k :: 0 <= k < |b| ==> text[i + |a| + k] == (a + b)[|a| + k] == b[k];
    }
    if At(text, i, a) && At(text, i + |a|, b) {
      forall k | 0 <= k < |a + b| ensures text[i + k] == (a + b)[k] {
        if k >= |a| { assert text[i + |a| + (k - |a|)] == b[k - |a|]; }
      }
    }
  }

  lemma AtSlice(text: Units, i: nat, w: Units)
    ensures At(text, i, w) <==> i + |w| <= |text| && text[i..i + |w|] == w
  {
    if i + |w| <= |text| && text[i..i + |w|] == w {
      forall k | 0 <= k < |w| ensures text[i + k] == w[k] { assert text[i + k] == text[i..i + |w|][k]; }
    }
  }

  // ----- strings -----

  lemma HexDigitIsRead(c: CodeUnit, v: nat)
    ensures IsHexDigit(c, v) <==> HexValue(c) == Some(v)
  {
  }

  lemma FourDigits(u: CodeUnit)
    ensures u / 0x1000 < 0x10 && u == u / 0x1000 * 0x1000 + u / 0x100 % 0x10 * 0x100 + u / 0x10 % 0x10 * 0x10 + u % 0x10
  {
    assert u / 0x100 == u / 0x10 / 0x10;
    assert u / 0x1000 == u / 0x100 / 0x10;
    assert u / 0x100 == u / 0x1000 * 0x10 + u / 0x100 % 0x10;
    assert u / 0x10 == u / 0x100 * 0x10 + u / 0x10 % 0x10;
  }

  lemma DigitsOf(a: nat, b: nat, c: nat, d: nat)
    requires a < 0x10 && b < 0x10 && c < 0x10 && d < 0x10
    ensures var u := a * 0x1000 + b * 0x100 + c * 0x10 + d;
            u < 0x1_0000 && u / 0x1000 == a && u / 0x100 % 0x10 == b && u / 0x10 % 0x10 == c && u % 0x10 == d
  {
    var u := a * 0x1000 + b * 0x100 + c * 0x10 + d;
    LastDigit(a * 0x100 + b * 0x10 + c, d);
    LastDigit(a * 0x10 + b, c);
    LastDigit(a, b);
    assert u / 0x100 == a * 0x10 + b by { LastTwo(a * 0x10 + b, c * 0x10 + d); }
    assert u / 0x1000 == a by { LastThree(a, b * 0x100 + c * 0x10 + d); }
  }

  lemma LastDigit(q: nat, r: nat)
    requires r < 0x10
    ensures (q * 0x10 + r) / 0x10 == q && (q * 0x10 + r) % 0x10 == r
  {
  }

  lemma LastTwo(q: nat, r: nat)
    requires r < 0x100
    ensures (q * 0x100 + r) / 0x100 == q
  {
  }

  lemma LastThree(q: nat, r: nat)
    requires r < 0x1000
    ensures (q * 0x1000 + r) / 0x1000 == q
  {
  }

  lemma ShortEscapeIsRead(letter: CodeUnit, u: CodeUnit)
    ensures IsShortEscape(letter, u) <==> ShortEscape(letter) == Some(u)
  {
  }

  lemma HexIsRead(w: Units, u: CodeUnit)
    requires |w| == 6 && SpellsUnit(w, u)
    ensures HexValue(w[2]).Some? && HexValue(w[3]).Some? && HexValue(w[4]).Some? && HexValue(w[5]).Some?
    ensures HexUnit(w[2], w[3], w[4], w[5]) == u && w[0] == BACKSLASH && w[1] == LETTER_U
  {
    HexDigitIsRead(w[2], u / 0x1000);
    HexDigitIsRead(w[3], u / 0x100 % 0x10);
    HexDigitIsRead(w[4], u / 0x10 % 0x10);
    HexDigitIsRead(w[5], u % 0x10);
    FourDigits(u);
  }

  /** A spelling of a unit is what the scanner takes for it. */
  lemma UnitIsScanned(text: Units, i: nat, sofar: Units, w: Units, u: CodeUnit)
    requires SpellsUnit(w, u) && At(text, i, w)
    ensures w != [] && i < |text| && text[i] != QUOTE
    ensures ScanString(text, i, sofar) == ScanString(text, i + |w|, sofar + [u])
  {
    assert text[i] == w[0];
    if |w| == 2 {
      assert text[i + 1] == w[1];
      ShortEscapeIsRead(w[1], u);
    } else if |w| == 6 {
      assert text[i + 1] == w[1] && text[i + 2] == w[2] && text[i + 3] == w[3] && text[i + 4] == w[4] && text[i + 5] == w[5];
      HexIsRead(w, u);
    }
  }

  /** What the scanner takes spells a unit. */
  lemma ScannedIsUnit(text: Units, i: nat, sofar: Units) returns (w: Units, u: CodeUnit)
    requires ScanString(text, i, sofar).Scanned? && text[i] != QUOTE
    ensures SpellsUnit(w, u) && At(text, i, w)
  {
    if text[i] != BACKSLASH {
      w, u := [text[i]], text[i];
    } else if i + 1 < |text| && ShortEscape(text[i + 1]).Some? {
      w, u := [BACKSLASH, text[i + 1]], ShortEscape(text[i + 1]).value;
      ShortEscapeIsRead(text[i + 1], u);
    } else {
      w := [BACKSLASH, LETTER_U, text[i + 2], text[i + 3], text[i + 4], text[i + 5]];
      u := HexUnit(w[2], w[3], w[4], w[5]);
      DigitsOf(HexValue(w[2]).value, HexValue(w[3]).value, HexValue(w[4]).value, HexValue(w[5]).value);
      HexDigitIsRead(w[2], u / 0x1000);
      HexDigitIsRead(w[3], u / 0x100 % 0x10);
      HexDigitIsRead(w[4], u / 0x10 % 0x10);
      HexDigitIsRead(w[5], u % 0x10);
    }
  }

  lemma JoinedCons(w: Units, ws: seq<Units>)
    ensures Joined([w] + ws) + [QUOTE] == w + (Joined(ws) + [QUOTE])
  {
    assert ([w] + ws)[1..] == ws;
  }

  lemma SpellsUnitsCons(w: Units, u: CodeUnit, ws: seq<Units>, units: Units)
    requires SpellsUnit(w, u) && SpellsUnits(ws, units)
    ensures SpellsUnits([w] + ws, [u] + units)
  {
  }

  lemma {:induction false} ScanStringSound(text: Units, i: nat, sofar: Units) returns (ws: seq<Units>, units: Units)
    requires ScanString(text, i, sofar).Scanned?
    ensures SpellsUnits(ws, units) && ScanString(text, i, sofar).value == sofar + units
    ensures At(text, i, Joined(ws) + [QUOTE]) && ScanString(text, i, sofar).next == i + |Joined(ws)| + 1
    decreases |text| - i
  {
    if text[i] == QUOTE {
      return [], [];
    }
    var w, u := ScannedIsUnit(text, i, sofar);
    UnitIsScanned(text, i, sofar, w, u);
    var ws', units' := ScanStringSound(text, i + |w|, sofar + [u]);
    ws, units := [w] + ws', [u] + units';
    SpellsUnitsCons(w, u, ws', units');
    Associate(sofar, [u], units');
    JoinedCons(w, ws');
    AtSplit(text, i, w, Joined(ws') + [QUOTE]);
  }

  lemma {:induction false} ScanStringComplete(text: Units, i: nat, sofar: Units, ws: seq<Units>, units: Units)
    requires SpellsUnits(ws, units) && At(text, i, Joined(ws) + [QUOTE])
    ensures ScanString(text, i, sofar) == Scanned(sofar + units, i + |Joined(ws)| + 1)
    decreases |ws|
  {
    if ws == [] {
      assert text[i + 0] == (Joined(ws) + [QUOTE])[0] == QUOTE;
      assert sofar + units == sofar;
    } else {
      var w, u := ws[0], units[0];
      assert ws == [w] + ws[1..] && units == [u] + units[1..];
      JoinedCons(w, ws[1..]);
      AtSplit(text, i, w, Joined(ws[1..]) + [QUOTE]);
      UnitIsScanned(text, i, sofar, w, u);
      ScanStringComplete(text, i + |w|, sofar + [u], ws[1..], units[1..]);
      Associate(sofar, [u], units[1..]);
    }
  }

  /** A string is read behind its opening quote iff it is a word of the grammar. */
  lemma StringIsRead(text: Units, i: nat, next: nat, units: Units)
    requires i <= next <= |text|
    ensures ScanString(text, i, []) == Scanned(units, next) <==> IsStringWord([0x22] + text[i..next], units)
  {
    if ScanString(text, i, []) == Scanned(units, next) { ReadStringIsWord(text, i, next, units); }
    if IsStringWord([0x22] + text[i..next], units) { WordIsReadAsString(text, i, next, units); }
  }

  lemma ReadStringIsWord(text: Units, i: nat, next: nat, units: Units)
    requires i <= next <= |text| && ScanString(text, i, []) == Scanned(units, next)
    ensures IsStringWord([0x22] + text[i..next], units)
  {
    var ws, us := ScanStringSound(text, i, []);
    AtSlice(text, i, Joined(ws) + [QUOTE]);
    assert [] + us == us;
    assert [0x22] + text[i..next] == [0x22] + Joined(ws) + [0x22];
  }

  lemma WordIsReadAsString(text: Units, i: nat, next: nat, units: Units)
    requires i <= next <= |text| && IsStringWord([0x22] + text[i..next], units)
    ensures ScanString(text, i, []) == Scanned(units, next)
  {
    var ws: seq<Units> :| SpellsUnits(ws, units) && [0x22] + text[i..next] == [0x22] + Joined(ws) + [0x22];
    SameBehindTheFirst(text[i..next], Joined(ws) + [QUOTE]);
    AtSlice(text, i, Joined(ws) + [QUOTE]);
    ScanStringComplete(text, i, [], ws, units);
    assert [] + units == units;
  }

  lemma SameBehindTheFirst(a: Units, b: Units)
    requires [0x22] + a == [0x22] + b
    ensures a == b
  {
    assert a == ([0x22] + a)[1..] && b == ([0x22] + b)[1..];
  }

  // ----- numbers -----

  lemma DigitsBetween(text: Units, i: nat)
    requires DigitAt(text, i)
    ensures i < SkipDigits(text, i) <= |text|
    ensures AllDecimal(text[i..SkipDigits(text, i)]) && text[i..SkipDigits(text, i)] != []
  {
    SkipDigitsSpec(text, i);
  }

  lemma {:induction false} SkipDigitsComplete(text: Units, i: nat, w: Units)
    requires At(text, i, w) && AllDecimal(w) && !DigitAt(text, i + |w|)
    ensures SkipDigits(text, i) == i + |w|
    decreases |w|
  {
    if w != [] {
      assert text[i + 0] == w[0];
      AtSplit(text, i, [w[0]], w[1..]);
      assert [w[0]] + w[1..] == w;
      SkipDigitsComplete(text, i + 1, w[1..]);
    }
  }

  lemma WholeSound(text: Units, i: nat) returns (next: nat)
    requires ScanWhole(text, i).Scanned?
    ensures next == ScanWhole(text, i).next && i < next <= |text|
    ensures AllDecimal(text[i..next]) && (text[i] == ZERO ==> next == i + 1)
  {
    next := ScanWhole(text, i).next;
    if text[i] != ZERO { DigitsBetween(text, i); }
  }

  lemma ScanNumberSound(text: Units, i: nat)
    requires ScanNumber(text, i).Scanned?
    ensures i < ScanNumber(text, i).next <= |text| && IsNumberWord(text[i..ScanNumber(text, i).next])
  {
    var minus := i < |text| && text[i] == MINUS;
    var a := if minus then i + 1 else i;
    var b := WholeSound(text, a);
    var fraction, c := FractionSound(text, b);
    var exponent, d := ExponentSound(text, c);
    JoinNumber(text, i, a, b, c, d, NumberParts(minus, text[a..b], fraction, exponent));
  }

  lemma JoinNumber(text: Units, i: nat, a: nat, b: nat, c: nat, d: nat, n: NumberParts)
    requires i <= a < b <= c <= d <= |text| && PartsValid(n)
    requires text[i..a] == (if n.minus then [MINUS] else []) && text[a..b] == n.whole
    requires text[b..c] == SpellFraction(n.fraction) && text[c..d] == SpellExponent(n.exponent)
    ensures IsNumberWord(text[i..d])
  {
    JoinTwo(text, i, a, b);
    JoinTwo(text, i, b, c);
    JoinTwo(text, i, c, d);
    assert text[i..d] == SpellNumber(n);
  }

  lemma JoinTwo(text: Units, i: nat, j: nat, k: nat)
    requires i <= j <= k <= |text|
    ensures text[i..k] == text[i..j] + text[j..k]
  {
  }

  lemma FractionSound(text: Units, i: nat) returns (f: Option<Units>, next: nat)
    requires i <= |text| && ScanFraction(text, i).Scanned?
    ensures next == ScanFraction(text, i).next && i <= next <= |text| && text[i..next] == SpellFraction(f)
    ensures f.Some? ==> f.value != [] && AllDecimal(f.value)
  {
    next := ScanFraction(text, i).next;
    f := None;
    if i < |text| && text[i] == DOT {
      DigitsBetween(text, i + 1);
      f := Some(text[i + 1..next]);
    }
  }

  lemma ExponentSound(text: Units, i: nat) returns (e: Option<Exponent>, next: nat)
    requires i <= |text| && ScanExponent(text, i).Scanned?
    ensures next == ScanExponent(text, i).next && i <= next <= |text| && text[i..next] == SpellExponent(e)
    ensures e.Some? ==> ExponentValid(e.value)
  {
    next := ScanExponent(text, i).next;
    e := None;
    if i < |text| && IsExponentMark(text[i]) {
      var signed := i + 1 < |text| && IsSign(text[i + 1]);
      var j := if signed then i + 2 else i + 1;
      DigitsBetween(text, j);
      e := Some(Exponent(text[i], if signed then Some(text[i + 1]) else None, text[j..next]));
    }
  }

  /** Nothing at `i` that would lengthen a number or a keyword. */
  predicate EndsWord(text: Units, i: nat) {
    i < |text| ==> !IsWordUnit(text[i]) && text[i] != DOT
  }

  lemma WholeComplete(text: Units, i: nat, w: Units)
    requires w != [] && AllDecimal(w) && (w[0] == ZERO ==> |w| == 1) && At(text, i, w) && !DigitAt(text, i + |w|)
    ensures ScanWhole(text, i) == Scanned((), i + |w|)
  {
    assert text[i + 0] == w[0];
    if text[i] != ZERO { SkipDigitsComplete(text, i, w); }
  }

  lemma ScanNumberComplete(text: Units, i: nat, n: NumberParts)
    requires PartsValid(n) && At(text, i, SpellNumber(n)) && EndsWord(text, i + |SpellNumber(n)|)
    ensures ScanNumber(text, i) == Scanned((), i + |SpellNumber(n)|)
  {
    var rest := n.whole + (SpellFraction(n.fraction) + SpellExponent(n.exponent));
    SignSplits(n, rest);
    var a := if n.minus then i + 1 else i;
    SignAt(text, i, n, rest);
    UnsignedComplete(text, a, n);
  }

  lemma SignSplits(n: NumberParts, rest: Units)
    requires rest == n.whole + (SpellFraction(n.fraction) + SpellExponent(n.exponent))
    ensures SpellNumber(n) == (if n.minus then [MINUS] else []) + rest
  {
  }

  /** A minus sign stands where one is spelled, and only there. */
  lemma SignAt(text: Units, i: nat, n: NumberParts, rest: Units)
    requires PartsValid(n) && At(text, i, SpellNumber(n)) && SpellNumber(n) == (if n.minus then [MINUS] else []) + rest
    requires n.whole <= rest
    ensures i < |text| && (text[i] == MINUS <==> n.minus)
    ensures At(text, if n.minus then i + 1 else i, rest)
  {
    assert text[i + 0] == SpellNumber(n)[0];
    AtSplit(text, i, if n.minus then [MINUS] else [], rest);
  }

  /** A number after its sign. */
  lemma UnsignedComplete(text: Units, a: nat, n: NumberParts)
    requires PartsValid(n) && At(text, a, n.whole + (SpellFraction(n.fraction) + SpellExponent(n.exponent)))
    requires EndsWord(text, a + |n.whole| + |SpellFraction(n.fraction)| + |SpellExponent(n.exponent)|)
    ensures var b := a + |n.whole|;
            var c := b + |SpellFraction(n.fraction)|;
            && ScanWhole(text, a) == Scanned((), b) && ScanFraction(text, b) == Scanned((), c)
            && ScanExponent(text, c) == Scanned((), c + |SpellExponent(n.exponent)|)
  {
    var fraction, exponent := SpellFraction(n.fraction), SpellExponent(n.exponent);
    var b := a + |n.whole|;
    AtSplit(text, a, n.whole, fraction + exponent);
    AtSplit(text, b, fraction, exponent);
    NotADigit(text, b, n.fraction, n.exponent);
    WholeComplete(text, a, n.whole);
    FractionComplete(text, b, n.fraction, n.exponent);
    ExponentComplete(text, b + |fraction|, n.exponent);
  }

  /** What follows the digits of a part is not a digit. */
  lemma NotADigit(text: Units, i: nat, f: Option<Units>, e: Option<Exponent>)
    requires At(text, i, SpellFraction(f)) && At(text, i + |SpellFraction(f)|, SpellExponent(e))
    requires e.Some? ==> IsExponentMark(e.value.mark)
    requires EndsWord(text, i + |SpellFraction(f)| + |SpellExponent(e)|)
    ensures !DigitAt(text, i)
  {
    if f.Some? {
      assert text[i + 0] == SpellFraction(f)[0];
    } else if e.Some? {
      assert text[i + 0] == SpellExponent(e)[0];
    }
  }

  lemma FractionComplete(text: Units, i: nat, f: Option<Units>, e: Option<Exponent>)
    requires At(text, i, SpellFraction(f)) && At(text, i + |SpellFraction(f)|, SpellExponent(e))
    requires e.Some? ==> IsExponentMark(e.value.mark)
    requires EndsWord(text, i + |SpellFraction(f)| + |SpellExponent(e)|)
    requires f.Some? ==> f.value != [] && AllDecimal(f.value)
    ensures ScanFraction(text, i) == Scanned((), i + |SpellFraction(f)|)
  {
    if f.Some? {
      AtSplit(text, i, [DOT], f.value);
      assert text[i + 0] == [DOT][0] && text[i + 1 + 0] == f.value[0];
      NotADigit(text, i + 1 + |f.value|, None, e);
      SkipDigitsComplete(text, i + 1, f.value);
    } else if e.Some? {
      assert text[i + 0] == SpellExponent(e)[0];
    }
  }

  lemma ExponentComplete(text: Units, i: nat, e: Option<Exponent>)
    requires At(text, i, SpellExponent(e)) && EndsWord(text, i + |SpellExponent(e)|)
    requires e.Some? ==> ExponentValid(e.value)
    ensures ScanExponent(text, i) == Scanned((), i + |SpellExponent(e)|)
  {
    if e.Some? {
      var sign := if e.value.sign.Some? then [e.value.sign.value] else [];
      assert SpellExponent(e) == [e.value.mark] + (sign + e.value.digits);
      AtSplit(text, i, [e.value.mark], sign + e.value.digits);
      AtSplit(text, i + 1, sign, e.value.digits);
      var j := i + 1 + |sign|;
      assert text[i + 0] == [e.value.mark][0] && text[j + 0] == e.value.digits[0];
      if e.value.sign.Some? { assert text[i + 1 + 0] == sign[0]; }
      SkipDigitsComplete(text, j, e.value.digits);
    }
  }

  // ----- one token -----

  lemma LexWordSound(finite: Units -> bool, text: Units, i: nat)
    requires i < |text| && LexWord(finite, text, i).Lexed?
    ensures var r := LexWord(finite, text, i);
            i < r.next <= |text| && IsWord(finite, text[i..r.next], r.token)
  {
    var next := LexWord(finite, text, i).next;
    if Punctuation(text[i]).Some? {
    } else if text[i] == QUOTE {
      var ws, units := ScanStringSound(text, i + 1, []);
      AtSlice(text, i + 1, Joined(ws) + [QUOTE]);
      assert text[i..next] == [QUOTE] + text[i + 1..next] == [QUOTE] + Joined(ws) + [QUOTE];
      assert [] + units == units;
    } else if KeywordAt(text, i, TRUE_WORD) {
      AtSlice(text, i, TRUE_WORD);
    } else if KeywordAt(text, i, FALSE_WORD) {
      AtSlice(text, i, FALSE_WORD);
    } else if KeywordAt(text, i, NULL_WORD) {
      AtSlice(text, i, NULL_WORD);
    } else {
      ScanNumberSound(text, i);
    }
  }

  lemma LexWordComplete(finite: Units -> bool, text: Units, i: nat, w: Units, t: Token)
    requires IsWord(finite, w, t) && At(text, i, w)
    requires t.Literal? ==> EndsWord(text, i + |w|)
    ensures w != [] && i < |text| && LexWord(finite, text, i) == Lexed.Lexed(t, i + |w|)
  {
    if t.Str? {
      LexStringComplete(finite, text, i, w, t.units);
    } else if t.Literal? && t.value.Number? {
      LexNumberComplete(finite, text, i, w);
    } else {
      assert text[i + 0] == w[0];
      if t.Literal? { LexKeywordComplete(finite, text, i, w, t.value); }
    }
  }

  lemma LexStringComplete(finite: Units -> bool, text: Units, i: nat, w: Units, units: Units)
    requires IsStringWord(w, units) && At(text, i, w)
    ensures w != [] && i < |text| && LexWord(finite, text, i) == Lexed.Lexed(Str(units), i + |w|)
  {
    var ws: seq<Units> :| SpellsUnits(ws, units) && w == [QUOTE] + Joined(ws) + [QUOTE];
    assert w == [QUOTE] + (Joined(ws) + [QUOTE]);
    AtSplit(text, i, [QUOTE], Joined(ws) + [QUOTE]);
    assert text[i + 0] == w[0];
    ScanStringComplete(text, i + 1, [], ws, units);
    assert [] + units == units;
  }

  lemma LexNumberComplete(finite: Units -> bool, text: Units, i: nat, w: Units)
    requires IsNumberWord(w) && finite(w) && At(text, i, w) && EndsWord(text, i + |w|)
    ensures w != [] && i < |text| && LexWord(finite, text, i) == Lexed.Lexed(Literal(Number(w)), i + |w|)
  {
    var n :| PartsValid(n) && w == SpellNumber(n);
    ScanNumberComplete(text, i, n);
    AtSlice(text, i, w);
    NumberStarts(w, n);
    assert text[i + 0] == w[0];
    NotAKeyword(text, i);
  }

  lemma NumberStarts(w: Units, n: NumberParts)
    requires PartsValid(n) && w == SpellNumber(n)
    ensures w != [] && (w[0] == MINUS || IsDigit(w[0]))
  {
  }

  lemma NotAKeyword(text: Units, i: nat)
    requires i < |text| && (text[i] == MINUS || IsDigit(text[i]))
    ensures !KeywordAt(text, i, TRUE_WORD) && !KeywordAt(text, i, FALSE_WORD) && !KeywordAt(text, i, NULL_WORD)
    ensures text[i] != QUOTE && Punctuation(text[i]).None?
  {
    assert TRUE_WORD[0] == 0x74 && FALSE_WORD[0] == 0x66 && NULL_WORD[0] == 0x6E;
    forall word: Units | word != [] && KeywordAt(text, i, word) ensures text[i] == word[0] {
      assert text[i + 0] == word[0];
    }
  }

  lemma LexKeywordComplete(finite: Units -> bool, text: Units, i: nat, w: Units, v: Json)
    requires IsWord(finite, w, Literal(v)) && !v.Number? && At(text, i, w) && EndsWord(text, i + |w|)
    ensures w != [] && i < |text| && LexWord(finite, text, i) == Lexed.Lexed(Literal(v), i + |w|)
  {
    assert text[i + 0] == w[0];
    assert TRUE_WORD[0] == 0x74 && FALSE_WORD[0] == 0x66 && NULL_WORD[0] == 0x6E;
    if KeywordAt(text, i, TRUE_WORD) { assert text[i + 0] == TRUE_WORD[0]; }
    if KeywordAt(text, i, FALSE_WORD) { assert text[i + 0] == FALSE_WORD[0]; }
  }
}
