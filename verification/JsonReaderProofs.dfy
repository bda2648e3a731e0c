/** The reader accepts exactly the RFC 8259 texts of values within its limits, and undoes writing. */
module JsonReaderProofs {
  import opened Wrappers
  import opened JsonGrammar
  import opened JsonMachine
  import opened JsonMachineProofs
  import opened JsonLexer
  import opened JsonLexerProofs
  import opened JsonReader

  // ----- the whole text as tokens -----

  function LexAll(finite: Units -> bool, text: Units, i: nat): Result<seq<Token>, Error>
    decreases |text| - i
  {
    LexAdvances(finite, text, i);
    match Lex(finite, text, i)
    case End => Ok([])
    case LexError(e) => Err(e)
    case Lexed(t, next) =>
      var rest := LexAll(finite, text, next);
      if rest.Err? then rest else Ok([t] + rest.value)
  }

  /** Two literals never touch, so white space between tokens is always optional. */
  predicate Separated(tokens: seq<Token>) {
    forall j :: 0 <= j < |tokens| - 1 ==> !(tokens[j].Literal? && tokens[j + 1].Literal?)
  }

  lemma {:induction false} LexAllSound(finite: Units -> bool, text: Units, i: nat)
    requires i <= |text| && LexAll(finite, text, i).Ok?
    ensures Spells(finite, text, i, LexAll(finite, text, i).value)
    decreases |text| - i
  {
    LexAdvances(finite, text, i);
    SkipSpaceSpec(text, i);
    var start := SkipSpace(text, i);
    if start < |text| {
      var r := LexWord(finite, text, start);
      LexWordSound(finite, text, start);
      LexAllSound(finite, text, r.next);
      var w := text[start..r.next];
      var tokens := LexAll(finite, text, i).value;
      assert tokens == [r.token] + LexAll(finite, text, r.next).value;
      assert AllWhite(text, i, start) && StandsAt(text, start, w) && IsWord(finite, w, tokens[0])
          && Spells(finite, text, start + |w|, tokens[1..]);
    }
  }

  lemma SkipSpaceComplete(text: Units, i: nat, k: nat)
    requires AllWhite(text, i, k) && (k < |text| ==> !IsWhite(text[k]))
    ensures SkipSpace(text, i) == k
    decreases k - i
  {
    if i < k {
      assert IsWhite(text[i]);
      SkipSpaceComplete(text, i + 1, k);
    }
  }

  lemma WordStart(finite: Units -> bool, w: Units, t: Token)
    requires IsWord(finite, w, t)
    ensures w != [] && !IsWhite(w[0])
    ensures !t.Literal? ==> !IsWordUnit(w[0]) && w[0] != DOT
  {
    if t.Literal? && t.value.Number? {
      var n :| PartsValid(n) && w == SpellNumber(n);
      assert w[0] == MINUS || IsDigit(w[0]);
    }
  }

  lemma FirstWord(finite: Units -> bool, text: Units, i: nat, tokens: seq<Token>) returns (k: nat, w: Units)
    requires Spells(finite, text, i, tokens) && tokens != []
    ensures AllWhite(text, i, k) && StandsAt(text, k, w) && IsWord(finite, w, tokens[0]) && Spells(finite, text, k + |w|, tokens[1..])
    ensures w != [] && k < |text| && text[k] == w[0] && !IsWhite(w[0])
    ensures !tokens[0].Literal? ==> !IsWordUnit(w[0]) && w[0] != DOT
  {
    k, w :| AllWhite(text, i, k) && StandsAt(text, k, w) && IsWord(finite, w, tokens[0]) && Spells(finite, text, k + |w|, tokens[1..]);
    WordStart(finite, w, tokens[0]);
    assert text[k] == text[k..k + |w|][0];
  }

  lemma AfterLiteral(finite: Units -> bool, text: Units, i: nat, rest: seq<Token>)
    requires Spells(finite, text, i, rest) && (rest != [] ==> !rest[0].Literal?)
    ensures EndsWord(text, i)
  {
    if i < |text| {
      if rest == [] {
        assert IsWhite(text[i]);
      } else {
        var k, w := FirstWord(finite, text, i, rest);
        if i < k { assert IsWhite(text[i]); }
      }
    }
  }

  lemma SeparatedTail(tokens: seq<Token>)
    requires Separated(tokens) && tokens != []
    ensures Separated(tokens[1..]) && (tokens[0].Literal? && |tokens| > 1 ==> !tokens[1].Literal?)
  {
    var rest := tokens[1..];
    forall j | 0 <= j < |rest| - 1 ensures !(rest[j].Literal? && rest[j + 1].Literal?) {
      assert rest[j] == tokens[j + 1] && rest[j + 1] == tokens[j + 1 + 1];
    }
    if |tokens| > 1 { assert !(tokens[0].Literal? && tokens[0 + 1].Literal?); }
  }

  lemma {:induction false} LexAllComplete(finite: Units -> bool, text: Units, i: nat, tokens: seq<Token>)
    requires Spells(finite, text, i, tokens) && Separated(tokens)
    ensures LexAll(finite, text, i) == Ok(tokens)
    decreases tokens
  {
    if tokens == [] {
      SkipSpaceComplete(text, i, |text|);
    } else {
      var next := FirstLexed(finite, text, i, tokens);
      LexAllComplete(finite, text, next, tokens[1..]);
      LexAllStep(finite, text, i, tokens, next);
    }
  }

  lemma FirstLexed(finite: Units -> bool, text: Units, i: nat, tokens: seq<Token>) returns (next: nat)
    requires Spells(finite, text, i, tokens) && Separated(tokens) && tokens != []
    ensures Lex(finite, text, i) == Lexed.Lexed(tokens[0], next)
    ensures Spells(finite, text, next, tokens[1..]) && Separated(tokens[1..])
  {
    var k, w := FirstWord(finite, text, i, tokens);
    SeparatedTail(tokens);
    SkipSpaceComplete(text, i, k);
    if tokens[0].Literal? { AfterLiteral(finite, text, k + |w|, tokens[1..]); }
    AtSlice(text, k, w);
    LexWordComplete(finite, text, k, w, tokens[0]);
    next := k + |w|;
  }

  lemma LexAllStep(finite: Units -> bool, text: Units, i: nat, tokens: seq<Token>, next: nat)
    requires tokens != [] && Lex(finite, text, i) == Lexed.Lexed(tokens[0], next)
    requires LexAll(finite, text, next) == Ok(tokens[1..])
    ensures LexAll(finite, text, i) == Ok(tokens)
  {
    LexAdvances(finite, text, i);
    assert tokens == [tokens[0]] + tokens[1..];
  }

  // ----- tokens of values -----

  lemma SeparatedJoin(a: seq<Token>, b: seq<Token>)
    requires Separated(a) && Separated(b)
    requires a != [] && b != [] ==> !a[|a| - 1].Literal? || !b[0].Literal?
    ensures Separated(a + b)
  {
    var c := a + b;
    forall j | 0 <= j < |c| - 1 ensures !(c[j].Literal? && c[j + 1].Literal?) {
      if j < |a| - 1 {
        assert c[j] == a[j] && c[j + 1] == a[j + 1];
      } else if j >= |a| {
        assert c[j] == b[j - |a|] && c[j + 1] == b[j + 1 - |a|];
      }
    }
  }

  lemma {:induction false} ToksSeparated(v: Json)
    ensures Separated(Toks(v)) && Toks(v) != []
    decreases v, 0
  {
    if v.Container? {
      EntriesToksSeparated(v.entries);
      SeparatedJoin([Open(v.kind)], EntriesToks(v.entries));
      SeparatedJoin([Open(v.kind)] + EntriesToks(v.entries), [Close(v.kind)]);
    }
  }

  lemma {:induction false} EntryToksSeparated(e: Entry)
    ensures Separated(EntryToks(e))
    decreases e, 1
  {
    ToksSeparated(e.value);
    SeparatedJoin(KeyToks(e.key), Toks(e.value));
  }

  lemma {:induction false} EntriesToksSeparated(es: seq<Entry>)
    ensures Separated(EntriesToks(es))
    decreases es, 0
  {
    if |es| == 1 {
      EntryToksSeparated(es[0]);
    } else if |es| > 1 {
      var front, last := es[..|es| - 1], es[|es| - 1];
      EntriesToksSeparated(front);
      EntryToksSeparated(last);
      SeparatedJoin(EntriesToks(front), [Comma]);
      SeparatedJoin(EntriesToks(front) + [Comma], EntryToks(last));
    }
  }

  lemma SpelledLiteralsAreProper(finite: Units -> bool, text: Units, i: nat, tokens: seq<Token>)
    requires Spells(finite, text, i, tokens)
    ensures ProperLiterals(tokens)
    decreases tokens
  {
    if tokens != [] {
      var k: nat, w: Units :| AllWhite(text, i, k) && StandsAt(text, k, w) && IsWord(finite, w, tokens[0])
                              && Spells(finite, text, k + |w|, tokens[1..]);
      SpelledLiteralsAreProper(finite, text, k + |w|, tokens[1..]);
    }
  }

  // ----- the reader is lexer and machine, and so the grammar -----

  lemma {:induction false} ParseFromSplits(finite: Units -> bool, text: Units, i: nat, count: nat, m: Machine, v: Json)
    requires count <= MAX_TOKENS
    ensures ParseFrom(finite, text, i, count, m) == Ok(v) <==>
              var lexed := LexAll(finite, text, i);
              && lexed.Ok? && count + |lexed.value| <= MAX_TOKENS
              && var r := Run(m, lexed.value); r.Ok? && Finish(r.value) == Ok(v)
    decreases |text| - i
  {
    LexAdvances(finite, text, i);
    var start := SkipSpace(text, i);
    if start < |text| {
      var word := LexWord(finite, text, start);
      if word.Lexed? && count < MAX_TOKENS {
        var rest := LexAll(finite, text, word.next);
        if rest.Ok? { assert ([word.token] + rest.value)[1..] == rest.value; }
        var stepped := Step(m, word.token);
        if stepped.Ok? { ParseFromSplits(finite, text, word.next, count + 1, stepped.value, v); }
      }
    }
  }

  /** A web source is accepted, with this value, iff it is the RFC 8259 text of the value, and
      text and value are within the limits. */
  lemma ReaderIsTheGrammar(finite: Units -> bool, text: Units, v: Json)
    ensures Parse(finite, text, WebType) == Ok(v) <==>
              && 0 < |text| <= 65_536
              && Fits(v, 0) && |Toks(v)| <= 2_000
              && Spells(finite, text, 0, Toks(v))
  {
    if 0 < |text| <= MAX_CHARACTERS {
      ParseFromSplits(finite, text, 0, 0, INITIAL, v);
      var lexed := LexAll(finite, text, 0);
      if Parse(finite, text, WebType) == Ok(v) {
        LexAllSound(finite, text, 0);
        SpelledLiteralsAreProper(finite, text, 0, lexed.value);
        MachineIsTheGrammar(lexed.value, v);
      }
      if Fits(v, 0) && |Toks(v)| <= MAX_TOKENS && Spells(finite, text, 0, Toks(v)) {
        ToksSeparated(v);
        LexAllComplete(finite, text, 0, Toks(v));
        ValuesWithinLimitsAreRead(v);
      }
    }
  }

  // ----- writing -----

  lemma HexDigitSpells(v: nat, upper: bool)
    requires v < 16
    ensures IsHexDigit(HexDigit(v, upper), v)
  {
  }

  lemma WrittenUnitSpells(u: CodeUnit, c: Choice)
    ensures SpellsUnit(WriteUnit(u, c), u)
  {
    var hex := if c.ByDigits? then c else ByDigits(false, false, false, false);
    HexDigitSpells(u / 0x1000, hex.upper0);
    HexDigitSpells(u / 0x100 % 0x10, hex.upper1);
    HexDigitSpells(u / 0x10 % 0x10, hex.upper2);
    HexDigitSpells(u % 0x10, hex.upper3);
    assert SpellsUnit(ByFourDigits(u, hex), u);
  }

  lemma {:induction false} WrittenUnitsSpell(units: Units, choice: nat -> Choice, from: nat) returns (ws: seq<Units>)
    requires from <= |units|
    ensures SpellsUnits(ws, units[from..]) && Joined(ws) == WriteUnits(units, choice, from)
    decreases |units| - from
  {
    if from == |units| {
      ws := [];
    } else {
      var rest := WrittenUnitsSpell(units, choice, from + 1);
      var w := WriteUnit(units[from], choice(from));
      ws := [w] + rest;
      WrittenUnitSpells(units[from], choice(from));
      SpellsUnitsCons(w, units[from], rest, units[from + 1..]);
      assert units[from..] == [units[from]] + units[from + 1..];
      assert ws[1..] == rest;
    }
  }

  lemma WrittenTokenIsWord(finite: Units -> bool, t: Token, choice: nat -> Choice)
    requires Writable(finite, [t])
    ensures IsWord(finite, WriteToken(t, choice), t)
  {
    assert t in [t];
    if t.Str? {
      var ws := WrittenUnitsSpell(t.units, choice, 0);
      assert t.units[0..] == t.units;
    }
  }

  lemma WhiteMoves(space: Units, before: Units, after: Units)
    requires AllWhite(space, 0, |space|)
    ensures AllWhite(before + space + after, |before|, |before + space|)
  {
    var text := before + space + after;
    forall j | |before| <= j < |before + space| ensures IsWhite(text[j]) {
      assert text[j] == space[j - |before|];
    }
  }

  lemma StandsBetween(before: Units, w: Units, after: Units)
    ensures StandsAt(before + w + after, |before|, w)
  {
  }

  lemma {:induction false} WrittenTokensSpell(finite: Units -> bool, before: Units, tokens: seq<Token>, style: Style, from: nat)
    requires from <= |tokens| && Writable(finite, tokens) && SpacesAreWhite(style)
    ensures Spells(finite, before + WriteTokens(tokens, style, from), |before|, tokens[from..])
    decreases |tokens| - from
  {
    var space, text := style.space(from), before + WriteTokens(tokens, style, from);
    assert AllWhite(space, 0, |space|);
    if from == |tokens| {
      WhiteMoves(space, before, []);
      assert before + space + [] == text && tokens[from..] == [];
    } else {
      var w, rest := WriteToken(tokens[from], (j: nat) => style.choice(from, j)), WriteTokens(tokens, style, from + 1);
      var k := |before + space|;
      Associate(before + space, w, rest);
      Associate(before, space, w + rest);
      Associate(space, w, rest);
      assert text == before + space + (w + rest) == before + space + w + rest;
      WhiteMoves(space, before, w + rest);
      StandsBetween(before + space, w, rest);
      assert tokens[from] in tokens;
      WrittenTokenIsWord(finite, tokens[from], (j: nat) => style.choice(from, j));
      WrittenTokensSpell(finite, before + space + w, tokens, style, from + 1);
      FirstSpelled(finite, text, |before|, k, w, tokens[from..]);
    }
  }

  lemma FirstSpelled(finite: Units -> bool, text: Units, i: nat, k: nat, w: Units, tokens: seq<Token>)
    requires tokens != [] && AllWhite(text, i, k) && StandsAt(text, k, w) && IsWord(finite, w, tokens[0])
    requires Spells(finite, text, k + |w|, tokens[1..])
    ensures Spells(finite, text, i, tokens)
  {
  }

  /** Reading gives back every value within the limits, however its text is written: with any white space,
      and each unit of each string in any of the spellings that it has. */
  lemma ReadingUndoesWriting(finite: Units -> bool, v: Json, style: Style)
    requires Fits(v, 0) && |Toks(v)| <= 2_000 && Writable(finite, Toks(v)) && SpacesAreWhite(style)
    requires |Write(v, style)| <= 65_536
    ensures Parse(finite, Write(v, style), WebType) == Ok(v)
  {
    var text := Write(v, style);
    WrittenTokensSpell(finite, [], Toks(v), style, 0);
    assert [] + text == text && Toks(v)[0..] == Toks(v);
    ToksSeparated(v);
    var k, w := FirstWord(finite, text, 0, Toks(v));
    ReaderIsTheGrammar(finite, text, v);
  }

  /** Any other source is refused before it is looked at. */
  lemma OtherSourcesAreRefused(finite: Units -> bool, text: Units, sourceType: SourceType)
    ensures |text| == 0 || |text| > 65_536 ==> Parse(finite, text, sourceType) == Err(WrongLength)
    ensures 0 < |text| <= 65_536 ==>
              (Parse(finite, text, OtherType) == Err(UnknownSource) && Parse(finite, text, NativeType) == Err(NativeSource))
  {
  }
}
