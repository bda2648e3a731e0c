/** The reader itself: a parser object that moves over the text, and the loop that feeds its
    tokens to a stack of mutable frames (devtools-panel.js). */
module JsonReader {
  import opened Wrappers
  import opened JsonGrammar
  import opened JsonMachine
  import opened JsonLexer

  const MAX_CHARACTERS: nat := 65_536
  const MAX_TOKENS: nat := 2_000

  datatype SourceType = NativeType | WebType | OtherType

  // ----- specification: the text is lexed and fed to the machine, one token at a time -----

  /** The token after any white space at `i`, when `count` tokens were read before. */
  function NextToken(finite: Units -> bool, text: Units, i: nat, count: nat): Lexed {
    var start := SkipSpace(text, i);
    if start >= |text| then End
    else if count >= MAX_TOKENS then LexError(TokenLimit)
    else LexWord(finite, text, start)
  }

  lemma NextTokenAdvances(finite: Units -> bool, text: Units, i: nat, count: nat)
    ensures var r := NextToken(finite, text, i, count); r.Lexed? ==> i < r.next <= |text|
  {
    LexAdvances(finite, text, i);
  }

  function ParseFrom(finite: Units -> bool, text: Units, i: nat, count: nat, m: Machine): Result<Json, Error>
    decreases |text| - i
  {
    NextTokenAdvances(finite, text, i, count);
    match NextToken(finite, text, i, count)
    case End => Finish(m)
    case LexError(e) => Err(e)
    case Lexed(t, next) =>
      var stepped := Step(m, t);
      if stepped.Err? then Err(stepped.error) else ParseFrom(finite, text, next, count + 1, stepped.value)
  }

  function Parse(finite: Units -> bool, text: Units, sourceType: SourceType): Result<Json, Error> {
    if |text| == 0 || |text| > MAX_CHARACTERS then Err(WrongLength)
    else
      match sourceType
      case OtherType => Err(UnknownSource)
      case NativeType => Err(NativeSource)
      case WebType => ParseFrom(finite, text, 0, 0, INITIAL)
  }

  // ----- the parser object -----

  class Parser {
    const source: Units
    const finite: Units -> bool
    var offset: nat
    var tokens: nat

    constructor (finite: Units -> bool, source: Units)
      ensures this.source == source && this.finite == finite && offset == 0 && tokens == 0
    {
      this.source := source;
      this.finite := finite;
      offset, tokens := 0, 0;
    }

    method SkipDigitRun()
      modifies this`offset
      ensures offset == SkipDigits(source, old(offset))
    {
      while offset < |source| && IsDigit(source[offset])
        invariant SkipDigits(source, offset) == SkipDigits(source, old(offset))
        decreases |source| - offset
      {
        offset := offset + 1;
      }
    }

    method ReadString() returns (r: Scan<Units>)
      modifies this`offset
      ensures r == ScanString(source, old(offset), [])
      ensures r.Scanned? ==> offset == r.next
    {
      var value: Units := [];
      while offset < |source|
        invariant ScanString(source, offset, value) == ScanString(source, old(offset), [])
        decreases |source| - offset
      {
        var unit := source[offset];
        if unit < 0x20 { return Failed(InvalidString); }
        if unit == QUOTE {
          offset := offset + 1;
          return Scanned(value, offset);
        }
        if unit != BACKSLASH {
          value := value + [unit];
          offset := offset + 1;
        } else if offset + 1 < |source| && ShortEscape(source[offset + 1]).Some? {
          value := value + [ShortEscape(source[offset + 1]).value];
          offset := offset + 2;
        } else if HexEscapeAt(source, offset + 1) {
          value := value + [HexUnit(source[offset + 2], source[offset + 3], source[offset + 4], source[offset + 5])];
          offset := offset + 6;
        } else {
          return Failed(InvalidEscape);
        }
      }
      r := Failed(UnterminatedString);
    }

    method ReadWhole() returns (r: Scan<()>)
      modifies this`offset
      ensures r == ScanWhole(source, old(offset))
      ensures r.Scanned? ==> offset == r.next
    {
      if offset < |source| && source[offset] == ZERO {
        offset := offset + 1;
        if DigitAt(source, offset) { return Failed(InvalidNumber); }
      } else if DigitAt(source, offset) {
        SkipDigitRun();
      } else {
        return Failed(UnsupportedToken);
      }
      r := Scanned((), offset);
    }

    method ReadNumber() returns (r: Scan<()>)
      modifies this`offset
      ensures r == ScanNumber(source, old(offset))
      ensures r.Scanned? ==> offset == r.next
    {
      if offset < |source| && source[offset] == MINUS { offset := offset + 1; }
      r := ReadWhole();
      if r.Failed? { return; }
      if offset < |source| && source[offset] == DOT {
        offset := offset + 1;
        if !DigitAt(source, offset) { return Failed(InvalidNumber); }
        SkipDigitRun();
      }
      if offset < |source| && IsExponentMark(source[offset]) {
        offset := offset + 1;
        if offset < |source| && IsSign(source[offset]) { offset := offset + 1; }
        if !DigitAt(source, offset) { return Failed(InvalidNumber); }
        SkipDigitRun();
      }
      r := Scanned((), offset);
    }

    method ReadWord() returns (r: Lexed)
      requires offset < |source|
      modifies this`offset
      ensures r == LexWord(finite, source, old(offset))
      ensures r.Lexed? ==> offset == r.next
    {
      var start := offset;
      var punctuation := Punctuation(source[offset]);
      if punctuation.Some? {
        offset := offset + 1;
        return Lexed.Lexed(punctuation.value, offset);
      }
      if source[offset] == QUOTE {
        offset := offset + 1;
        var s := ReadString();
        return match s case Scanned(units, next) => Lexed.Lexed(Str(units), next) case Failed(e) => LexError(e);
      }
      if KeywordAt(source, offset, TRUE_WORD) {
        offset := offset + 4;
        return Lexed.Lexed(Literal(Bool(true)), offset);
      }
      if KeywordAt(source, offset, FALSE_WORD) {
        offset := offset + 5;
        return Lexed.Lexed(Literal(Bool(false)), offset);
      }
      if KeywordAt(source, offset, NULL_WORD) {
        offset := offset + 4;
        return Lexed.Lexed(Literal(Null), offset);
      }
      var n := ReadNumber();
      ScanNumberAdvances(source, start);
      if n.Failed? { return LexError(n.error); }
      if !finite(source[start..offset]) { return LexError(NonFiniteNumber); }
      r := Lexed.Lexed(Literal(Number(source[start..offset])), offset);
    }

    /** The next token; the count goes up before the token is looked at. */
    method ReadToken() returns (r: Lexed)
      modifies this
      ensures r == NextToken(finite, source, old(offset), old(tokens))
      ensures r.Lexed? ==> offset == r.next && tokens == old(tokens) + 1
    {
      while offset < |source| && IsSpace(source[offset])
        invariant SkipSpace(source, offset) == SkipSpace(source, old(offset)) && tokens == old(tokens)
        decreases |source| - offset
      {
        offset := offset + 1;
      }
      if offset >= |source| { return End; }
      tokens := tokens + 1;
      if tokens > MAX_TOKENS { return LexError(TokenLimit); }
      r := ReadWord();
    }
  }

  // ----- the frames, and the functions that mutate them -----

  /** One container that is being read. */
  class RuntimeFrame {
    const kind: Kind
    var stage: Stage
    var key: Option<Units>
    var done: seq<Entry>
    var child: Child

    constructor (kind: Kind)
      ensures this.kind == kind && Value() == Frame(kind, InitialOrEnd, None, [], NoChild)
    {
      this.kind := kind;
      stage, key, done, child := InitialOrEnd, None, [], NoChild;
    }

    function Value(): Frame
      reads this
    {
      Frame(kind, stage, key, done, child)
    }
  }

  class RuntimeReader {
    var stack: seq<RuntimeFrame>
    var rootSet: bool
    var root: Option<Json>
    ghost var Frames: set<RuntimeFrame>

    /** No frame is on the stack twice. */
    ghost predicate Valid()
      reads this
    {
      && (forall i, j :: 0 <= i < j < |stack| ==> stack[i] != stack[j])
      && (forall i :: 0 <= i < |stack| ==> stack[i] in Frames)
    }

    ghost function View(): Machine
      reads this, stack
    {
      Machine(seq(|stack|, i requires 0 <= i < |stack| reads this, stack => stack[i].Value()), rootSet, root)
    }

    constructor ()
      ensures Valid() && Frames == {} && View() == INITIAL
    {
      stack, rootSet, root, Frames := [], false, None, {};
    }

    /** Puts a value into the place that is open, or (`None`) marks it as taken by a container. */
    method SetValue(value: Option<Json>) returns (error: Option<Error>)
      requires Valid()
      modifies this`rootSet, this`root, Frames
      ensures Valid() && Outcome(error, View(), JsonMachine.SetValue(old(View()), value))
    {
      if |stack| == 0 {
        if rootSet { return Some(TrailingData); }
        root := value;
        rootSet := true;
        assert View().stack == old(View()).stack;
        return None;
      }
      var frame := stack[|stack| - 1];
      if frame.kind.ArrayKind? {
        if frame.stage != InitialOrEnd && frame.stage != ValueStage { return Some(UnexpectedArrayValue); }
        if EntryCount(frame.Value()) >= MAX_ENTRIES { return Some(EntryLimit); }
      } else {
        if frame.stage != ValueStage || frame.key.None? { return Some(UnexpectedObjectValue); }
        if EntryCount(frame.Value()) >= MAX_ENTRIES { return Some(EntryLimit); }
        if HasKey(frame.Value(), frame.key) { return Some(DuplicateKey); }
      }
      FillPlace(value);
      error := None;
    }

    method FillPlace(value: Option<Json>)
      requires Valid() && stack != []
      modifies Frames
      ensures Valid() && View() == WithTop(old(View()), Filled(Top(old(View())), value))
    {
      var frame := stack[|stack| - 1];
      if value.Some? {
        frame.done := frame.done + [Entry(frame.key, value.value)];
      } else {
        frame.child := OpenChild(frame.key);
      }
      frame.key := None;
      frame.stage := CommaOrEnd;
      assert View().stack == WithTop(old(View()), Filled(Top(old(View())), value)).stack;
    }

    method BeginContainer(kind: Kind) returns (error: Option<Error>)
      requires Valid()
      modifies this, Frames
      ensures Valid() && Outcome(error, View(), JsonMachine.BeginContainer(old(View()), kind))
      ensures fresh(Frames - old(Frames))
    {
      if |stack| >= MAX_DEPTH { return Some(DepthLimit); }
      error := SetValue(None);
      if error.Some? { return; }
      ghost var below := View();
      var frame := new RuntimeFrame(kind);
      stack := stack + [frame];
      Frames := Frames + {frame};
      assert View().stack == below.stack + [frame.Value()];
    }

    method AcceptValueToken(t: Token, otherwise: Error) returns (error: Option<Error>)
      requires Valid()
      modifies this, Frames
      ensures Valid() && Outcome(error, View(), JsonMachine.AcceptValueToken(old(View()), t, otherwise))
      ensures fresh(Frames - old(Frames))
    {
      match t
      case Literal(v) => error := SetValue(Some(v));
      case Str(u) => error := SetValue(Some(String(u)));
      case Open(kind) => error := BeginContainer(kind);
      case _ => error := Some(otherwise);
    }

    /** The container on top is finished; it fills the place it was opened in. */
    method PopFrame()
      requires Valid() && stack != []
      modifies this, Frames
      ensures Valid() && Frames == old(Frames)
      ensures View() == Pop(old(View()))
    {
      var frame := stack[|stack| - 1];
      stack := stack[..|stack| - 1];
      var value := Container(frame.kind, frame.done);
      if stack == [] {
        root := Some(value);
      } else {
        var parent := stack[|stack| - 1];
        var key := if parent.child.OpenChild? then parent.child.key else None;
        parent.done := parent.done + [Entry(key, value)];
        parent.child := NoChild;
      }
      assert View().stack == Pop(old(View())).stack;
    }

    method FinishRoot() returns (r: Result<Json, Error>)
      ensures r == Finish(View())
    {
      if !rootSet { return Err(Empty); }
      if stack != [] { return Err(UnterminatedContainer); }
      r := if root.None? then Err(Empty) else Ok(root.value);
    }

    method SetStage(stage: Stage)
      requires Valid() && stack != []
      modifies Frames
      ensures Valid() && View() == WithTop(old(View()), Top(old(View())).(stage := stage))
    {
      stack[|stack| - 1].stage := stage;
      assert View().stack == WithTop(old(View()), Top(old(View())).(stage := stage)).stack;
    }

    method AcceptKey(t: Token) returns (error: Option<Error>)
      requires Valid() && stack != []
      modifies Frames
      ensures Valid() && Outcome(error, View(), StepKey(old(View()), t))
    {
      if !t.Str? { return Some(InvalidKey); }
      if |t.units| > MAX_KEY { return Some(OverlongKey); }
      var frame := stack[|stack| - 1];
      frame.key := Some(t.units);
      frame.stage := ColonStage;
      assert View().stack == WithTop(old(View()), Top(old(View())).(key := Some(t.units), stage := ColonStage)).stack;
      error := None;
    }

    /** One round of the loop: the token goes where the frame on top can take it. */
    method AcceptToken(t: Token) returns (error: Option<Error>)
      requires Valid()
      modifies this, Frames
      ensures Valid() && Outcome(error, View(), Step(old(View()), t))
      ensures fresh(Frames - old(Frames))
    {
      if |stack| == 0 {
        if rootSet { return Some(TrailingData); }
        error := AcceptValueToken(t, TrailingData);
        return;
      }
      if stack[|stack| - 1].kind.ObjectKind? {
        error := AcceptInObject(t);
      } else {
        error := AcceptInArray(t);
      }
    }

    method AcceptInObject(t: Token) returns (error: Option<Error>)
      requires Valid() && stack != [] && stack[|stack| - 1].kind.ObjectKind?
      modifies this, Frames
      ensures Valid() && Outcome(error, View(), Step(old(View()), t))
      ensures fresh(Frames - old(Frames))
    {
      error := None;
      match stack[|stack| - 1].stage
      case InitialOrEnd =>
        if t == Close(ObjectKind) { PopFrame(); } else { error := AcceptKey(t); }
      case KeyStage => error := AcceptKey(t);
      case ColonStage =>
        if t != Colon { return Some(MissingSeparator); }
        SetStage(ValueStage);
      case ValueStage => error := AcceptValueToken(t, InvalidObjectValue);
      case CommaOrEnd =>
        if t == Comma { SetStage(KeyStage); }
        else if t == Close(ObjectKind) { PopFrame(); }
        else { error := Some(InvalidObjectSeparator); }
    }

    method AcceptInArray(t: Token) returns (error: Option<Error>)
      requires Valid() && stack != [] && stack[|stack| - 1].kind.ArrayKind?
      modifies this, Frames
      ensures Valid() && Outcome(error, View(), Step(old(View()), t))
      ensures fresh(Frames - old(Frames))
    {
      error := None;
      match stack[|stack| - 1].stage
      case InitialOrEnd =>
        if t == Close(ArrayKind) { PopFrame(); } else { error := AcceptValueToken(t, InvalidArrayValue); }
      case ValueStage => error := AcceptValueToken(t, InvalidArrayValue);
      case _ =>
        if t == Comma { SetStage(ValueStage); }
        else if t == Close(ArrayKind) { PopFrame(); }
        else { error := Some(InvalidArraySeparator); }
    }
  }

  /** A method that mutates the reader agrees with the machine: the same error, or the same state. */
  predicate Outcome(error: Option<Error>, after: Machine, specified: Result<Machine, Error>) {
    if error.Some? then specified == Err(error.value) else specified == Ok(after)
  }

  // ----- the loop -----

  method ParseRuntimeState(finite: Units -> bool, source: Units, sourceType: SourceType) returns (r: Result<Json, Error>)
    ensures r == Parse(finite, source, sourceType)
  {
    if |source| == 0 || |source| > MAX_CHARACTERS { return Err(WrongLength); }
    if sourceType == OtherType { return Err(UnknownSource); }
    if sourceType == NativeType { return Err(NativeSource); }
    var parser := new Parser(finite, source);
    var reader := new RuntimeReader();
    while true
      invariant parser.source == source && parser.finite == finite && parser.offset <= |source|
      invariant reader.Valid() && fresh(reader) && fresh(parser) && fresh(reader.Frames)
      invariant ParseRest(parser, reader) == ParseFrom(finite, source, 0, 0, INITIAL)
      decreases |source| - parser.offset
    {
      var finished := ReadAndAccept(parser, reader);
      if finished.Some? { return finished.value; }
    }
  }

  /** What reading the rest of the text would come to. */
  ghost function ParseRest(parser: Parser, reader: RuntimeReader): Result<Json, Error>
    reads parser, reader, reader.stack
  {
    ParseFrom(parser.finite, parser.source, parser.offset, parser.tokens, reader.View())
  }

  /** A token that was read goes to the frames. */
  method AcceptRead(finite: Units -> bool, source: Units, ghost i: nat, ghost count: nat, reader: RuntimeReader, token: Lexed)
      returns (finished: Option<Result<Json, Error>>)
    requires reader.Valid() && token.Lexed? && token == NextToken(finite, source, i, count)
    modifies reader, reader.Frames
    ensures reader.Valid() && fresh(reader.Frames - old(reader.Frames)) && i < token.next <= |source|
    ensures ParseFrom(finite, source, i, count, old(reader.View()))
         == if finished.Some? then finished.value else ParseFrom(finite, source, token.next, count + 1, reader.View())
  {
    NextTokenAdvances(finite, source, i, count);
    var error := reader.AcceptToken(token.token);
    finished := if error.Some? then Some(Err(error.value)) else None;
  }

  /** The same, of the parser that read the token. */
  method AcceptNext(parser: Parser, reader: RuntimeReader, ghost i: nat, ghost count: nat, token: Lexed)
      returns (finished: Option<Result<Json, Error>>)
    requires reader.Valid() && token.Lexed? && token == NextToken(parser.finite, parser.source, i, count)
    requires parser.offset == token.next && parser.tokens == count + 1
    modifies reader, reader.Frames
    ensures reader.Valid() && fresh(reader.Frames - old(reader.Frames)) && i < token.next <= |parser.source|
    ensures ParseFrom(parser.finite, parser.source, i, count, old(reader.View()))
         == if finished.Some? then finished.value else ParseRest(parser, reader)
  {
    finished := AcceptRead(parser.finite, parser.source, i, count, reader, token);
  }

  /** One round of the loop: it ends with a result, or has read one token further. */
  method ReadAndAccept(parser: Parser, reader: RuntimeReader) returns (finished: Option<Result<Json, Error>>)
    requires reader.Valid()
    modifies parser, reader, reader.Frames
    ensures reader.Valid() && fresh(reader.Frames - old(reader.Frames))
    ensures old(ParseRest(parser, reader)) == if finished.Some? then finished.value else ParseRest(parser, reader)
    ensures finished.None? ==> old(parser.offset) < parser.offset <= |parser.source|
  {
    ghost var i, count, machine := parser.offset, parser.tokens, reader.View();
    var token := parser.ReadToken();
    assert reader.View() == machine;
    match token
    case End =>
      var r := reader.FinishRoot();
      finished := Some(r);
    case LexError(error) => finished := Some(Err(error));
    case Lexed(_, _) => finished := AcceptNext(parser, reader, i, count, token);
  }
}
