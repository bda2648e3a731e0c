/** The bounded reader of serialised runtime state as a pushdown machine over tokens
    (devtools-panel.js): its limits, and one step of the machine. */
module JsonMachine {
  import opened Wrappers
  import opened JsonGrammar

  const MAX_ENTRIES: nat := 100
  const MAX_DEPTH: nat := 12
  const MAX_KEY: nat := 1_024

  // ----- the machine -----

  datatype Error =
    | TokenLimit | InvalidString | InvalidEscape | UnterminatedString | InvalidNumber | UnsupportedToken | NonFiniteNumber
    | TrailingData | UnexpectedArrayValue | EntryLimit | UnexpectedObjectValue | DuplicateKey | DepthLimit
    | Empty | UnterminatedContainer | InvalidKey | OverlongKey | MissingSeparator | InvalidObjectValue
    | InvalidObjectSeparator | InvalidArrayValue | InvalidArraySeparator
    | WrongLength | UnknownSource | NativeSource

  datatype Stage = InitialOrEnd | KeyStage | ColonStage | ValueStage | CommaOrEnd

  /** `done` are the finished entries; a container that is still open inside the frame already
      counts as an entry, and its key as used. */
  datatype Child = NoChild | OpenChild(key: Option<Units>)

  datatype Frame = Frame(kind: Kind, stage: Stage, key: Option<Units>, done: seq<Entry>, child: Child)

  datatype Machine = Machine(stack: seq<Frame>, rootSet: bool, root: Option<Json>)

  const INITIAL := Machine([], false, None)

  function EntryCount(f: Frame): nat {
    |f.done| + if f.child.OpenChild? then 1 else 0
  }

  predicate HasKey(f: Frame, key: Option<Units>) {
    (exists i :: 0 <= i < |f.done| && f.done[i].key == key) || f.child == OpenChild(key)
  }

  function Top(m: Machine): Frame
    requires m.stack != []
  {
    m.stack[|m.stack| - 1]
  }

  function WithTop(m: Machine, f: Frame): Machine
    requires m.stack != []
  {
    m.(stack := m.stack[|m.stack| - 1 := f])
  }

  /** Gives the current place a value, or (`None`) marks it as taken by a container that opens there. */
  function SetValue(m: Machine, value: Option<Json>): Result<Machine, Error> {
    if m.stack == [] then
      if m.rootSet then Err(TrailingData) else Ok(m.(rootSet := true, root := value))
    else
      var f := Top(m);
      if f.kind.ArrayKind? && f.stage != InitialOrEnd && f.stage != ValueStage then Err(UnexpectedArrayValue)
      else if f.kind.ObjectKind? && (f.stage != ValueStage || f.key.None?) then Err(UnexpectedObjectValue)
      else if EntryCount(f) >= MAX_ENTRIES then Err(EntryLimit)
      else if f.kind.ObjectKind? && HasKey(f, f.key) then Err(DuplicateKey)
      else
        Ok(WithTop(m, Filled(f, value)))
  }

  /** The place that is open has its value, or a container opening in it. */
  function Filled(f: Frame, value: Option<Json>): Frame {
    if value.Some? then f.(done := f.done + [Entry(f.key, value.value)], key := None, stage := CommaOrEnd)
    else f.(child := OpenChild(f.key), key := None, stage := CommaOrEnd)
  }

  function BeginContainer(m: Machine, kind: Kind): Result<Machine, Error> {
    if |m.stack| >= MAX_DEPTH then Err(DepthLimit)
    else
      var placed := SetValue(m, None);
      if placed.Err? then placed
      else Ok(placed.value.(stack := placed.value.stack + [Frame(kind, InitialOrEnd, None, [], NoChild)]))
  }

  function AcceptValueToken(m: Machine, t: Token, otherwise: Error): Result<Machine, Error> {
    match t
    case Literal(v) => SetValue(m, Some(v))
    case Str(u) => SetValue(m, Some(String(u)))
    case Open(kind) => BeginContainer(m, kind)
    case _ => Err(otherwise)
  }

  /** The top container is finished; it fills the place it was opened in. */
  function Pop(m: Machine): Machine
    requires m.stack != []
  {
    var f := Top(m);
    var below := m.stack[..|m.stack| - 1];
    var value := Container(f.kind, f.done);
    if below == [] then Machine(below, m.rootSet, Some(value))
    else
      var parent := below[|below| - 1];
      var key := if parent.child.OpenChild? then parent.child.key else None;
      m.(stack := below[|below| - 1 := parent.(done := parent.done + [Entry(key, value)], child := NoChild)])
  }

  function Step(m: Machine, t: Token): Result<Machine, Error> {
    if m.stack == [] then
      if m.rootSet then Err(TrailingData) else AcceptValueToken(m, t, TrailingData)
    else
      var f := Top(m);
      if f.kind.ObjectKind? then
        match f.stage
        case InitialOrEnd => if t == Close(ObjectKind) then Ok(Pop(m)) else StepKey(m, t)
        case KeyStage => StepKey(m, t)
        case ColonStage => if t != Colon then Err(MissingSeparator) else Ok(WithTop(m, f.(stage := ValueStage)))
        case ValueStage => AcceptValueToken(m, t, InvalidObjectValue)
        case CommaOrEnd =>
          if t == Comma then Ok(WithTop(m, f.(stage := KeyStage)))
          else if t == Close(ObjectKind) then Ok(Pop(m))
          else Err(InvalidObjectSeparator)
      else
        match f.stage
        case InitialOrEnd => if t == Close(ArrayKind) then Ok(Pop(m)) else AcceptValueToken(m, t, InvalidArrayValue)
        case ValueStage => AcceptValueToken(m, t, InvalidArrayValue)
        case _ =>
          if t == Comma then Ok(WithTop(m, f.(stage := ValueStage)))
          else if t == Close(ArrayKind) then Ok(Pop(m))
          else Err(InvalidArraySeparator)
  }

  function StepKey(m: Machine, t: Token): Result<Machine, Error>
    requires m.stack != []
  {
    if !t.Str? then Err(InvalidKey)
    else if |t.units| > MAX_KEY then Err(OverlongKey)
    else Ok(WithTop(m, Top(m).(key := Some(t.units), stage := ColonStage)))
  }

  function Run(m: Machine, tokens: seq<Token>): Result<Machine, Error>
    decreases tokens
  {
    if tokens == [] then Ok(m)
    else
      var next := Step(m, tokens[0]);
      if next.Err? then next else Run(next.value, tokens[1..])
  }

  /** What the end of the input makes of the machine. */
  function Finish(m: Machine): Result<Json, Error> {
    if !m.rootSet then Err(Empty)
    else if m.stack != [] then Err(UnterminatedContainer)
    else if m.root.None? then Err(Empty)
    else Ok(m.root.value)
  }

  function ParseTokens(tokens: seq<Token>): Result<Json, Error> {
    var r := Run(INITIAL, tokens);
    if r.Err? then Err(r.error) else Finish(r.value)
  }
}
