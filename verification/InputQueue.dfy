/** The queue of debugger inputs and the debounced preview inputs in front of it, as a state
    machine (debugger-model.js, debugger-preview-html.js). A reservation takes its place in a
    chain of promises; each link waits for its predecessor, then for its own release. */
module InputQueue {
  /** The target and element an input is for. */
  type Key = nat

  type TimerId = nat

  datatype Kind = Direct | Text | Scroll

  datatype Delta = Delta(x: int, y: int)

  datatype Payload = DirectPayload(id: nat) | TextPayload(text: nat) | ScrollPayload(delta: Delta)

  datatype Release = Unreleased | ReleasedNull | ReleasedInput(payload: Payload)

  /** `Waiting` until its link has run; `Sending` while its request is in flight. */
  datatype Phase = Waiting | Sending | Done

  /** `wheel` and `typed` are bookkeeping: all the scrolling that was ever accepted for this
      reservation, and the text that was typed last. */
  datatype Reservation = Reservation(kind: Kind, release: Release, cancelled: bool, phase: Phase, wheel: Delta, typed: nat)

  datatype PendingText = PendingText(incarnation: nat, text: nat, reservation: nat, timer: TimerId)

  datatype PendingScroll = PendingScroll(incarnation: nat, delta: Delta, reservation: nat, timer: TimerId)

  datatype Timer = TextTimer(key: Key) | ScrollTimer(key: Key, incarnation: nat, reservation: nat)

  datatype State = State(
    reservations: seq<Reservation>,
    textInputs: map<Key, PendingText>,
    scrollInputs: map<Key, PendingScroll>,
    queued: set<nat>,
    timers: map<TimerId, Timer>,
    nextTimer: TimerId,
    incarnation: nat,
    sent: seq<nat>)

  const INITIAL := State([], map[], map[], {}, map[], 0, 0, [])

  const NO_DELTA := Delta(0, 0)

  function Plus(a: Delta, b: Delta): Delta {
    Delta(a.x + b.x, a.y + b.y)
  }

  // ----- reservations -----

  /** `dispatch(payload)`: the first release counts. */
  function Dispatched(r: Reservation, payload: Payload): Reservation {
    if r.release.Unreleased? then r.(release := ReleasedInput(payload)) else r
  }

  /** `cancel()`: marks the reservation, and releases it empty if it was not released. */
  function Cancelled(r: Reservation): Reservation {
    r.(cancelled := true, release := if r.release.Unreleased? then ReleasedNull else r.release)
  }

  function CancelAll(rs: seq<Reservation>, ids: set<nat>): seq<Reservation> {
    seq(|rs|, k requires 0 <= k < |rs| => if k in ids then Cancelled(rs[k]) else rs[k])
  }

  function Reserve(s: State, kind: Kind, wheel: Delta, typed: nat): State {
    s.(reservations := s.reservations + [Reservation(kind, Unreleased, false, Waiting, wheel, typed)])
  }

  function Update(s: State, k: nat, r: Reservation): State
    requires k < |s.reservations|
  {
    s.(reservations := s.reservations[k := r])
  }

  function Without<K, V>(m: map<K, V>, k: K): map<K, V> {
    m - {k}
  }

  // ----- handlers -----

  function OnDirect(s: State, id: nat): State {
    var k := |s.reservations|;
    var reserved := Reserve(s, Direct, NO_DELTA, 0);
    Update(reserved, k, Dispatched(reserved.reservations[k], DirectPayload(id)))
  }

  /** Typing: the pending entry keeps its reservation and gets a new timer. */
  function OnText(s: State, key: Key, text: nat): State
    requires key in s.textInputs ==> s.textInputs[key].reservation < |s.reservations|
  {
    var pending := key in s.textInputs;
    var k := if pending then s.textInputs[key].reservation else |s.reservations|;
    var cleared := if pending then Update(s, k, s.reservations[k].(typed := text)).(timers := Without(s.timers, s.textInputs[key].timer))
                   else Reserve(s, Text, NO_DELTA, text);
    cleared.(
      timers := cleared.timers[s.nextTimer := TextTimer(key)],
      nextTimer := s.nextTimer + 1,
      textInputs := s.textInputs[key := PendingText(s.incarnation, text, k, s.nextTimer)])
  }

  /** Scrolling: a pending entry accumulates; otherwise a reservation is made and a timer armed. */
  function OnWheel(s: State, key: Key, delta: Delta): State
    requires key in s.scrollInputs ==> s.scrollInputs[key].reservation < |s.reservations|
  {
    if key in s.scrollInputs then
      var p := s.scrollInputs[key];
      var r := s.reservations[p.reservation];
      Update(s, p.reservation, r.(wheel := Plus(r.wheel, delta)))
        .(scrollInputs := s.scrollInputs[key := p.(delta := Plus(p.delta, delta))])
    else
      var k := |s.reservations|;
      Reserve(s, Scroll, delta, 0).(
        timers := s.timers[s.nextTimer := ScrollTimer(key, s.incarnation, k)],
        nextTimer := s.nextTimer + 1,
        scrollInputs := s.scrollInputs[key := PendingScroll(s.incarnation, delta, k, s.nextTimer)])
  }

  /** Flushing text: its timer goes, and it is dispatched, or cancelled if its element is stale. */
  function OnFlush(s: State, key: Key, elementIsCurrent: bool): State
    requires key in s.textInputs ==> s.textInputs[key].reservation < |s.reservations|
  {
    if key !in s.textInputs then s
    else
      var p := s.textInputs[key];
      var r := s.reservations[p.reservation];
      var taken := s.(timers := Without(s.timers, p.timer), textInputs := Without(s.textInputs, key));
      if p.incarnation != s.incarnation || !elementIsCurrent then Update(taken, p.reservation, Cancelled(r))
      else
        Update(taken, p.reservation, Dispatched(r, TextPayload(p.text))).(queued := s.queued + {p.reservation})
  }

  function OnScrollTimer(s: State, key: Key, incarnation: nat, k: nat): State
    requires k < |s.reservations|
  {
    var r := s.reservations[k];
    if incarnation != s.incarnation || key !in s.scrollInputs || s.scrollInputs[key].reservation != k then
      Update(s, k, Cancelled(r))
    else
      Update(s, k, Dispatched(r, ScrollPayload(s.scrollInputs[key].delta)))
        .(scrollInputs := Without(s.scrollInputs, key), queued := s.queued + {k})
  }

  function TextReservations(s: State): set<nat> {
    set key | key in s.textInputs :: s.textInputs[key].reservation
  }

  function ScrollReservations(s: State): set<nat> {
    set key | key in s.scrollInputs :: s.scrollInputs[key].reservation
  }

  function PendingTimers(s: State): set<TimerId> {
    (set key | key in s.textInputs :: s.textInputs[key].timer) + (set key | key in s.scrollInputs :: s.scrollInputs[key].timer)
  }

  /** A new preview: pending inputs lose their timers, and they and the queued ones are cancelled. */
  function OnNewIncarnation(s: State): State {
    s.(incarnation := s.incarnation + 1,
       reservations := CancelAll(s.reservations, TextReservations(s) + ScrollReservations(s) + s.queued),
       timers := s.timers - PendingTimers(s),
       textInputs := map[], scrollInputs := map[], queued := {})
  }

  // ----- steps -----

  datatype Event =
    | DirectInput(id: nat)
    | TextInput(key: Key, text: nat)
    | WheelInput(key: Key, delta: Delta)
    | Flush(key: Key, elementIsCurrent: bool)
    | TimerFires(timer: TimerId, elementIsCurrent: bool)
    | NewIncarnation
      /** The link of reservation `k` runs: it sends its input, or finds nothing to send. */
    | LinkRuns(k: nat)
      /** The request of reservation `k` is answered or fails. */
    | Settles(k: nat)
      /** Its settled dispatch takes reservation `k` off the list of queued inputs. */
    | Untracks(k: nat)

  /** A link waits for the link made just before it. */
  predicate IsTurnOf(s: State, k: nat) {
    k < |s.reservations| && (k == 0 || s.reservations[k - 1].phase.Done?)
  }

  predicate Enabled(s: State, e: Event) {
    match e
    case TimerFires(t, _) => t in s.timers
    case LinkRuns(k) => IsTurnOf(s, k) && s.reservations[k].phase.Waiting? && !s.reservations[k].release.Unreleased?
    case Settles(k) => k < |s.reservations| && s.reservations[k].phase.Sending?
    case Untracks(k) => k < |s.reservations| && s.reservations[k].phase.Done? && k in s.queued
    case _ => true
  }

  /** Pending entries and timers name reservations that exist. */
  predicate Sane(s: State) {
    && (forall key :: key in s.textInputs ==> s.textInputs[key].reservation < |s.reservations|)
    && (forall key :: key in s.scrollInputs ==> s.scrollInputs[key].reservation < |s.reservations|)
    && (forall t :: t in s.timers && s.timers[t].ScrollTimer? ==> s.timers[t].reservation < |s.reservations|)
  }

  function Fire(s: State, t: TimerId, elementIsCurrent: bool): State
    requires Sane(s) && t in s.timers
  {
    var fired := s.(timers := Without(s.timers, t));
    match s.timers[t]
    case TextTimer(key) => OnFlush(fired, key, elementIsCurrent)
    case ScrollTimer(key, incarnation, k) => OnScrollTimer(fired, key, incarnation, k)
  }

  function RunLink(s: State, k: nat): State
    requires k < |s.reservations|
  {
    var r := s.reservations[k];
    if r.release.ReleasedInput? && !r.cancelled then Update(s, k, r.(phase := Sending)).(sent := s.sent + [k])
    else Update(s, k, r.(phase := Done))
  }

  function Next(s: State, e: Event): State
    requires Sane(s) && Enabled(s, e)
  {
    match e
    case DirectInput(id) => OnDirect(s, id)
    case TextInput(key, text) => OnText(s, key, text)
    case WheelInput(key, delta) => OnWheel(s, key, delta)
    case Flush(key, current) => OnFlush(s, key, current)
    case TimerFires(t, current) => Fire(s, t, current)
    case NewIncarnation => OnNewIncarnation(s)
    case LinkRuns(k) => RunLink(s, k)
    case Settles(k) => Update(s, k, s.reservations[k].(phase := Done))
    case Untracks(k) => s.(queued := s.queued - {k})
  }

  /** `events` can happen one after another from `s`, and lead to `t`. */
  ghost predicate Leads(s: State, events: seq<Event>, t: State)
    decreases events
  {
    if events == [] then s == t
    else Sane(s) && Enabled(s, events[0]) && Leads(Next(s, events[0]), events[1..], t)
  }
}
