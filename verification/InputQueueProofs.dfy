/** What every interleaving of the input queue keeps. */
module InputQueueProofs {
  import opened InputQueue

  // ----- the invariant -----

  /** Links run in order: once one has run, all before it are done. */
  predicate InOrder(rs: seq<Reservation>) {
    forall i, j :: 0 <= i < j < |rs| && !rs[j].phase.Waiting? ==> rs[i].phase.Done?
  }

  /** Inputs are sent once each, in reservation order, and only by links that ran. */
  predicate SentOk(rs: seq<Reservation>, sent: seq<nat>) {
    && (forall i, j :: 0 <= i < j < |sent| ==> sent[i] < sent[j])
    && (forall i :: 0 <= i < |sent| ==> sent[i] < |rs| && !rs[sent[i]].phase.Waiting?)
    && (forall k :: 0 <= k < |rs| && rs[k].phase.Sending? ==> k in sent)
  }

  /** A reservation that some pending entry still holds. */
  predicate Held(rs: seq<Reservation>, k: nat, kind: Kind) {
    && k < |rs| && rs[k].kind == kind && rs[k].release.Unreleased?
    && !rs[k].cancelled && rs[k].phase.Waiting?
  }

  /** Each pending text entry holds its own reservation, its own timer is armed, and it has the
      text that was typed last. */
  predicate TextOk(s: State) {
    && (forall key :: key in s.textInputs ==>
          && Held(s.reservations, s.textInputs[key].reservation, Text)
          && s.textInputs[key].incarnation == s.incarnation
          && s.textInputs[key].text == s.reservations[s.textInputs[key].reservation].typed
          && s.textInputs[key].timer in s.timers
          && s.timers[s.textInputs[key].timer] == TextTimer(key))
    && (forall a, b :: a in s.textInputs && b in s.textInputs && a != b ==>
          s.textInputs[a].reservation != s.textInputs[b].reservation)
  }

  /** Likewise for scrolling, and the entry has accumulated all that was scrolled. */
  predicate ScrollOk(s: State) {
    && (forall key :: key in s.scrollInputs ==>
          && Held(s.reservations, s.scrollInputs[key].reservation, Scroll)
          && s.scrollInputs[key].incarnation == s.incarnation
          && s.scrollInputs[key].delta == s.reservations[s.scrollInputs[key].reservation].wheel
          && s.scrollInputs[key].timer in s.timers
          && s.timers[s.scrollInputs[key].timer] == ScrollTimer(key, s.incarnation, s.scrollInputs[key].reservation))
    && (forall a, b :: a in s.scrollInputs && b in s.scrollInputs && a != b ==>
          s.scrollInputs[a].reservation != s.scrollInputs[b].reservation)
  }

  /** Every armed timer is the timer of the pending entry it is for. */
  predicate TimerOk(s: State, t: TimerId)
    requires t in s.timers
  {
    && t < s.nextTimer
    && match s.timers[t]
       case TextTimer(key) => key in s.textInputs && s.textInputs[key].timer == t
       case ScrollTimer(key, incarnation, k) =>
         && key in s.scrollInputs && s.scrollInputs[key].timer == t
         && s.scrollInputs[key].reservation == k && incarnation == s.incarnation
  }

  predicate HeldByText(m: map<Key, PendingText>, k: nat) {
    exists key :: key in m && m[key].reservation == k
  }

  predicate HeldByScroll(m: map<Key, PendingScroll>, k: nat) {
    exists key :: key in m && m[key].reservation == k
  }

  /** Where a reservation can be: held by an entry, tracked as queued, cancelled, or past its turn. */
  predicate ReservationOk(s: State, k: nat)
    requires k < |s.reservations|
  {
    var r := s.reservations[k];
    match r.release
    case Unreleased =>
      && r.phase.Waiting?
      && !r.kind.Direct?
      && (r.kind.Text? ==> HeldByText(s.textInputs, k))
      && (r.kind.Scroll? ==> HeldByScroll(s.scrollInputs, k))
    case ReleasedNull => r.cancelled
    case ReleasedInput(payload) =>
      && (!r.kind.Direct? && r.phase.Waiting? && !r.cancelled ==> k in s.queued)
      && (r.kind.Scroll? ==> payload == ScrollPayload(r.wheel))
      && (r.kind.Text? ==> payload == TextPayload(r.typed))
  }

  predicate EntriesOk(s: State) {
    TextOk(s) && ScrollOk(s) && (forall t :: t in s.timers ==> TimerOk(s, t))
  }

  predicate ReservationsOk(s: State) {
    && (forall k :: 0 <= k < |s.reservations| ==> ReservationOk(s, k))
    && (forall k :: k in s.queued ==> k < |s.reservations|)
  }

  predicate Inv(s: State) {
    InOrder(s.reservations) && SentOk(s.reservations, s.sent) && EntriesOk(s) && ReservationsOk(s)
  }

  lemma InvIsSane(s: State)
    requires EntriesOk(s)
    ensures Sane(s)
  {
    forall t | t in s.timers && s.timers[t].ScrollTimer? ensures s.timers[t].reservation < |s.reservations| {
      assert TimerOk(s, t);
    }
  }

  // ----- handlers keep the chain -----

  /** Handlers leave the phases alone and append waiting links only. */
  predicate SamePhases(rs: seq<Reservation>, rs': seq<Reservation>) {
    && |rs| <= |rs'|
    && (forall k :: 0 <= k < |rs| ==> rs'[k].phase == rs[k].phase)
    && (forall k :: |rs| <= k < |rs'| ==> rs'[k].phase.Waiting?)
  }

  lemma SamePhasesKeepChain(rs: seq<Reservation>, rs': seq<Reservation>, sent: seq<nat>)
    requires InOrder(rs) && SentOk(rs, sent) && SamePhases(rs, rs')
    ensures InOrder(rs') && SentOk(rs', sent)
  {
  }

  lemma InputsKeepPhases(s: State, e: Event)
    requires Sane(s) && Enabled(s, e) && (e.DirectInput? || e.TextInput? || e.WheelInput?)
    ensures SamePhases(s.reservations, Next(s, e).reservations) && Next(s, e).sent == s.sent
  {
  }

  lemma TimersKeepPhases(s: State, e: Event)
    requires Sane(s) && Enabled(s, e) && (e.Flush? || e.TimerFires?)
    ensures SamePhases(s.reservations, Next(s, e).reservations) && Next(s, e).sent == s.sent
  {
  }

  lemma HandlersKeepPhases(s: State, e: Event)
    requires Sane(s) && Enabled(s, e) && !e.LinkRuns? && !e.Settles?
    ensures SamePhases(s.reservations, Next(s, e).reservations) && Next(s, e).sent == s.sent
  {
    if e.DirectInput? || e.TextInput? || e.WheelInput? {
      InputsKeepPhases(s, e);
    } else if e.Flush? || e.TimerFires? {
      TimersKeepPhases(s, e);
    }
  }

  lemma NextKeepsChain(s: State, e: Event)
    requires Sane(s) && Enabled(s, e) && InOrder(s.reservations) && SentOk(s.reservations, s.sent)
    ensures InOrder(Next(s, e).reservations) && SentOk(Next(s, e).reservations, Next(s, e).sent)
  {
    match e
    case LinkRuns(k) => LinkKeepsChain(s, k);
    case Settles(k) => assert Next(s, e).reservations == s.reservations[k := s.reservations[k].(phase := Done)];
    case _ =>
      HandlersKeepPhases(s, e);
      SamePhasesKeepChain(s.reservations, Next(s, e).reservations, s.sent);
  }

  lemma LinkKeepsChain(s: State, k: nat)
    requires InOrder(s.reservations) && SentOk(s.reservations, s.sent) && Enabled(s, LinkRuns(k))
    ensures InOrder(RunLink(s, k).reservations) && SentOk(RunLink(s, k).reservations, RunLink(s, k).sent)
  {
    forall j | 0 <= j < k ensures s.reservations[j].phase.Done? {
      if j < k - 1 { assert !s.reservations[k - 1].phase.Waiting?; }
    }
    forall i | 0 <= i < |s.sent| ensures s.sent[i] < k {
      WaitingIsLast(s.reservations, k, s.sent[i]);
    }
    var r := s.reservations[k];
    RunKeepsOrder(s.reservations, k, r.(phase := Sending));
    RunKeepsOrder(s.reservations, k, r.(phase := Done));
    LinkKeepsSent(s.reservations, s.sent, k, r.(phase := Done), s.sent);
    LinkKeepsSent(s.reservations, s.sent, k, r.(phase := Sending), s.sent + [k]);
  }

  lemma LinkKeepsSent(rs: seq<Reservation>, sent: seq<nat>, k: nat, r: Reservation, sent': seq<nat>)
    requires SentOk(rs, sent) && k < |rs| && rs[k].phase.Waiting? && forall i :: 0 <= i < |sent| ==> sent[i] < k
    requires (r.phase.Done? && sent' == sent) || (r.phase.Sending? && sent' == sent + [k])
    ensures SentOk(rs[k := r], sent')
  {
  }

  lemma RunKeepsOrder(rs: seq<Reservation>, k: nat, r: Reservation)
    requires InOrder(rs) && k < |rs| && rs[k].phase.Waiting? && forall j :: 0 <= j < k ==> rs[j].phase.Done?
    ensures InOrder(rs[k := r])
  {
    forall j | k < j < |rs| ensures rs[j].phase.Waiting? {
    }
  }

  lemma WaitingIsLast(rs: seq<Reservation>, k: nat, j: nat)
    requires InOrder(rs) && k < |rs| && rs[k].phase.Waiting? && j < |rs| && !rs[j].phase.Waiting?
    ensures j < k
  {
  }

  // ----- handlers keep the entries -----

  /** Appending a reservation or touching one that no entry holds does not disturb the entries. */
  lemma EntriesSurvive(s: State, s': State)
    requires EntriesOk(s)
    requires s'.textInputs == s.textInputs && s'.scrollInputs == s.scrollInputs && s'.timers == s.timers
    requires s'.nextTimer == s.nextTimer && s'.incarnation == s.incarnation
    requires |s.reservations| <= |s'.reservations|
    requires forall k :: 0 <= k < |s.reservations| && s.reservations[k].release.Unreleased? && s.reservations[k].phase.Waiting?
                         ==> s'.reservations[k] == s.reservations[k]
    ensures EntriesOk(s')
  {
    forall t | t in s'.timers ensures TimerOk(s', t) { assert TimerOk(s, t); }
  }

  lemma NextTimerIsNew(s: State)
    requires forall t :: t in s.timers ==> TimerOk(s, t)
    ensures s.nextTimer !in s.timers
  {
    forall t | t in s.timers ensures t != s.nextTimer { assert TimerOk(s, t); }
  }

  /** Typing again moves the entry to a new timer. */
  lemma RetypeKeepsText(s: State, key: Key, text: nat, s': State)
    requires TextOk(s) && key in s.textInputs && s.nextTimer !in s.timers && s' == OnText(s, key, text)
    ensures TextOk(s')
  {
    forall other | other in s.textInputs && other != key
      ensures s.textInputs[other].timer != s.textInputs[key].timer
    {
      assert s.timers[s.textInputs[other].timer] == TextTimer(other);
    }
  }

  lemma RetypeKeepsScroll(s: State, key: Key, text: nat, s': State)
    requires ScrollOk(s) && TextOk(s) && key in s.textInputs && s.nextTimer !in s.timers && s' == OnText(s, key, text)
    ensures ScrollOk(s')
  {
    assert s.timers[s.textInputs[key].timer].TextTimer?;
  }

  lemma RetypeKeepsEntries(s: State, key: Key, text: nat)
    requires EntriesOk(s) && key in s.textInputs
    ensures EntriesOk(OnText(s, key, text))
  {
    var s' := OnText(s, key, text);
    NextTimerIsNew(s);
    RetypeKeepsText(s, key, text, s');
    RetypeKeepsScroll(s, key, text, s');
    forall t | t in s'.timers ensures TimerOk(s', t) {
      if t != s.nextTimer { assert TimerOk(s, t); }
    }
  }

  /** A new entry has a reservation and a timer of its own. */
  lemma FirstTextKeepsText(s: State, key: Key, text: nat, s': State)
    requires TextOk(s) && key !in s.textInputs && s.nextTimer !in s.timers && s' == OnText(s, key, text)
    ensures TextOk(s')
  {
  }

  lemma FirstTextKeepsScroll(s: State, key: Key, text: nat, s': State)
    requires ScrollOk(s) && key !in s.textInputs && s.nextTimer !in s.timers && s' == OnText(s, key, text)
    ensures ScrollOk(s')
  {
  }

  lemma FirstTextKeepsEntries(s: State, key: Key, text: nat)
    requires EntriesOk(s) && key !in s.textInputs
    ensures EntriesOk(OnText(s, key, text))
  {
    var s' := OnText(s, key, text);
    NextTimerIsNew(s);
    FirstTextKeepsText(s, key, text, s');
    FirstTextKeepsScroll(s, key, text, s');
    forall t | t in s'.timers ensures TimerOk(s', t) {
      if t != s.nextTimer { assert TimerOk(s, t); }
    }
  }

  lemma MoreWheelKeepsEntries(s: State, key: Key, delta: Delta)
    requires EntriesOk(s) && key in s.scrollInputs
    ensures EntriesOk(OnWheel(s, key, delta))
  {
    var s' := OnWheel(s, key, delta);
    forall t | t in s'.timers ensures TimerOk(s', t) { assert TimerOk(s, t); }
  }

  lemma FirstWheelKeepsText(s: State, key: Key, delta: Delta, s': State)
    requires TextOk(s) && key !in s.scrollInputs && s.nextTimer !in s.timers && s' == OnWheel(s, key, delta)
    ensures TextOk(s')
  {
  }

  lemma FirstWheelKeepsScroll(s: State, key: Key, delta: Delta, s': State)
    requires ScrollOk(s) && key !in s.scrollInputs && s.nextTimer !in s.timers && s' == OnWheel(s, key, delta)
    ensures ScrollOk(s')
  {
  }

  lemma FirstWheelKeepsEntries(s: State, key: Key, delta: Delta)
    requires EntriesOk(s) && key !in s.scrollInputs
    ensures EntriesOk(OnWheel(s, key, delta))
  {
    var s' := OnWheel(s, key, delta);
    NextTimerIsNew(s);
    FirstWheelKeepsText(s, key, delta, s');
    FirstWheelKeepsScroll(s, key, delta, s');
    forall t | t in s'.timers ensures TimerOk(s', t) {
      if t != s.nextTimer { assert TimerOk(s, t); }
    }
  }

  lemma FlushKeepsEntries(s: State, key: Key, current: bool)
    requires EntriesOk(s)
    ensures EntriesOk(OnFlush(s, key, current))
  {
    if key in s.textInputs {
      var s' := OnFlush(s, key, current);
      forall t | t in s'.timers ensures TimerOk(s', t) { assert TimerOk(s, t); }
    }
  }

  lemma ScrollFireKeepsEntries(s: State, t: TimerId, current: bool)
    requires EntriesOk(s) && Sane(s) && t in s.timers && s.timers[t].ScrollTimer?
    ensures EntriesOk(Fire(s, t, current))
  {
    var s' := Fire(s, t, current);
    assert TimerOk(s, t);
    forall u | u in s'.timers ensures TimerOk(s', u) { assert TimerOk(s, u); }
  }

  /** A timer for text that fires is as good as a flush. */
  lemma TextFireIsFlush(s: State, t: TimerId, current: bool)
    requires EntriesOk(s) && Sane(s) && t in s.timers && s.timers[t].TextTimer?
    ensures Fire(s, t, current) == OnFlush(s, s.timers[t].key, current)
  {
    assert TimerOk(s, t);
    assert Without(Without(s.timers, t), t) == Without(s.timers, t);
  }

  /** All armed timers belonged to pending entries. */
  lemma NoTimersLeft(s: State)
    requires forall t :: t in s.timers ==> TimerOk(s, t)
    ensures OnNewIncarnation(s).timers == map[]
  {
    forall t | t in s.timers ensures t in PendingTimers(s) {
      assert TimerOk(s, t);
      match s.timers[t]
      case TextTimer(key) => assert key in s.textInputs && s.textInputs[key].timer == t;
      case ScrollTimer(key, _, _) => assert key in s.scrollInputs && s.scrollInputs[key].timer == t;
    }
  }

  lemma NextKeepsEntries(s: State, e: Event, s': State)
    requires EntriesOk(s) && Sane(s) && Enabled(s, e) && s' == Next(s, e)
    ensures EntriesOk(s')
  {
    match e
    case TextInput(key, text) =>
      if key in s.textInputs { RetypeKeepsEntries(s, key, text); } else { FirstTextKeepsEntries(s, key, text); }
    case WheelInput(key, delta) =>
      if key in s.scrollInputs { MoreWheelKeepsEntries(s, key, delta); } else { FirstWheelKeepsEntries(s, key, delta); }
    case Flush(key, current) => FlushKeepsEntries(s, key, current);
    case TimerFires(t, current) =>
      if s.timers[t].TextTimer? {
        TextFireIsFlush(s, t, current);
        FlushKeepsEntries(s, s.timers[t].key, current);
      } else {
        ScrollFireKeepsEntries(s, t, current);
      }
    case NewIncarnation => NoTimersLeft(s);
    case _ => EntriesSurvive(s, s');
  }

  // ----- handlers keep the reservations -----

  /** Adding or changing the entry of a key keeps the reservations that its old entry held, if
      the new entry holds the same one. */
  lemma StillHeldByText(m: map<Key, PendingText>, m': map<Key, PendingText>, k: nat)
    requires HeldByText(m, k)
    requires forall key :: key in m && m[key].reservation == k ==> key in m' && m'[key].reservation == k
    ensures HeldByText(m', k)
  {
    var key :| key in m && m[key].reservation == k;
    assert key in m' && m'[key].reservation == k;
  }

  lemma StillHeldByScroll(m: map<Key, PendingScroll>, m': map<Key, PendingScroll>, k: nat)
    requires HeldByScroll(m, k)
    requires forall key :: key in m && m[key].reservation == k ==> key in m' && m'[key].reservation == k
    ensures HeldByScroll(m', k)
  {
    var key :| key in m && m[key].reservation == k;
    assert key in m' && m'[key].reservation == k;
  }

  lemma TextKeepsReservations(s: State, key: Key, text: nat)
    requires EntriesOk(s) && ReservationsOk(s)
    ensures ReservationsOk(OnText(s, key, text))
  {
    var s' := OnText(s, key, text);
    forall k | 0 <= k < |s'.reservations| ensures ReservationOk(s', k) {
      if k < |s.reservations| {
        assert ReservationOk(s, k);
        if HeldByText(s.textInputs, k) { StillHeldByText(s.textInputs, s'.textInputs, k); }
      } else {
        assert s'.textInputs[key].reservation == k;
      }
    }
  }

  lemma WheelKeepsReservations(s: State, key: Key, delta: Delta)
    requires EntriesOk(s) && ReservationsOk(s)
    ensures ReservationsOk(OnWheel(s, key, delta))
  {
    var s' := OnWheel(s, key, delta);
    forall k | 0 <= k < |s'.reservations| ensures ReservationOk(s', k) {
      if k < |s.reservations| {
        assert ReservationOk(s, k);
        if HeldByScroll(s.scrollInputs, k) { StillHeldByScroll(s.scrollInputs, s'.scrollInputs, k); }
      } else {
        assert s'.scrollInputs[key].reservation == k;
      }
    }
  }

  lemma FlushKeepsReservations(s: State, key: Key, current: bool)
    requires EntriesOk(s) && ReservationsOk(s) && key in s.textInputs
    ensures ReservationsOk(OnFlush(s, key, current))
  {
    var s' := OnFlush(s, key, current);
    var taken := s.textInputs[key].reservation;
    forall k | 0 <= k < |s'.reservations| ensures ReservationOk(s', k) {
      assert ReservationOk(s, k);
      if k != taken && HeldByText(s.textInputs, k) { StillHeldByText(s.textInputs, s'.textInputs, k); }
    }
  }

  lemma ScrollFireKeepsReservations(s: State, t: TimerId, current: bool)
    requires EntriesOk(s) && ReservationsOk(s) && Sane(s) && t in s.timers && s.timers[t].ScrollTimer?
    ensures ReservationsOk(Fire(s, t, current))
  {
    var s' := Fire(s, t, current);
    assert TimerOk(s, t);
    var taken := s.timers[t].reservation;
    forall k | 0 <= k < |s'.reservations| ensures ReservationOk(s', k) {
      assert ReservationOk(s, k);
      if k != taken && HeldByScroll(s.scrollInputs, k) { StillHeldByScroll(s.scrollInputs, s'.scrollInputs, k); }
    }
  }

  /** A new incarnation cancels whatever was held or queued. */
  lemma IncarnationCancels(s: State, k: nat)
    requires ReservationsOk(s) && k < |s.reservations| && !s.reservations[k].kind.Direct? && s.reservations[k].phase.Waiting?
    ensures OnNewIncarnation(s).reservations[k].cancelled && !OnNewIncarnation(s).reservations[k].release.Unreleased?
  {
    assert ReservationOk(s, k);
    var r := s.reservations[k];
    if r.release.Unreleased? && r.kind.Text? {
      var key :| key in s.textInputs && s.textInputs[key].reservation == k;
      assert k in TextReservations(s);
    } else if r.release.Unreleased? {
      var key :| key in s.scrollInputs && s.scrollInputs[key].reservation == k;
      assert k in ScrollReservations(s);
    }
  }

  lemma IncarnationKeepsReservations(s: State)
    requires ReservationsOk(s)
    ensures ReservationsOk(OnNewIncarnation(s))
  {
    var s' := OnNewIncarnation(s);
    forall k | 0 <= k < |s'.reservations| ensures ReservationOk(s', k) {
      assert ReservationOk(s, k);
      if !s.reservations[k].kind.Direct? && s.reservations[k].phase.Waiting? { IncarnationCancels(s, k); }
    }
  }

  lemma NextKeepsReservations(s: State, e: Event)
    requires EntriesOk(s) && ReservationsOk(s) && Sane(s) && Enabled(s, e)
    ensures ReservationsOk(Next(s, e))
  {
    match e
    case TextInput(key, text) => TextKeepsReservations(s, key, text);
    case WheelInput(key, delta) => WheelKeepsReservations(s, key, delta);
    case Flush(key, current) => if key in s.textInputs { FlushKeepsReservations(s, key, current); }
    case TimerFires(t, current) =>
      if s.timers[t].TextTimer? {
        TextFireIsFlush(s, t, current);
        assert TimerOk(s, t);
        FlushKeepsReservations(s, s.timers[t].key, current);
      } else {
        ScrollFireKeepsReservations(s, t, current);
      }
    case NewIncarnation => IncarnationKeepsReservations(s);
    case DirectInput(id) => DirectKeepsReservations(s, id);
    case _ => LinksKeepReservations(s, e);
  }

  lemma DirectKeepsReservations(s: State, id: nat)
    requires ReservationsOk(s)
    ensures ReservationsOk(OnDirect(s, id))
  {
    var s' := OnDirect(s, id);
    forall k | 0 <= k < |s'.reservations| ensures ReservationOk(s', k) {
      if k < |s.reservations| { assert ReservationOk(s, k); }
    }
  }

  lemma LinksKeepReservations(s: State, e: Event)
    requires ReservationsOk(s) && Sane(s) && Enabled(s, e) && (e.LinkRuns? || e.Settles? || e.Untracks?)
    ensures ReservationsOk(Next(s, e))
  {
    var s' := Next(s, e);
    forall k | 0 <= k < |s'.reservations| ensures ReservationOk(s', k) { assert ReservationOk(s, k); }
  }

  // ----- runs -----

  lemma NextKeepsInv(s: State, e: Event, s': State)
    requires Inv(s) && Sane(s) && Enabled(s, e) && s' == Next(s, e)
    ensures Inv(s')
  {
    NextKeepsChain(s, e);
    NextKeepsEntries(s, e, s');
    NextKeepsReservations(s, e);
  }

  /** The invariant holds throughout every run. */
  lemma {:induction false} RunsKeepInv(s: State, events: seq<Event>, t: State)
    requires Inv(s) && Leads(s, events, t)
    ensures Inv(t)
    decreases events
  {
    if events != [] {
      var s' := Next(s, events[0]);
      NextKeepsInv(s, events[0], s');
      RunsKeepInv(s', events[1..], t);
    }
  }

  /** No handler is ever handed a dangling entry: in every reachable state every enabled event
      has a next state, so runs stop only where nothing is enabled. */
  lemma ReachableIsSane(events: seq<Event>, t: State)
    requires Leads(INITIAL, events, t)
    ensures Sane(t)
  {
    RunsKeepInv(INITIAL, events, t);
    InvIsSane(t);
  }

  // ----- order, one at a time, at most once -----

  lemma SentInOrderOneAtATime(events: seq<Event>, t: State)
    requires Leads(INITIAL, events, t)
    ensures forall i, j :: 0 <= i < j < |t.sent| ==> t.sent[i] < t.sent[j]
    ensures forall j, k :: 0 <= j < k < |t.reservations| && t.reservations[k].phase.Sending? ==> t.reservations[j].phase.Done?
    ensures forall k :: k in t.sent ==> k < |t.reservations| && !t.reservations[k].release.Unreleased?
  {
    RunsKeepInv(INITIAL, events, t);
    forall i | 0 <= i < |t.sent| ensures !t.reservations[t.sent[i]].release.Unreleased? {
      assert ReservationOk(t, t.sent[i]);
    }
  }

  /** A text input that is released, and one that is pending, has the text that was typed last. */
  lemma LatestTextIsSent(events: seq<Event>, t: State)
    requires Leads(INITIAL, events, t)
    ensures forall k :: 0 <= k < |t.reservations| && t.reservations[k].kind.Text? && t.reservations[k].release.ReleasedInput?
                        ==> t.reservations[k].release.payload == TextPayload(t.reservations[k].typed)
    ensures forall key :: key in t.textInputs ==>
              && t.textInputs[key].reservation < |t.reservations|
              && t.textInputs[key].text == t.reservations[t.textInputs[key].reservation].typed
  {
    RunsKeepInv(INITIAL, events, t);
    forall k | 0 <= k < |t.reservations| && t.reservations[k].kind.Text? && t.reservations[k].release.ReleasedInput?
      ensures t.reservations[k].release.payload == TextPayload(t.reservations[k].typed)
    {
      assert ReservationOk(t, k);
    }
  }

  // ----- cancelling -----

  predicate WillNotBeSent(s: State, k: nat) {
    k < |s.reservations| && s.reservations[k].cancelled && !s.reservations[k].phase.Sending? && k !in s.sent
  }

  /** No step takes a cancellation back. */
  predicate KeepsCancelled(rs: seq<Reservation>, rs': seq<Reservation>) {
    |rs| <= |rs'| && forall k :: 0 <= k < |rs| && rs[k].cancelled ==> rs'[k].cancelled
  }

  lemma InputsKeepCancelled(s: State, e: Event)
    requires Sane(s) && Enabled(s, e) && (e.DirectInput? || e.TextInput? || e.WheelInput?)
    ensures KeepsCancelled(s.reservations, Next(s, e).reservations)
  {
  }

  lemma TimersKeepCancelled(s: State, e: Event)
    requires Sane(s) && Enabled(s, e) && (e.Flush? || e.TimerFires?)
    ensures KeepsCancelled(s.reservations, Next(s, e).reservations)
  {
  }

  lemma OthersKeepCancelled(s: State, e: Event)
    requires Sane(s) && Enabled(s, e) && (e.NewIncarnation? || e.LinkRuns? || e.Settles? || e.Untracks?)
    ensures KeepsCancelled(s.reservations, Next(s, e).reservations)
  {
  }

  lemma NextKeepsCancelled(s: State, e: Event, k: nat, s': State)
    requires Sane(s) && Enabled(s, e) && WillNotBeSent(s, k) && s' == Next(s, e)
    ensures WillNotBeSent(s', k)
  {
    if e.DirectInput? || e.TextInput? || e.WheelInput? {
      InputsKeepCancelled(s, e);
    } else if e.Flush? || e.TimerFires? {
      TimersKeepCancelled(s, e);
    } else {
      OthersKeepCancelled(s, e);
    }
    if e.LinkRuns? || e.Settles? {
      LinksSkipCancelled(s, e, k, s');
    } else {
      HandlersKeepPhases(s, e);
    }
  }

  lemma LinksSkipCancelled(s: State, e: Event, k: nat, s': State)
    requires Sane(s) && Enabled(s, e) && (e.LinkRuns? || e.Settles?) && WillNotBeSent(s, k) && s' == Next(s, e)
    ensures k < |s'.reservations| && !s'.reservations[k].phase.Sending? && k !in s'.sent
  {
  }

  /** A reservation cancelled before its link ran is never sent, whatever happens later. */
  lemma {:induction false} CancelledIsNeverSent(s: State, events: seq<Event>, t: State, k: nat)
    requires Inv(s) && WillNotBeSent(s, k) && Leads(s, events, t)
    ensures k !in t.sent
    decreases events
  {
    if events != [] {
      var s' := Next(s, events[0]);
      NextKeepsInv(s, events[0], s');
      NextKeepsCancelled(s, events[0], k, s');
      CancelledIsNeverSent(s', events[1..], t, k);
    }
  }

  /** No text or scroll input accepted before a new preview incarnation is sent after it, unless
      its link had already run. */
  lemma NewIncarnationSilencesOldInputs(before: seq<Event>, s: State, after: seq<Event>, t: State, k: nat)
    requires Leads(INITIAL, before, s) && Leads(s, [NewIncarnation] + after, t)
    requires k < |s.reservations| && !s.reservations[k].kind.Direct? && s.reservations[k].phase.Waiting?
    ensures k !in t.sent
  {
    RunsKeepInv(INITIAL, before, s);
    IncarnationCancels(s, k);
    NextKeepsInv(s, NewIncarnation, OnNewIncarnation(s));
    assert ([NewIncarnation] + after)[1..] == after;
    CancelledIsNeverSent(OnNewIncarnation(s), after, t, k);
  }

  // ----- no orphans, and draining -----

  /** Entry and armed timer of an unreleased reservation. */
  predicate IsTextEntryOf(s: State, key: Key, k: nat) {
    && key in s.textInputs && s.textInputs[key].reservation == k
    && s.textInputs[key].timer in s.timers && s.timers[s.textInputs[key].timer] == TextTimer(key)
  }

  predicate IsScrollEntryOf(s: State, key: Key, k: nat) {
    && key in s.scrollInputs && s.scrollInputs[key].reservation == k
    && s.scrollInputs[key].timer in s.timers
    && s.timers[s.scrollInputs[key].timer] == ScrollTimer(key, s.incarnation, k)
  }

  /** Each unreleased reservation belongs to exactly one pending entry, whose timer is armed. */
  lemma UnreleasedHasOneEntryAndTimer(events: seq<Event>, s: State, k: nat)
    requires Leads(INITIAL, events, s)
    requires k < |s.reservations| && s.reservations[k].release.Unreleased?
    ensures (exists key :: IsTextEntryOf(s, key, k)) || (exists key :: IsScrollEntryOf(s, key, k))
    ensures !((exists key :: IsTextEntryOf(s, key, k)) && (exists key :: IsScrollEntryOf(s, key, k)))
    ensures forall a, b :: IsTextEntryOf(s, a, k) && IsTextEntryOf(s, b, k) ==> a == b
    ensures forall a, b :: IsScrollEntryOf(s, a, k) && IsScrollEntryOf(s, b, k) ==> a == b
  {
    RunsKeepInv(INITIAL, events, s);
    OneEntry(s, k);
  }

  lemma OneEntry(s: State, k: nat)
    requires EntriesOk(s) && ReservationsOk(s) && k < |s.reservations| && s.reservations[k].release.Unreleased?
    ensures s.reservations[k].kind.Text? ==> exists key :: IsTextEntryOf(s, key, k)
    ensures s.reservations[k].kind.Scroll? ==> exists key :: IsScrollEntryOf(s, key, k)
    ensures !s.reservations[k].kind.Direct?
    ensures forall key :: IsTextEntryOf(s, key, k) ==> s.reservations[k].kind.Text?
    ensures forall key :: IsScrollEntryOf(s, key, k) ==> s.reservations[k].kind.Scroll?
    ensures forall a, b :: IsTextEntryOf(s, a, k) && IsTextEntryOf(s, b, k) ==> a == b
    ensures forall a, b :: IsScrollEntryOf(s, a, k) && IsScrollEntryOf(s, b, k) ==> a == b
  {
    assert ReservationOk(s, k);
    if s.reservations[k].kind.Text? {
      var key :| key in s.textInputs && s.textInputs[key].reservation == k;
      assert IsTextEntryOf(s, key, k);
    } else {
      var key :| key in s.scrollInputs && s.scrollInputs[key].reservation == k;
      assert IsScrollEntryOf(s, key, k);
    }
  }

  function PhaseWeight(phase: Phase): nat {
    match phase case Waiting => 2 case Sending => 1 case Done => 0
  }

  function Weight(rs: seq<Reservation>): nat {
    if rs == [] then 0 else Weight(rs[..|rs| - 1]) + PhaseWeight(rs[|rs| - 1].phase)
  }

  /** What is left to do without new user input. */
  function Work(s: State): nat {
    Weight(s.reservations) + 2 * |s.timers| + |s.queued|
  }

  predicate IsInternal(e: Event) {
    e.TimerFires? || e.LinkRuns? || e.Settles? || e.Untracks?
  }

  lemma {:induction false} WeightUpdate(rs: seq<Reservation>, k: nat, r: Reservation)
    requires k < |rs|
    ensures Weight(rs[k := r]) == Weight(rs) - PhaseWeight(rs[k].phase) + PhaseWeight(r.phase)
    decreases |rs|
  {
    var last := |rs| - 1;
    if k < last {
      assert rs[k := r][..last] == rs[..last][k := r];
      WeightUpdate(rs[..last], k, r);
    } else {
      assert rs[k := r][..last] == rs[..last];
    }
  }

  /** A timer that fires is spent on one reservation. */
  lemma TimerSpends(s: State, t: TimerId, current: bool, s': State) returns (k: nat)
    requires EntriesOk(s) && Sane(s) && t in s.timers && s' == Fire(s, t, current)
    ensures s'.timers == s.timers - {t} && s'.queued <= s.queued + {k}
    ensures k < |s.reservations| && SamePhases(s.reservations, s'.reservations)
    ensures |s'.reservations| == |s.reservations|
  {
    assert TimerOk(s, t);
    if s.timers[t].TextTimer? { TextFireIsFlush(s, t, current); }
    HandlersKeepPhases(s, TimerFires(t, current));
    k := if s.timers[t].TextTimer? then s.textInputs[s.timers[t].key].reservation else s.timers[t].reservation;
  }

  lemma {:induction false} SamePhasesSameWeight(rs: seq<Reservation>, rs': seq<Reservation>)
    requires SamePhases(rs, rs') && |rs| == |rs'|
    ensures Weight(rs) == Weight(rs')
  {
    if rs != [] { SamePhasesSameWeight(rs[..|rs| - 1], rs'[..|rs| - 1]); }
  }

  lemma FewerTimers(timers: map<TimerId, Timer>, t: TimerId)
    requires t in timers
    ensures |timers - {t}| == |timers| - 1
  {
    assert (timers - {t}).Keys == timers.Keys - {t};
    assert timers.Keys == (timers.Keys - {t}) + {t};
  }

  lemma TimerUsesWork(s: State, t: TimerId, current: bool, s': State)
    requires EntriesOk(s) && Sane(s) && t in s.timers && s' == Fire(s, t, current)
    ensures Work(s') < Work(s)
  {
    var k := TimerSpends(s, t, current, s');
    SamePhasesSameWeight(s.reservations, s'.reservations);
    FewerTimers(s.timers, t);
    CardinalityAtMost(s'.queued, s.queued, k);
  }

  lemma CardinalityAtMost(a: set<nat>, b: set<nat>, k: nat)
    requires a <= b + {k}
    ensures |a| <= |b| + 1
  {
    assert b + {k} == a + ((b + {k}) - a);
    assert b + {k} == b + ({k} - b);
  }

  /** Timers firing, links running and requests settling use up the work. */
  lemma InternalStepsDecreaseWork(s: State, e: Event, s': State)
    requires EntriesOk(s) && Sane(s) && Enabled(s, e) && IsInternal(e) && s' == Next(s, e)
    ensures Work(s') < Work(s)
  {
    match e
    case TimerFires(t, current) => TimerUsesWork(s, t, current, s');
    case LinkRuns(k) => WeightUpdate(s.reservations, k, s'.reservations[k]);
    case Settles(k) => WeightUpdate(s.reservations, k, s'.reservations[k]);
    case Untracks(k) =>
  }

  predicate Drained(s: State) {
    s.timers == map[] && s.queued == {} && forall k :: 0 <= k < |s.reservations| ==> s.reservations[k].phase.Done?
  }

  /** While anything is left, some timer, link or request can take its step: the queue cannot
      get stuck on a reservation that nobody will release. */
  lemma NotStuck(s: State) returns (e: Event)
    requires Inv(s) && !Drained(s)
    ensures IsInternal(e) && Enabled(s, e)
  {
    if s.timers != map[] {
      var t :| t in s.timers;
      return TimerFires(t, true);
    }
    if k :| 0 <= k < |s.reservations| && !s.reservations[k].phase.Done? {
      var first := FirstUnfinished(s.reservations, k);
      if s.reservations[first].phase.Sending? { return Settles(first); }
      if s.reservations[first].release.Unreleased? { OneEntry(s, first); }
      return LinkRuns(first);
    }
    var k :| k in s.queued;
    e := Untracks(k);
  }

  lemma FirstUnfinished(rs: seq<Reservation>, k: nat) returns (first: nat)
    requires k < |rs| && !rs[k].phase.Done?
    ensures first <= k && !rs[first].phase.Done? && forall j :: 0 <= j < first ==> rs[j].phase.Done?
  {
    first := 0;
    while rs[first].phase.Done?
      invariant first <= k && forall j :: 0 <= j < first ==> rs[j].phase.Done?
      decreases k - first
    {
      first := first + 1;
    }
  }

  /** Once the user stops, the queue drains: whichever internal steps are taken, there are at
      most `Work(s)` of them, and only a drained queue has none left. */
  lemma {:induction false} QueueDrains(s: State, events: seq<Event>, t: State)
    requires Inv(s) && Leads(s, events, t) && forall i :: 0 <= i < |events| ==> IsInternal(events[i])
    ensures |events| <= Work(s)
    ensures !Drained(t) ==> exists e :: IsInternal(e) && Enabled(t, e)
    decreases events
  {
    if events == [] {
      if !Drained(t) { var e := NotStuck(t); }
    } else {
      var s' := Next(s, events[0]);
      NextKeepsInv(s, events[0], s');
      InternalStepsDecreaseWork(s, events[0], s');
      QueueDrains(s', events[1..], t);
    }
  }

  // ----- scrolling is conserved -----

  datatype Fate = ForDispatch | Pending | Discarded

  function FateOf(release: Release): Fate {
    match release case Unreleased => Pending case ReleasedNull => Discarded case ReleasedInput(_) => ForDispatch
  }

  function ScrollOf(r: Reservation): Delta {
    if r.kind.Scroll? then r.wheel else NO_DELTA
  }

  /** The scrolling accepted for all reservations. */
  function Total(rs: seq<Reservation>): Delta {
    if rs == [] then NO_DELTA else Plus(Total(rs[..|rs| - 1]), ScrollOf(rs[|rs| - 1]))
  }

  /** The scrolling accepted for the reservations that met `fate`. */
  function TotalOf(rs: seq<Reservation>, fate: Fate): Delta {
    if rs == [] then NO_DELTA else Plus(TotalOf(rs[..|rs| - 1], fate), ScrollIf(rs[|rs| - 1], fate))
  }

  function ScrollIf(r: Reservation, fate: Fate): Delta {
    Share(ScrollOf(r), FateOf(r.release), fate)
  }

  function Share(d: Delta, met: Fate, fate: Fate): Delta {
    if met == fate then d else NO_DELTA
  }

  function DeltaOf(e: Event): Delta {
    if e.WheelInput? then e.delta else NO_DELTA
  }

  function Accepted(events: seq<Event>): Delta {
    if events == [] then NO_DELTA else Plus(DeltaOf(events[0]), Accepted(events[1..]))
  }

  lemma {:induction false} TotalUpdate(rs: seq<Reservation>, k: nat, r: Reservation)
    requires k < |rs|
    ensures Plus(Total(rs[k := r]), ScrollOf(rs[k])) == Plus(Total(rs), ScrollOf(r))
    decreases |rs|
  {
    var last := |rs| - 1;
    if k < last {
      assert rs[k := r][..last] == rs[..last][k := r];
      TotalUpdate(rs[..last], k, r);
      var rest, rest' := Total(rs[..last]), Total(rs[..last][k := r]);
      PlusSwaps(rest', ScrollOf(rs[last]), ScrollOf(rs[k]));
      PlusSwaps(rest, ScrollOf(rs[last]), ScrollOf(r));
    } else {
      assert rs[k := r][..last] == rs[..last];
      PlusSwaps(Total(rs[..last]), ScrollOf(r), ScrollOf(rs[k]));
    }
  }

  lemma PlusSwaps(a: Delta, b: Delta, c: Delta)
    ensures Plus(Plus(a, b), c) == Plus(Plus(a, c), b)
  {
  }

  lemma TotalAppend(rs: seq<Reservation>, r: Reservation)
    ensures Total(rs + [r]) == Plus(Total(rs), ScrollOf(r))
  {
    assert (rs + [r])[..|rs|] == rs;
  }

  /** Nothing but the wheel changes what was accepted for a reservation. */
  predicate SameScrolling(a: seq<Reservation>, b: seq<Reservation>) {
    |a| == |b| && forall k :: 0 <= k < |a| ==> a[k].kind == b[k].kind && a[k].wheel == b[k].wheel
  }

  lemma {:induction false} TotalSame(a: seq<Reservation>, b: seq<Reservation>)
    requires SameScrolling(a, b)
    ensures Total(a) == Total(b)
  {
    if a != [] { TotalSame(a[..|a| - 1], b[..|b| - 1]); }
  }

  lemma WheelAccounts(s: State, key: Key, delta: Delta, s': State)
    requires EntriesOk(s) && s' == OnWheel(s, key, delta)
    ensures Total(s'.reservations) == Plus(Total(s.reservations), delta)
  {
    if key in s.scrollInputs {
      var k := s.scrollInputs[key].reservation;
      var r := s.reservations[k];
      assert Held(s.reservations, k, Scroll);
      var r' := r.(wheel := Plus(r.wheel, delta));
      TotalUpdate(s.reservations, k, r');
      PlusCancels(Total(s'.reservations), Total(s.reservations), r.wheel, delta);
    } else {
      TotalAppend(s.reservations, Reservation(Scroll, Unreleased, false, Waiting, delta, 0));
    }
  }

  lemma PlusCancels(a: Delta, b: Delta, c: Delta, d: Delta)
    requires Plus(a, c) == Plus(b, Plus(c, d))
    ensures a == Plus(b, d)
  {
  }

  /** Handlers other than scrolling may append a reservation that nothing was scrolled for. */
  predicate ScrollsNothing(rs: seq<Reservation>, rs': seq<Reservation>) {
    || SameScrolling(rs, rs')
    || (|rs'| == |rs| + 1 && rs == rs'[..|rs|] && !rs'[|rs|].kind.Scroll?)
  }

  lemma InputsScrollNothing(s: State, e: Event, s': State)
    requires Sane(s) && Enabled(s, e) && (e.DirectInput? || e.TextInput?) && s' == Next(s, e)
    ensures ScrollsNothing(s.reservations, s'.reservations)
  {
  }

  lemma TimersScrollNothing(s: State, e: Event, s': State)
    requires Sane(s) && Enabled(s, e) && (e.Flush? || e.TimerFires?) && s' == Next(s, e)
    ensures SameScrolling(s.reservations, s'.reservations)
  {
  }

  lemma LinksScrollNothing(s: State, e: Event, s': State)
    requires Sane(s) && Enabled(s, e) && (e.NewIncarnation? || e.LinkRuns? || e.Settles? || e.Untracks?) && s' == Next(s, e)
    ensures SameScrolling(s.reservations, s'.reservations)
  {
  }

  lemma OthersScrollNothing(s: State, e: Event, s': State)
    requires Sane(s) && Enabled(s, e) && !e.WheelInput? && s' == Next(s, e)
    ensures ScrollsNothing(s.reservations, s'.reservations)
  {
    if e.DirectInput? || e.TextInput? {
      InputsScrollNothing(s, e, s');
    } else if e.Flush? || e.TimerFires? {
      TimersScrollNothing(s, e, s');
    } else {
      LinksScrollNothing(s, e, s');
    }
  }

  lemma NextAccounts(s: State, e: Event, s': State)
    requires EntriesOk(s) && Sane(s) && Enabled(s, e) && s' == Next(s, e)
    ensures Total(s'.reservations) == Plus(Total(s.reservations), DeltaOf(e))
  {
    if e.WheelInput? {
      WheelAccounts(s, e.key, e.delta, s');
    } else {
      OthersScrollNothing(s, e, s');
      PlusNothing(Total(s.reservations));
      if SameScrolling(s.reservations, s'.reservations) {
        TotalSame(s.reservations, s'.reservations);
      }
    }
  }

  lemma PlusAssociates(a: Delta, b: Delta, c: Delta)
    ensures Plus(Plus(a, b), c) == Plus(a, Plus(b, c))
  {
  }

  lemma {:induction false} RunsAccount(s: State, events: seq<Event>, t: State)
    requires Inv(s) && Leads(s, events, t)
    ensures Total(t.reservations) == Plus(Total(s.reservations), Accepted(events))
    decreases events
  {
    if events != [] {
      var s' := Next(s, events[0]);
      NextKeepsInv(s, events[0], s');
      NextAccounts(s, events[0], s');
      RunsAccount(s', events[1..], t);
      PlusAssociates(Total(s.reservations), DeltaOf(events[0]), Accepted(events[1..]));
    } else {
      PlusNothing(Total(s.reservations));
    }
  }

  lemma FateSplits(d: Delta, met: Fate)
    ensures d == Plus(Share(d, met, ForDispatch), Plus(Share(d, met, Pending), Share(d, met, Discarded)))
  {
    PlusNothing(d);
    PlusNothing(NO_DELTA);
  }

  lemma PlusNothing(d: Delta)
    ensures Plus(d, NO_DELTA) == d && Plus(NO_DELTA, d) == d
  {
  }

  lemma PlusRearranges(a: Delta, b: Delta, c: Delta, x: Delta, y: Delta, z: Delta)
    ensures Plus(Plus(a, Plus(b, c)), Plus(x, Plus(y, z))) == Plus(Plus(a, x), Plus(Plus(b, y), Plus(c, z)))
  {
  }

  lemma {:induction false} TotalSplits(rs: seq<Reservation>)
    ensures Total(rs) == Plus(TotalOf(rs, ForDispatch), Plus(TotalOf(rs, Pending), TotalOf(rs, Discarded)))
  {
    if rs != [] {
      var rest, last := rs[..|rs| - 1], rs[|rs| - 1];
      TotalSplits(rest);
      FateSplits(ScrollOf(last), FateOf(last.release));
      PlusRearranges(TotalOf(rest, ForDispatch), TotalOf(rest, Pending), TotalOf(rest, Discarded),
                     ScrollIf(last, ForDispatch), ScrollIf(last, Pending), ScrollIf(last, Discarded));
    }
  }

  /** All scrolling ever accepted was released for dispatch, is still pending, or was discarded
      while pending; released inputs carry exactly what was accepted for them, and pending ones do too. */
  lemma ScrollingIsConserved(events: seq<Event>, t: State)
    requires Leads(INITIAL, events, t)
    ensures Accepted(events) == Plus(TotalOf(t.reservations, ForDispatch),
                                     Plus(TotalOf(t.reservations, Pending), TotalOf(t.reservations, Discarded)))
    ensures forall k :: 0 <= k < |t.reservations| && t.reservations[k].kind.Scroll? && t.reservations[k].release.ReleasedInput?
                        ==> t.reservations[k].release.payload == ScrollPayload(t.reservations[k].wheel)
    ensures forall key :: key in t.scrollInputs ==>
              && t.scrollInputs[key].reservation < |t.reservations|
              && t.scrollInputs[key].delta == t.reservations[t.scrollInputs[key].reservation].wheel
  {
    RunsKeepInv(INITIAL, events, t);
    RunsAccount(INITIAL, events, t);
    TotalSplits(t.reservations);
    PlusNothing(Accepted(events));
    forall k | 0 <= k < |t.reservations| && t.reservations[k].kind.Scroll? && t.reservations[k].release.ReleasedInput?
      ensures t.reservations[k].release.payload == ScrollPayload(t.reservations[k].wheel)
    {
      assert ReservationOk(t, k);
    }
  }
}
