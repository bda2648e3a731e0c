/** Which inputs are sent: in a drained queue, exactly those that were released and not cancelled in time. */
module InputQueueDelivery {
  import opened InputQueue
  import opened InputQueueProofs

  // ----- what no step takes back -----

  /** Kinds stay, and so does a release once it is made. */
  predicate KeepsReleases(rs: seq<Reservation>, rs': seq<Reservation>) {
    && |rs| <= |rs'|
    && forall k :: 0 <= k < |rs| ==>
         rs'[k].kind == rs[k].kind && (!rs[k].release.Unreleased? ==> rs'[k].release == rs[k].release)
  }

  lemma InputsKeepReleases(s: State, e: Event)
    requires Sane(s) && Enabled(s, e) && (e.DirectInput? || e.TextInput? || e.WheelInput?)
    ensures KeepsReleases(s.reservations, Next(s, e).reservations)
  {
  }

  lemma TimersKeepReleases(s: State, e: Event)
    requires Sane(s) && Enabled(s, e) && (e.Flush? || e.TimerFires?)
    ensures KeepsReleases(s.reservations, Next(s, e).reservations)
  {
  }

  lemma OthersKeepReleases(s: State, e: Event)
    requires Sane(s) && Enabled(s, e) && (e.NewIncarnation? || e.LinkRuns? || e.Settles? || e.Untracks?)
    ensures KeepsReleases(s.reservations, Next(s, e).reservations)
  {
  }

  lemma NextKeepsReleases(s: State, e: Event)
    requires Sane(s) && Enabled(s, e)
    ensures KeepsReleases(s.reservations, Next(s, e).reservations)
  {
    if e.DirectInput? || e.TextInput? || e.WheelInput? {
      InputsKeepReleases(s, e);
    } else if e.Flush? || e.TimerFires? {
      TimersKeepReleases(s, e);
    } else {
      OthersKeepReleases(s, e);
    }
  }

  lemma StepKeepsCancelled(s: State, e: Event)
    requires Sane(s) && Enabled(s, e)
    ensures KeepsCancelled(s.reservations, Next(s, e).reservations)
  {
    if e.DirectInput? || e.TextInput? || e.WheelInput? {
      InputsKeepCancelled(s, e);
    } else if e.Flush? || e.TimerFires? {
      TimersKeepCancelled(s, e);
    } else {
      OthersKeepCancelled(s, e);
    }
  }

  // ----- who is sent -----

  /** The reservations that are cancelled and whose turn has not come. */
  function Silenced(s: State): set<nat> {
    set k | 0 <= k < |s.reservations| && s.reservations[k].cancelled && s.reservations[k].phase.Waiting?
  }

  /** Those that were in some state of the run. */
  function EverSilenced(s: State, events: seq<Event>): set<nat>
    decreases |events|
  {
    if events == [] || !Sane(s) || !Enabled(s, events[0]) then Silenced(s)
    else Silenced(s) + EverSilenced(Next(s, events[0]), events[1..])
  }

  /** Of the reservations whose turn has come, those are sent that were released with an input and are
      not among the silenced. */
  ghost predicate SentExactly(s: State, silenced: set<nat>) {
    && Silenced(s) <= silenced
    && (forall k :: k in silenced ==> k < |s.reservations| && s.reservations[k].cancelled)
    && forall k :: 0 <= k < |s.reservations| && !s.reservations[k].phase.Waiting? ==>
         (k in s.sent <==> s.reservations[k].release.ReleasedInput? && k !in silenced)
  }

  lemma LinkSendsExactly(s: State, k: nat, silenced: set<nat>)
    requires Inv(s) && Enabled(s, LinkRuns(k)) && SentExactly(s, silenced)
    ensures SentExactly(RunLink(s, k), silenced + Silenced(RunLink(s, k)))
  {
    var s' := RunLink(s, k);
    assert s.reservations[k].cancelled ==> k in Silenced(s);
    assert k !in s.sent;
    assert Silenced(s') <= Silenced(s);
    forall j | 0 <= j < |s'.reservations| && !s'.reservations[j].phase.Waiting?
      ensures j in s'.sent <==> s'.reservations[j].release.ReleasedInput? && j !in silenced
    {
      if j != k { assert s'.reservations[j] == s.reservations[j]; }
    }
  }

  lemma OthersSendNothing(s: State, e: Event, s': State, silenced: set<nat>)
    requires Inv(s) && Sane(s) && Enabled(s, e) && !e.LinkRuns? && s' == Next(s, e) && SentExactly(s, silenced)
    ensures SentExactly(s', silenced + Silenced(s'))
  {
    NextKeepsReleases(s, e);
    StepKeepsCancelled(s, e);
    PhasesOnlyAdvance(s, e, s');
    forall j | 0 <= j < |s'.reservations| && !s'.reservations[j].phase.Waiting?
      ensures j in s'.sent <==> s'.reservations[j].release.ReleasedInput? && j !in silenced + Silenced(s')
    {
      assert j < |s.reservations| && !s.reservations[j].phase.Waiting?;
      assert ReservationOk(s, j);
    }
  }

  lemma PhasesOnlyAdvance(s: State, e: Event, s': State)
    requires Sane(s) && Enabled(s, e) && !e.LinkRuns? && s' == Next(s, e)
    ensures s'.sent == s.sent && |s.reservations| <= |s'.reservations|
    ensures forall k :: 0 <= k < |s.reservations| ==>
              (s'.reservations[k].phase.Waiting? <==> s.reservations[k].phase.Waiting?)
    ensures forall k :: |s.reservations| <= k < |s'.reservations| ==> s'.reservations[k].phase.Waiting?
  {
    if !e.Settles? { HandlersKeepPhases(s, e); }
  }

  lemma {:induction false} RunsSendExactly(s: State, events: seq<Event>, t: State, silenced: set<nat>)
    requires Inv(s) && Leads(s, events, t) && SentExactly(s, silenced)
    ensures SentExactly(t, silenced + EverSilenced(s, events))
    decreases events
  {
    if events == [] {
      assert silenced + Silenced(s) == silenced;
    } else {
      var e, s' := events[0], Next(s, events[0]);
      if e.LinkRuns? { LinkSendsExactly(s, e.k, silenced); } else { OthersSendNothing(s, e, s', silenced); }
      NextKeepsInv(s, e, s');
      RunsSendExactly(s', events[1..], t, silenced + Silenced(s'));
      SilencedOnce(s, events, silenced);
    }
  }

  lemma SilencedOnce(s: State, events: seq<Event>, silenced: set<nat>)
    requires events != [] && Sane(s) && Enabled(s, events[0]) && Silenced(s) <= silenced
    ensures var s' := Next(s, events[0]);
            silenced + Silenced(s') + EverSilenced(s', events[1..]) == silenced + EverSilenced(s, events)
  {
    var s', rest := Next(s, events[0]), events[1..];
    assert Silenced(s') <= EverSilenced(s', rest);
  }

  /** In every run, an input whose turn has come was sent iff it was released and not cancelled before its turn;
      in a drained state these are all inputs. (They are sent once each and in order: SentInOrderOneAtATime.) */
  lemma SentIffReleasedInTime(events: seq<Event>, t: State, k: nat)
    requires Leads(INITIAL, events, t) && k < |t.reservations|
    ensures !t.reservations[k].phase.Waiting? ==>
              (k in t.sent <==> t.reservations[k].release.ReleasedInput? && k !in EverSilenced(INITIAL, events))
    ensures t.reservations[k].phase.Waiting? ==> k !in t.sent
    ensures Drained(t) ==> !t.reservations[k].phase.Waiting?
  {
    RunsKeepInv(INITIAL, events, t);
    assert Silenced(INITIAL) == {};
    RunsSendExactly(INITIAL, events, t, {});
    assert {} + EverSilenced(INITIAL, events) == EverSilenced(INITIAL, events);
  }

  // ----- direct inputs are always sent -----

  ghost predicate DirectsLive(s: State) {
    && (forall k :: 0 <= k < |s.reservations| && s.reservations[k].kind.Direct? ==> !s.reservations[k].cancelled)
    && (forall k :: k in s.queued && k < |s.reservations| ==> !s.reservations[k].kind.Direct?)
  }

  lemma NextKeepsDirects(s: State, e: Event, s': State)
    requires Inv(s) && Sane(s) && Enabled(s, e) && DirectsLive(s) && s' == Next(s, e)
    ensures DirectsLive(s')
  {
    match e
    case DirectInput(_) =>
    case TextInput(key, text) => TextKeepsDirects(s, key, text, s');
    case WheelInput(key, delta) => WheelKeepsDirects(s, key, delta, s');
    case Flush(key, current) => FlushKeepsDirects(s, key, current, s');
    case TimerFires(t, current) => TimerKeepsDirects(s, t, current, s');
    case NewIncarnation => IncarnationKeepsDirects(s, s');
    case _ => LinksKeepDirects(s, e, s');
  }

  lemma LinksKeepDirects(s: State, e: Event, s': State)
    requires Sane(s) && Enabled(s, e) && DirectsLive(s) && s' == Next(s, e) && (e.LinkRuns? || e.Settles? || e.Untracks?)
    ensures DirectsLive(s')
  {
  }

  lemma TimerKeepsDirects(s: State, t: TimerId, current: bool, s': State)
    requires EntriesOk(s) && Sane(s) && DirectsLive(s) && t in s.timers && s' == Fire(s, t, current)
    ensures DirectsLive(s')
  {
    assert TimerOk(s, t);
    if s.timers[t].TextTimer? {
      TextFireIsFlush(s, t, current);
      FlushKeepsDirects(s, s.timers[t].key, current, s');
    } else {
      ScrollFireKeepsDirects(s, t, current, s');
    }
  }

  lemma TextKeepsDirects(s: State, key: Key, text: nat, s': State)
    requires (forall k :: k in s.queued ==> k < |s.reservations|) && Sane(s) && DirectsLive(s) && s' == OnText(s, key, text)
    ensures DirectsLive(s')
  {
  }

  lemma WheelKeepsDirects(s: State, key: Key, delta: Delta, s': State)
    requires (forall k :: k in s.queued ==> k < |s.reservations|) && Sane(s) && DirectsLive(s) && s' == OnWheel(s, key, delta)
    ensures DirectsLive(s')
  {
  }

  lemma FlushKeepsDirects(s: State, key: Key, current: bool, s': State)
    requires TextOk(s) && Sane(s) && DirectsLive(s) && s' == OnFlush(s, key, current)
    ensures DirectsLive(s')
  {
  }

  lemma ScrollFireKeepsDirects(s: State, t: TimerId, current: bool, s': State)
    requires ScrollOk(s) && Sane(s) && DirectsLive(s) && t in s.timers && s.timers[t].ScrollTimer? && TimerOk(s, t)
    requires s' == Fire(s, t, current)
    ensures DirectsLive(s')
  {
  }

  lemma IncarnationKeepsDirects(s: State, s': State)
    requires TextOk(s) && ScrollOk(s) && Sane(s) && DirectsLive(s) && s' == OnNewIncarnation(s)
    ensures DirectsLive(s')
  {
    forall k | 0 <= k < |s.reservations| && s.reservations[k].kind.Direct? ensures !s'.reservations[k].cancelled {
      assert k !in TextReservations(s);
      assert k !in ScrollReservations(s);
    }
  }

  /** The identifiers of the direct inputs, in order. */
  function DirectIds(rs: seq<Reservation>): seq<nat> {
    if rs == [] then [] else DirectIds(rs[..|rs| - 1]) + DirectId(rs[|rs| - 1])
  }

  function DirectId(r: Reservation): seq<nat> {
    if r.kind.Direct? && r.release.ReleasedInput? && r.release.payload.DirectPayload? then [r.release.payload.id] else []
  }

  function IdsOf(events: seq<Event>): seq<nat> {
    if events == [] then [] else IdOf(events[0]) + IdsOf(events[1..])
  }

  function IdOf(e: Event): seq<nat> {
    if e.DirectInput? then [e.id] else []
  }

  lemma {:induction false} SameDirectIds(rs: seq<Reservation>, rs': seq<Reservation>)
    requires |rs| == |rs'| && forall k :: 0 <= k < |rs| ==> DirectId(rs'[k]) == DirectId(rs[k])
    ensures DirectIds(rs') == DirectIds(rs)
  {
    if rs != [] { SameDirectIds(rs[..|rs| - 1], rs'[..|rs| - 1]); }
  }

  lemma OneMoreDirectId(rs: seq<Reservation>, r: Reservation)
    ensures DirectIds(rs + [r]) == DirectIds(rs) + DirectId(r)
  {
    assert (rs + [r])[..|rs|] == rs;
  }

  lemma NextAddsDirect(s: State, e: Event, s': State)
    requires Inv(s) && Sane(s) && Enabled(s, e) && s' == Next(s, e)
    ensures DirectIds(s'.reservations) == DirectIds(s.reservations) + IdOf(e)
  {
    var n, rs' := |s.reservations|, s'.reservations;
    NextKeepsReleases(s, e);
    AddsAtMostOne(s, e, s');
    DirectIdsKept(s, rs');
    AppendedDirectIds(rs', n, IdOf(e));
  }

  lemma DirectIdsKept(s: State, rs': seq<Reservation>)
    requires Inv(s) && KeepsReleases(s.reservations, rs')
    ensures DirectIds(rs'[..|s.reservations|]) == DirectIds(s.reservations)
  {
    forall k | 0 <= k < |s.reservations| ensures DirectId(rs'[k]) == DirectId(s.reservations[k]) {
      assert ReservationOk(s, k);
    }
    SameDirectIds(s.reservations, rs'[..|s.reservations|]);
  }

  lemma AppendedDirectIds(rs: seq<Reservation>, n: nat, ids: seq<nat>)
    requires n <= |rs| <= n + 1 && if |rs| > n then DirectId(rs[n]) == ids else ids == []
    ensures DirectIds(rs) == DirectIds(rs[..n]) + ids
  {
    if |rs| > n {
      assert rs == rs[..n] + [rs[n]];
      OneMoreDirectId(rs[..n], rs[n]);
    } else {
      assert rs[..n] == rs;
      NothingMore(DirectIds(rs));
    }
  }

  lemma NothingMore(a: seq<nat>)
    ensures a + [] == a && [] + a == a
  {
  }

  lemma Associate(a: seq<nat>, b: seq<nat>, c: seq<nat>)
    ensures a + b + c == a + (b + c)
  {
  }

  lemma AddsAtMostOne(s: State, e: Event, s': State)
    requires Sane(s) && Enabled(s, e) && s' == Next(s, e)
    ensures |s'.reservations| <= |s.reservations| + 1
    ensures if |s'.reservations| > |s.reservations| then DirectId(s'.reservations[|s.reservations|]) == IdOf(e) else IdOf(e) == []
  {
    if e.DirectInput? || e.TextInput? || e.WheelInput? {
      InputsAddAtMostOne(s, e, s');
    } else {
      OthersAddNone(s, e, s');
    }
  }

  lemma InputsAddAtMostOne(s: State, e: Event, s': State)
    requires Sane(s) && Enabled(s, e) && s' == Next(s, e) && (e.DirectInput? || e.TextInput? || e.WheelInput?)
    ensures |s'.reservations| <= |s.reservations| + 1
    ensures if |s'.reservations| > |s.reservations| then DirectId(s'.reservations[|s.reservations|]) == IdOf(e) else IdOf(e) == []
  {
  }

  lemma OthersAddNone(s: State, e: Event, s': State)
    requires Sane(s) && Enabled(s, e) && s' == Next(s, e) && !(e.DirectInput? || e.TextInput? || e.WheelInput?)
    ensures |s'.reservations| == |s.reservations|
  {
  }

  lemma {:induction false} RunsAddDirects(s: State, events: seq<Event>, t: State)
    requires Inv(s) && Leads(s, events, t) && DirectsLive(s)
    ensures DirectsLive(t) && DirectIds(t.reservations) == DirectIds(s.reservations) + IdsOf(events)
    decreases events
  {
    if events == [] {
      NothingMore(DirectIds(s.reservations));
    } else {
      var s' := Next(s, events[0]);
      NextKeepsInv(s, events[0], s');
      NextKeepsDirects(s, events[0], s');
      NextAddsDirect(s, events[0], s');
      RunsAddDirects(s', events[1..], t);
      Associate(DirectIds(s.reservations), IdOf(events[0]), IdsOf(events[1..]));
    }
  }

  lemma DoneAndNotCancelledIsSent(events: seq<Event>, t: State, k: nat)
    requires Leads(INITIAL, events, t) && Inv(t) && k < |t.reservations| && t.reservations[k].phase.Done?
    requires !t.reservations[k].cancelled
    ensures k in t.sent && t.reservations[k].release.ReleasedInput?
  {
    SentIffReleasedInTime(events, t, k);
    assert ReservationOk(t, k);
    assert Silenced(INITIAL) == {};
    RunsSendExactly(INITIAL, events, t, {});
    assert {} + EverSilenced(INITIAL, events) == EverSilenced(INITIAL, events);
  }

  /** Every direct input is sent: the direct reservations carry the identifiers of the events in their order, and
      once the queue is drained all of them are among those sent. */
  lemma DirectInputsAreSent(events: seq<Event>, t: State)
    requires Leads(INITIAL, events, t)
    ensures DirectIds(t.reservations) == IdsOf(events)
    ensures Drained(t) ==> forall k :: 0 <= k < |t.reservations| && t.reservations[k].kind.Direct? ==> k in t.sent
  {
    RunsKeepInv(INITIAL, events, t);
    RunsAddDirects(INITIAL, events, t);
    NothingMore(IdsOf(events));
    if Drained(t) {
      forall k | 0 <= k < |t.reservations| && t.reservations[k].kind.Direct? ensures k in t.sent {
        DoneAndNotCancelledIsSent(events, t, k);
      }
    }
  }

  // ----- where nothing goes away, everything is sent -----

  /** Neither does the preview change nor does an element disappear. */
  predicate IsSteady(e: Event) {
    && !e.NewIncarnation?
    && (e.Flush? || e.TimerFires? ==> e.elementIsCurrent)
  }

  predicate NoneCancelled(rs: seq<Reservation>) {
    forall k :: 0 <= k < |rs| ==> !rs[k].cancelled
  }

  lemma SteadyCancelsNone(s: State, e: Event, s': State)
    requires Inv(s) && Sane(s) && Enabled(s, e) && IsSteady(e) && NoneCancelled(s.reservations) && s' == Next(s, e)
    ensures NoneCancelled(s'.reservations)
  {
    if e.Flush? {
      SteadyFlushCancelsNone(s, e.key, s');
    } else if e.TimerFires? {
      SteadyTimerCancelsNone(s, e.timer, s');
    } else if e.DirectInput? || e.TextInput? || e.WheelInput? {
      InputsCancelNone(s, e, s');
    } else {
      LinksCancelNone(s, e, s');
    }
  }

  lemma InputsCancelNone(s: State, e: Event, s': State)
    requires Sane(s) && Enabled(s, e) && (e.DirectInput? || e.TextInput? || e.WheelInput?)
    requires NoneCancelled(s.reservations) && s' == Next(s, e)
    ensures NoneCancelled(s'.reservations)
  {
  }

  lemma LinksCancelNone(s: State, e: Event, s': State)
    requires Sane(s) && Enabled(s, e) && (e.LinkRuns? || e.Settles? || e.Untracks?)
    requires NoneCancelled(s.reservations) && s' == Next(s, e)
    ensures NoneCancelled(s'.reservations)
  {
  }

  lemma SteadyTimerCancelsNone(s: State, t: TimerId, s': State)
    requires EntriesOk(s) && Sane(s) && t in s.timers && NoneCancelled(s.reservations) && s' == Fire(s, t, true)
    ensures NoneCancelled(s'.reservations)
  {
    assert TimerOk(s, t);
    if s.timers[t].TextTimer? {
      TextFireIsFlush(s, t, true);
      SteadyFlushCancelsNone(s, s.timers[t].key, s');
    } else {
      SteadyScrollCancelsNone(s, t, s');
    }
  }

  lemma SteadyFlushCancelsNone(s: State, key: Key, s': State)
    requires TextOk(s) && Sane(s) && NoneCancelled(s.reservations) && s' == OnFlush(s, key, true)
    ensures NoneCancelled(s'.reservations)
  {
  }

  lemma SteadyScrollCancelsNone(s: State, t: TimerId, s': State)
    requires ScrollOk(s) && Sane(s) && t in s.timers && s.timers[t].ScrollTimer? && TimerOk(s, t)
    requires NoneCancelled(s.reservations) && s' == Fire(s, t, true)
    ensures NoneCancelled(s'.reservations)
  {
  }

  lemma {:induction false} SteadyRunsCancelNone(s: State, events: seq<Event>, t: State)
    requires Inv(s) && Leads(s, events, t) && NoneCancelled(s.reservations) && forall e <- events :: IsSteady(e)
    ensures NoneCancelled(t.reservations)
    decreases events
  {
    if events != [] {
      var s' := Next(s, events[0]);
      NextKeepsInv(s, events[0], s');
      SteadyCancelsNone(s, events[0], s');
      SteadyRunsCancelNone(s', events[1..], t);
    }
  }

  lemma {:induction false} NothingPendingNothingLost(rs: seq<Reservation>)
    requires forall k :: 0 <= k < |rs| ==> rs[k].release.ReleasedInput?
    ensures TotalOf(rs, ForDispatch) == Total(rs)
    decreases |rs|
  {
    if rs != [] { NothingPendingNothingLost(rs[..|rs| - 1]); }
  }

  /** As long as the preview and its elements stay, a drained queue has sent everything: each reservation, with
      the direct input or the last text it was made for, and all that was scrolled. */
  lemma SteadyRunsSendEverything(events: seq<Event>, t: State)
    requires Leads(INITIAL, events, t) && Drained(t) && forall e <- events :: IsSteady(e)
    ensures forall k :: 0 <= k < |t.reservations| ==> k in t.sent && t.reservations[k].release.ReleasedInput?
    ensures TotalOf(t.reservations, ForDispatch) == Accepted(events)
  {
    RunsKeepInv(INITIAL, events, t);
    SteadyRunsCancelNone(INITIAL, events, t);
    forall k | 0 <= k < |t.reservations| ensures k in t.sent && t.reservations[k].release.ReleasedInput? {
      DoneAndNotCancelledIsSent(events, t, k);
    }
    NothingPendingNothingLost(t.reservations);
    RunsAccount(INITIAL, events, t);
    PlusNothing(Accepted(events));
  }
}
