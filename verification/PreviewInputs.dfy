/** The module-level variables of debugger-model.js and debugger-preview-html.js that hold queued
    and pending inputs, and the handlers that update them. Every handler is tied to the step of the
    queue that it takes, and says what that step means for the variables. */
module PreviewInputs {
  import opened InputQueue
  import opened InputQueueProofs

  // ----- cancelling one by one is cancelling all -----

  lemma CancelOneMore(rs: seq<Reservation>, ids: set<nat>, k: nat)
    requires k < |rs|
    ensures CancelAll(rs, ids)[k := Cancelled(CancelAll(rs, ids)[k])] == CancelAll(rs, ids + {k})
  {
  }

  lemma CancelInTwoGoes(rs: seq<Reservation>, a: set<nat>, b: set<nat>)
    ensures CancelAll(CancelAll(rs, a), b) == CancelAll(rs, a + b)
  {
  }

  // ----- the reservations and timers of the entries under some keys -----

  ghost function TextIds(m: map<Key, PendingText>, keys: set<Key>): set<nat> {
    set key | key in m && key in keys :: m[key].reservation
  }

  ghost function TextTimers(m: map<Key, PendingText>, keys: set<Key>): set<TimerId> {
    set key | key in m && key in keys :: m[key].timer
  }

  ghost function ScrollIds(m: map<Key, PendingScroll>, keys: set<Key>): set<nat> {
    set key | key in m && key in keys :: m[key].reservation
  }

  ghost function ScrollTimers(m: map<Key, PendingScroll>, keys: set<Key>): set<TimerId> {
    set key | key in m && key in keys :: m[key].timer
  }

  /** The loop over pending text inputs from `rs0` and `timers0`, after it has done `keys`. */
  ghost predicate TextSwept(rs0: seq<Reservation>, timers0: map<TimerId, Timer>, m: map<Key, PendingText>,
                          rs: seq<Reservation>, timers: map<TimerId, Timer>, keys: set<Key>)
  {
    rs == CancelAll(rs0, TextIds(m, keys)) && timers == timers0 - TextTimers(m, keys)
  }

  lemma TextSweepStarts(rs: seq<Reservation>, timers: map<TimerId, Timer>, m: map<Key, PendingText>)
    ensures TextSwept(rs, timers, m, rs, timers, {})
  {
  }

  lemma TextSweepStep(rs0: seq<Reservation>, timers0: map<TimerId, Timer>, m: map<Key, PendingText>,
                    rs: seq<Reservation>, timers: map<TimerId, Timer>, keys: set<Key>, key: Key)
    requires key in m && m[key].reservation < |rs0| && TextSwept(rs0, timers0, m, rs, timers, keys)
    ensures m[key].reservation < |rs|
    ensures var k := m[key].reservation;
            TextSwept(rs0, timers0, m, rs[k := Cancelled(rs[k])], timers - {m[key].timer}, keys + {key})
  {
    var k := m[key].reservation;
    CancelOneMore(rs0, TextIds(m, keys), k);
    assert TextIds(m, keys + {key}) == TextIds(m, keys) + {k};
    assert TextTimers(m, keys + {key}) == TextTimers(m, keys) + {m[key].timer};
  }

  /** The loop over pending scroll inputs from `rs0` and `timers0`, after it has done `keys`. */
  ghost predicate ScrollSwept(rs0: seq<Reservation>, timers0: map<TimerId, Timer>, m: map<Key, PendingScroll>,
                          rs: seq<Reservation>, timers: map<TimerId, Timer>, keys: set<Key>)
  {
    rs == CancelAll(rs0, ScrollIds(m, keys)) && timers == timers0 - ScrollTimers(m, keys)
  }

  lemma ScrollSweepStarts(rs: seq<Reservation>, timers: map<TimerId, Timer>, m: map<Key, PendingScroll>)
    ensures ScrollSwept(rs, timers, m, rs, timers, {})
  {
  }

  lemma ScrollSweepStep(rs0: seq<Reservation>, timers0: map<TimerId, Timer>, m: map<Key, PendingScroll>,
                    rs: seq<Reservation>, timers: map<TimerId, Timer>, keys: set<Key>, key: Key)
    requires key in m && m[key].reservation < |rs0| && ScrollSwept(rs0, timers0, m, rs, timers, keys)
    ensures m[key].reservation < |rs|
    ensures var k := m[key].reservation;
            ScrollSwept(rs0, timers0, m, rs[k := Cancelled(rs[k])], timers - {m[key].timer}, keys + {key})
  {
    var k := m[key].reservation;
    CancelOneMore(rs0, ScrollIds(m, keys), k);
    assert ScrollIds(m, keys + {key}) == ScrollIds(m, keys) + {k};
    assert ScrollTimers(m, keys + {key}) == ScrollTimers(m, keys) + {m[key].timer};
  }

  /** The three loops together cancel what a new incarnation cancels. */
  lemma SweepsMakeIncarnation(s: State, rs: seq<Reservation>, timers: map<TimerId, Timer>,
                              rs': seq<Reservation>, timers': map<TimerId, Timer>)
    requires TextSwept(s.reservations, s.timers, s.textInputs, rs, timers, s.textInputs.Keys)
    requires ScrollSwept(rs, timers, s.scrollInputs, rs', timers', s.scrollInputs.Keys)
    ensures CancelAll(rs', s.queued) == OnNewIncarnation(s).reservations && timers' == OnNewIncarnation(s).timers
  {
    AllKeys(s);
    CancelInTwoGoes(s.reservations, TextReservations(s), ScrollReservations(s));
    CancelInTwoGoes(s.reservations, TextReservations(s) + ScrollReservations(s), s.queued);
  }

  lemma AllKeys(s: State)
    ensures TextIds(s.textInputs, s.textInputs.Keys) == TextReservations(s)
    ensures ScrollIds(s.scrollInputs, s.scrollInputs.Keys) == ScrollReservations(s)
    ensures TextTimers(s.textInputs, s.textInputs.Keys) + ScrollTimers(s.scrollInputs, s.scrollInputs.Keys)
         == PendingTimers(s)
  {
  }

  // ----- what the steps mean -----

  /** Everything but reservation `k` is as before. */
  predicate OnlyChanges(rs: seq<Reservation>, rs': seq<Reservation>, k: nat) {
    |rs'| == |rs| && forall j :: 0 <= j < |rs| && j != k ==> rs'[j] == rs[j]
  }

  /** Its link can run as soon as it is its turn. */
  predicate CanRun(s: State, k: nat) {
    k < |s.reservations| && (IsTurnOf(s, k) && s.reservations[k].phase.Waiting? ==> Enabled(s, LinkRuns(k)))
  }

  predicate IsReleasedText(s: State, k: nat, text: nat) {
    k < |s.reservations| && s.reservations[k].release == ReleasedInput(TextPayload(text)) && k in s.queued
  }

  lemma DirectMeans(s: State, id: nat, s': State)
    requires Inv(s) && Sane(s) && s' == OnDirect(s, id)
    ensures Inv(s') && Sane(s') && CanRun(s', |s.reservations|)
  {
    NextKeepsInv(s, DirectInput(id), s');
    InvIsSane(s');
  }

  lemma TextMeans(s: State, key: Key, text: nat, s': State)
    requires Inv(s) && Sane(s) && s' == OnText(s, key, text)
    ensures Inv(s') && key in s'.textInputs
    ensures var k := s'.textInputs[key].reservation;
            && IsTextEntryOf(s', key, k) && s'.textInputs[key].text == text
            && k == (if key in s.textInputs then s.textInputs[key].reservation else |s.reservations|)
    ensures key in s.textInputs ==> s.textInputs[key].timer !in s'.timers
  {
    NextKeepsInv(s, TextInput(key, text), s');
    if key in s.textInputs { NextTimerIsNew(s); }
  }

  lemma WheelMeans(s: State, key: Key, delta: Delta, s': State)
    requires Inv(s) && Sane(s) && s' == OnWheel(s, key, delta)
    ensures Inv(s') && key in s'.scrollInputs && IsScrollEntryOf(s', key, s'.scrollInputs[key].reservation)
    ensures s'.scrollInputs[key].delta == Plus(if key in s.scrollInputs then s.scrollInputs[key].delta else NO_DELTA, delta)
    ensures Total(s'.reservations) == Plus(Total(s.reservations), delta)
  {
    NextKeepsInv(s, WheelInput(key, delta), s');
    WheelAccounts(s, key, delta, s');
    PlusNothing(delta);
  }

  /** Under the invariant an entry is never of an old incarnation: what is flushed is what was typed
      last, or its element is gone. */
  lemma FlushMeans(s: State, key: Key, current: bool, s': State)
    requires Inv(s) && Sane(s) && key in s.textInputs && s' == OnFlush(s, key, current)
    ensures Inv(s') && key !in s'.textInputs && s.textInputs[key].timer !in s'.timers
    ensures var k := s.textInputs[key].reservation;
            && k < |s.reservations| && OnlyChanges(s.reservations, s'.reservations, k)
            && if current then IsReleasedText(s', k, s.reservations[k].typed) else WillNotBeSent(s', k)
  {
    NextKeepsInv(s, Flush(key, current), s');
    var k := s.textInputs[key].reservation;
    assert Held(s.reservations, k, Text);
    WaitingIsNotSent(s, k);
  }

  lemma WaitingIsNotSent(s: State, k: nat)
    requires SentOk(s.reservations, s.sent) && k < |s.reservations| && s.reservations[k].phase.Waiting?
    ensures k !in s.sent
  {
  }

  /** The state in which timer `t` was still armed. */
  ghost function Armed(s: State, t: TimerId, timer: Timer): State {
    s.(timers := s.timers[t := timer])
  }

  /** Under the invariant a scroll timer that fires is never stale: all that was scrolled is released. */
  lemma ScrollTimerMeans(s: State, t: TimerId, key: Key, incarnation: nat, k: nat, s': State)
    requires t !in s.timers && Inv(Armed(s, t, ScrollTimer(key, incarnation, k)))
    requires k < |s.reservations| && s' == OnScrollTimer(s, key, incarnation, k)
    ensures Inv(s') && key !in s'.scrollInputs && OnlyChanges(s.reservations, s'.reservations, k)
    ensures s'.reservations[k].release == ReleasedInput(ScrollPayload(s.reservations[k].wheel)) && k in s'.queued
  {
    var armed := Armed(s, t, ScrollTimer(key, incarnation, k));
    ScrollTimerFires(s, t, key, incarnation, k, s');
    NextKeepsInv(armed, TimerFires(t, true), s');
    assert TimerOk(armed, t);
    assert s.scrollInputs[key].delta == s.reservations[k].wheel;
  }

  lemma ScrollTimerFires(s: State, t: TimerId, key: Key, incarnation: nat, k: nat, s': State)
    requires t !in s.timers && EntriesOk(Armed(s, t, ScrollTimer(key, incarnation, k)))
    requires k < |s.reservations| && s' == OnScrollTimer(s, key, incarnation, k)
    ensures var armed := Armed(s, t, ScrollTimer(key, incarnation, k)); Sane(armed) && Fire(armed, t, true) == s'
  {
    var armed := Armed(s, t, ScrollTimer(key, incarnation, k));
    InvIsSane(armed);
    assert Without(armed.timers, t) == s.timers;
  }

  lemma LinkMeans(s: State, k: nat, s': State)
    requires Inv(s) && Sane(s) && Enabled(s, LinkRuns(k)) && s' == RunLink(s, k)
    ensures Inv(s') && OnlyChanges(s.reservations, s'.reservations, k)
    ensures forall j :: 0 <= j < k ==> s'.reservations[j].phase.Done?
    ensures forall j :: j in s.sent ==> j < k
    ensures s'.sent == s.sent || (s'.sent == s.sent + [k] && s'.reservations[k].phase.Sending?)
    ensures s.reservations[k].cancelled ==> s'.sent == s.sent && s'.reservations[k].phase.Done?
  {
    NextKeepsInv(s, LinkRuns(k), s');
    forall j | 0 <= j < k ensures s'.reservations[j].phase.Done? {
      assert !s'.reservations[k].phase.Waiting?;
    }
    forall i | 0 <= i < |s.sent| ensures s.sent[i] < k {
      WaitingIsLast(s.reservations, k, s.sent[i]);
    }
  }

  lemma IncarnationMeans(s: State, s': State)
    requires Inv(s) && Sane(s) && s' == OnNewIncarnation(s)
    ensures Inv(s') && s'.timers == map[]
    ensures forall k :: 0 <= k < |s.reservations| && !s.reservations[k].kind.Direct? && s.reservations[k].phase.Waiting?
                        ==> WillNotBeSent(s', k)
  {
    NextKeepsInv(s, NewIncarnation, s');
    NoTimersLeft(s);
    forall k | 0 <= k < |s.reservations| && !s.reservations[k].kind.Direct? && s.reservations[k].phase.Waiting?
      ensures WillNotBeSent(s', k)
    {
      IncarnationCancels(s, k);
      WaitingIsNotSent(s, k);
    }
  }

  class HtmlPreview {
    var reservations: seq<Reservation>
    var htmlPreviewTextInputs: map<Key, PendingText>
    var htmlPreviewScrollInputs: map<Key, PendingScroll>
    var htmlPreviewQueuedInputs: set<nat>
    var timers: map<TimerId, Timer>
    var nextTimer: TimerId
    var htmlPreviewIncarnation: nat
    var sent: seq<nat>

    ghost function View(): State
      reads this
    {
      State(reservations, htmlPreviewTextInputs, htmlPreviewScrollInputs, htmlPreviewQueuedInputs, timers, nextTimer,
            htmlPreviewIncarnation, sent)
    }

    /** Links run in order, each input is sent once; every unreleased reservation has one pending entry
        with its own armed timer, and the entries hold what was typed and scrolled for them. */
    ghost predicate Valid()
      reads this
    {
      Inv(View()) && Sane(View())
    }

    constructor ()
      ensures Valid() && View() == INITIAL
    {
      reservations, sent := [], [];
      htmlPreviewTextInputs, htmlPreviewScrollInputs, timers := map[], map[], map[];
      htmlPreviewQueuedInputs := {};
      nextTimer, htmlPreviewIncarnation := 0, 0;
    }

    /** The new reservation is behind all others, and its link cannot run before it is released. */
    method ReserveDebuggerInput(kind: Kind, wheel: Delta, typed: nat) returns (reservation: nat)
      modifies this`reservations
      ensures View() == Reserve(old(View()), kind, wheel, typed)
      ensures reservation == |old(reservations)| == |reservations| - 1 && reservations[..reservation] == old(reservations)
      ensures !Enabled(View(), LinkRuns(reservation))
      ensures forall k :: Enabled(View(), LinkRuns(k)) <==> Enabled(old(View()), LinkRuns(k))
    {
      reservation := |reservations|;
      reservations := reservations + [Reservation(kind, Unreleased, false, Waiting, wheel, typed)];
    }

    /** Only the first release counts; from then on nothing but its turn keeps the link from running. */
    method Dispatch(reservation: nat, payload: Payload)
      requires reservation < |reservations|
      modifies this`reservations
      ensures View() == Update(old(View()), reservation, Dispatched(old(reservations)[reservation], payload))
      ensures !old(reservations)[reservation].release.Unreleased? ==> View() == old(View())
      ensures OnlyChanges(old(reservations), reservations, reservation) && CanRun(View(), reservation)
    {
      var r := reservations[reservation];
      if r.release.Unreleased? {
        r := r.(release := ReleasedInput(payload));
      }
      reservations := reservations[reservation := r];
    }

    /** A reservation whose link has not run will never be sent, and does not hold up the links behind it. */
    method Cancel(reservation: nat)
      requires reservation < |reservations|
      modifies this`reservations
      ensures View() == Update(old(View()), reservation, Cancelled(old(reservations)[reservation]))
      ensures old(reservations)[reservation].phase.Waiting? && reservation !in sent ==> WillNotBeSent(View(), reservation)
      ensures OnlyChanges(old(reservations), reservations, reservation) && CanRun(View(), reservation)
    {
      var r := reservations[reservation].(cancelled := true);
      if r.release.Unreleased? {
        r := r.(release := ReleasedNull);
      }
      reservations := reservations[reservation := r];
    }

    method SetTimeout(timer: Timer) returns (id: TimerId)
      modifies this`timers, this`nextTimer
      ensures id == old(nextTimer) && nextTimer == id + 1 && timers == old(timers)[id := timer]
    {
      id := nextTimer;
      timers := timers[id := timer];
      nextTimer := nextTimer + 1;
    }

    method EnqueueDebuggerInput(id: nat)
      requires Valid()
      modifies this`reservations
      ensures Valid() && View() == OnDirect(old(View()), id)
      ensures CanRun(View(), |old(reservations)|)
    {
      DirectMeans(View(), id, OnDirect(View(), id));
      var reservation := ReserveDebuggerInput(Direct, NO_DELTA, 0);
      Dispatch(reservation, DirectPayload(id));
    }

    /** The text waits under its key with a timer of its own. Typing on keeps the place in the queue and
        disarms the earlier timer. */
    method DispatchHtmlPreviewTextInput(key: Key, text: nat)
      requires Valid()
      modifies this`reservations, this`timers, this`nextTimer, this`htmlPreviewTextInputs
      ensures Valid() && View() == OnText(old(View()), key, text)
      ensures key in htmlPreviewTextInputs && htmlPreviewTextInputs[key].text == text
      ensures IsTextEntryOf(View(), key, htmlPreviewTextInputs[key].reservation)
      ensures htmlPreviewTextInputs[key].reservation ==
                if key in old(htmlPreviewTextInputs) then old(htmlPreviewTextInputs)[key].reservation else |old(reservations)|
      ensures key in old(htmlPreviewTextInputs) ==> old(htmlPreviewTextInputs)[key].timer !in timers
    {
      ghost var after := OnText(View(), key, text);
      TextMeans(View(), key, text, after);
      InvIsSane(after);
      PutTextInput(key, text);
    }

    method PutTextInput(key: Key, text: nat)
      requires key in htmlPreviewTextInputs ==> htmlPreviewTextInputs[key].reservation < |reservations|
      modifies this`reservations, this`timers, this`nextTimer, this`htmlPreviewTextInputs
      ensures View() == OnText(old(View()), key, text)
    {
      var reservation: nat;
      if key in htmlPreviewTextInputs {
        timers := timers - {htmlPreviewTextInputs[key].timer};
        reservation := htmlPreviewTextInputs[key].reservation;
        reservations := reservations[reservation := reservations[reservation].(typed := text)];
      } else {
        reservation := ReserveDebuggerInput(Text, NO_DELTA, text);
      }
      var timer := SetTimeout(TextTimer(key));
      htmlPreviewTextInputs := htmlPreviewTextInputs[key := PendingText(htmlPreviewIncarnation, text, reservation, timer)];
    }

    /** The scrolling waits under its key, added to what waited there, and none of it is lost. */
    method DispatchHtmlPreviewScrollInput(key: Key, delta: Delta)
      requires Valid()
      modifies this`reservations, this`timers, this`nextTimer, this`htmlPreviewScrollInputs
      ensures Valid() && View() == OnWheel(old(View()), key, delta)
      ensures key in htmlPreviewScrollInputs && IsScrollEntryOf(View(), key, htmlPreviewScrollInputs[key].reservation)
      ensures htmlPreviewScrollInputs[key].delta ==
                Plus(if key in old(htmlPreviewScrollInputs) then old(htmlPreviewScrollInputs)[key].delta else NO_DELTA, delta)
      ensures Total(reservations) == Plus(Total(old(reservations)), delta)
    {
      ghost var after := OnWheel(View(), key, delta);
      WheelMeans(View(), key, delta, after);
      InvIsSane(after);
      PutScrollInput(key, delta);
    }

    method PutScrollInput(key: Key, delta: Delta)
      requires key in htmlPreviewScrollInputs ==> htmlPreviewScrollInputs[key].reservation < |reservations|
      modifies this`reservations, this`timers, this`nextTimer, this`htmlPreviewScrollInputs
      ensures View() == OnWheel(old(View()), key, delta)
    {
      if key in htmlPreviewScrollInputs {
        var pending := htmlPreviewScrollInputs[key];
        var r := reservations[pending.reservation];
        reservations := reservations[pending.reservation := r.(wheel := Plus(r.wheel, delta))];
        htmlPreviewScrollInputs := htmlPreviewScrollInputs[key := pending.(delta := Plus(pending.delta, delta))];
        return;
      }
      var reservation := ReserveDebuggerInput(Scroll, delta, 0);
      var timer := SetTimeout(ScrollTimer(key, htmlPreviewIncarnation, reservation));
      htmlPreviewScrollInputs :=
        htmlPreviewScrollInputs[key := PendingScroll(htmlPreviewIncarnation, delta, reservation, timer)];
    }

    /** What was typed last goes to the queue, or to nobody if its element is gone; either way no entry
        and no timer is left of it. */
    method FlushHtmlPreviewTextInput(key: Key, elementIsCurrent: bool)
      requires Valid()
      modifies this`reservations, this`timers, this`htmlPreviewTextInputs, this`htmlPreviewQueuedInputs
      ensures Valid() && View() == OnFlush(old(View()), key, elementIsCurrent)
      ensures key !in htmlPreviewTextInputs
      ensures key in old(htmlPreviewTextInputs) ==>
                var k := old(htmlPreviewTextInputs)[key].reservation;
                && old(htmlPreviewTextInputs)[key].timer !in timers && OnlyChanges(old(reservations), reservations, k)
                && if elementIsCurrent then IsReleasedText(View(), k, old(reservations)[k].typed) else WillNotBeSent(View(), k)
    {
      ghost var after := OnFlush(View(), key, elementIsCurrent);
      if key !in htmlPreviewTextInputs {
        return;
      }
      FlushMeans(View(), key, elementIsCurrent, after);
      InvIsSane(after);
      TakeTextInput(key, elementIsCurrent);
    }

    method TakeTextInput(key: Key, elementIsCurrent: bool)
      requires key in htmlPreviewTextInputs && htmlPreviewTextInputs[key].reservation < |reservations|
      modifies this`reservations, this`timers, this`htmlPreviewTextInputs, this`htmlPreviewQueuedInputs
      ensures View() == OnFlush(old(View()), key, elementIsCurrent)
    {
      var pendingInput := htmlPreviewTextInputs[key];
      timers := timers - {pendingInput.timer};
      htmlPreviewTextInputs := htmlPreviewTextInputs - {key};
      if pendingInput.incarnation != htmlPreviewIncarnation || !elementIsCurrent {
        Cancel(pendingInput.reservation);
        return;
      }
      Dispatch(pendingInput.reservation, TextPayload(pendingInput.text));
      htmlPreviewQueuedInputs := htmlPreviewQueuedInputs + {pendingInput.reservation};
    }

    /** All that was scrolled for the reservation goes to the queue. (`fired` is the timer that ran this;
        the test for a stale one never succeeds.) */
    method FireScrollTimer(key: Key, incarnation: nat, reservation: nat, ghost fired: TimerId)
      requires fired !in timers && Inv(Armed(View(), fired, ScrollTimer(key, incarnation, reservation)))
      requires reservation < |reservations|
      modifies this`reservations, this`htmlPreviewScrollInputs, this`htmlPreviewQueuedInputs
      ensures Valid() && View() == OnScrollTimer(old(View()), key, incarnation, reservation)
      ensures key !in htmlPreviewScrollInputs && OnlyChanges(old(reservations), reservations, reservation)
      ensures reservations[reservation].release == ReleasedInput(ScrollPayload(old(reservations)[reservation].wheel))
      ensures reservation in htmlPreviewQueuedInputs
    {
      ghost var after := OnScrollTimer(View(), key, incarnation, reservation);
      ScrollTimerMeans(View(), fired, key, incarnation, reservation, after);
      InvIsSane(after);
      if incarnation != htmlPreviewIncarnation || key !in htmlPreviewScrollInputs
         || htmlPreviewScrollInputs[key].reservation != reservation {
        Cancel(reservation);
        return;
      }
      var delta := htmlPreviewScrollInputs[key].delta;
      htmlPreviewScrollInputs := htmlPreviewScrollInputs - {key};
      Dispatch(reservation, ScrollPayload(delta));
      htmlPreviewQueuedInputs := htmlPreviewQueuedInputs + {reservation};
      assert View() == after;
    }

    method FireTimer(t: TimerId, elementIsCurrent: bool)
      requires Valid() && t in timers
      modifies this`reservations, this`timers, this`htmlPreviewTextInputs, this`htmlPreviewScrollInputs,
               this`htmlPreviewQueuedInputs
      ensures Valid() && View() == Fire(old(View()), t, elementIsCurrent)
    {
      ghost var before := View();
      assert TimerOk(before, t);
      var timer := timers[t];
      match timer
      case TextTimer(key) =>
        TextFireIsFlush(before, t, elementIsCurrent);
        // The flush takes the timer with the entry.
        FlushHtmlPreviewTextInput(key, elementIsCurrent);
      case ScrollTimer(key, incarnation, reservation) =>
        timers := timers - {t};
        assert Armed(View(), t, timer) == before;
        FireScrollTimer(key, incarnation, reservation, t);
    }

    method CancelPendingTextInputs()
      requires forall key :: key in htmlPreviewTextInputs ==> htmlPreviewTextInputs[key].reservation < |reservations|
      modifies this`reservations, this`timers, this`htmlPreviewTextInputs
      ensures TextSwept(old(reservations), old(timers), old(htmlPreviewTextInputs), reservations, timers,
                       old(htmlPreviewTextInputs).Keys)
      ensures htmlPreviewTextInputs == map[] && |reservations| == |old(reservations)|
    {
      ghost var rs0, timers0, m := reservations, timers, htmlPreviewTextInputs;
      var rest := htmlPreviewTextInputs.Keys;
      ghost var keys: set<Key> := {};
      TextSweepStarts(rs0, timers0, m);
      while rest != {}
        invariant htmlPreviewTextInputs == m
        invariant keys !! rest && keys + rest == m.Keys
        invariant TextSwept(rs0, timers0, m, reservations, timers, keys)
      {
        var key :| key in rest;
        var pendingInput := htmlPreviewTextInputs[key];
        TextSweepStep(rs0, timers0, m, reservations, timers, keys, key);
        timers := timers - {pendingInput.timer};
        Cancel(pendingInput.reservation);
        keys, rest := keys + {key}, rest - {key};
      }
      htmlPreviewTextInputs := map[];
    }

    method CancelPendingScrollInputs()
      requires forall key :: key in htmlPreviewScrollInputs ==> htmlPreviewScrollInputs[key].reservation < |reservations|
      modifies this`reservations, this`timers, this`htmlPreviewScrollInputs
      ensures ScrollSwept(old(reservations), old(timers), old(htmlPreviewScrollInputs), reservations, timers,
                         old(htmlPreviewScrollInputs).Keys)
      ensures htmlPreviewScrollInputs == map[] && |reservations| == |old(reservations)|
    {
      ghost var rs0, timers0, m := reservations, timers, htmlPreviewScrollInputs;
      var rest := htmlPreviewScrollInputs.Keys;
      ghost var keys: set<Key> := {};
      ScrollSweepStarts(rs0, timers0, m);
      while rest != {}
        invariant htmlPreviewScrollInputs == m
        invariant keys !! rest && keys + rest == m.Keys
        invariant ScrollSwept(rs0, timers0, m, reservations, timers, keys)
      {
        var key :| key in rest;
        var pendingInput := htmlPreviewScrollInputs[key];
        ScrollSweepStep(rs0, timers0, m, reservations, timers, keys, key);
        timers := timers - {pendingInput.timer};
        Cancel(pendingInput.reservation);
        keys, rest := keys + {key}, rest - {key};
      }
      htmlPreviewScrollInputs := map[];
    }

    method CancelQueuedHtmlPreviewInputs()
      requires forall k :: k in htmlPreviewQueuedInputs ==> k < |reservations|
      modifies this`reservations, this`htmlPreviewQueuedInputs
      ensures reservations == CancelAll(old(reservations), old(htmlPreviewQueuedInputs))
      ensures htmlPreviewQueuedInputs == {}
    {
      var rest := htmlPreviewQueuedInputs;
      assert CancelAll(reservations, {}) == reservations;
      while rest != {}
        invariant rest <= old(htmlPreviewQueuedInputs)
        invariant |reservations| == |old(reservations)|
        invariant reservations == CancelAll(old(reservations), old(htmlPreviewQueuedInputs) - rest)
      {
        var queuedInput :| queuedInput in rest;
        CancelOneMore(old(reservations), old(htmlPreviewQueuedInputs) - rest, queuedInput);
        Cancel(queuedInput);
        assert old(htmlPreviewQueuedInputs) - (rest - {queuedInput}) == old(htmlPreviewQueuedInputs) - rest + {queuedInput};
        rest := rest - {queuedInput};
      }
      htmlPreviewQueuedInputs := {};
    }

    /** No timer is left, and no text or scroll input whose link has not run will be sent. */
    method BeginHtmlPreviewIncarnation() returns (incarnation: nat)
      requires Valid()
      modifies this
      ensures Valid() && View() == OnNewIncarnation(old(View())) && incarnation == htmlPreviewIncarnation
      ensures timers == map[]
      ensures forall k :: 0 <= k < |old(reservations)| && !old(reservations)[k].kind.Direct? && old(reservations)[k].phase.Waiting?
                          ==> WillNotBeSent(View(), k)
    {
      ghost var s, after := View(), OnNewIncarnation(View());
      IncarnationMeans(s, after);
      InvIsSane(after);
      htmlPreviewIncarnation := htmlPreviewIncarnation + 1;
      CancelAllInputs();
      incarnation := htmlPreviewIncarnation;
      assert View() == after;
    }

    method CancelAllInputs()
      requires Sane(View()) && forall k :: k in htmlPreviewQueuedInputs ==> k < |reservations|
      modifies this`reservations, this`timers, this`htmlPreviewTextInputs, this`htmlPreviewScrollInputs,
               this`htmlPreviewQueuedInputs
      ensures View() == OnNewIncarnation(old(View())).(incarnation := old(htmlPreviewIncarnation))
    {
      ghost var s := View();
      CancelPendingTextInputs();
      ghost var rs, left := reservations, timers;
      CancelPendingScrollInputs();
      SweepsMakeIncarnation(s, rs, left, reservations, timers);
      CancelQueuedHtmlPreviewInputs();
    }

    /** The last link of a reservation's chain, when it is its turn and it is released: it sends the input
        after all that were sent before, or nothing if there is none or it was cancelled. */
    method RunDispatch(reservation: nat)
      requires Valid() && Enabled(View(), LinkRuns(reservation))
      modifies this`reservations, this`sent
      ensures Valid() && View() == RunLink(old(View()), reservation)
      ensures OnlyChanges(old(reservations), reservations, reservation)
      ensures forall j :: 0 <= j < reservation ==> reservations[j].phase.Done?
      ensures forall j :: j in old(sent) ==> j < reservation
      ensures if old(reservations)[reservation].release.ReleasedInput? && !old(reservations)[reservation].cancelled then
                sent == old(sent) + [reservation] && reservations[reservation].phase.Sending?
              else sent == old(sent) && reservations[reservation].phase.Done?
    {
      ghost var after := RunLink(View(), reservation);
      LinkMeans(View(), reservation, after);
      InvIsSane(after);
      var r := reservations[reservation];
      if r.release.ReleasedInput? && !r.cancelled {
        reservations := reservations[reservation := r.(phase := Sending)];
        sent := sent + [reservation];
      } else {
        reservations := reservations[reservation := r.(phase := Done)];
      }
      assert View() == after;
    }
  }
}
