/** What the panel must do: which answers it shows, which selections it makes, and when it refreshes. All
    conditions are on the panel's fields. */
module SnapshotLiveness {
  import opened Wrappers
  import opened SnapshotProtocol
  import opened SnapshotProofs

  // ----- answers -----

  /** The user edits nothing, or the edit that is under way is the one that asked. */
  predicate IsUndisturbed(p: Panel, owner: Option<nat>) {
    && !p.runtimeStateFocused
    && (|| (!p.componentPropertyEdit.focused && !p.componentPropertyEdit.pending)
        || (p.componentPropertyEdit.pending && owner == Some(p.componentPropertyEdit.operationGeneration)))
  }

  /** Nothing happened since the request was sent that outdates it. */
  predicate IsLatest(p: Panel, r: Request) {
    && p.target.Some? && p.target.value.id == r.requested.id
    && p.targetGeneration == r.forTarget && p.snapshotRequestGeneration == r.number
  }

  /** A usable answer is put up iff its request is the latest and the user is undisturbed; otherwise the screen
      stays as it is. The answer that a pending refresh waits for ends it. */
  lemma AnswerIsShownIff(p: Panel, c: nat, answer: Answer)
    requires c in p.snapshotRequests
    ensures var r, q := p.snapshotRequests[c], Next(p, SnapshotAnswered(c, answer));
            && q.snapshot == (if answer.Snapshot? && answer.restorable && IsLatest(p, r) && IsUndisturbed(p, r.owner)
                              then Some(Shown(r.requested.id, r.forTarget, r.number)) else p.snapshot)
            && (answer.Snapshot? && IsLatest(p, r) && IsUndisturbed(p, r.owner) && answer.capabilities.Some? ==>
                  q.target == Some(r.requested.(capabilities := answer.capabilities.value)))
            && c !in q.snapshotRequests
            && q.refreshPending == (p.refreshPending && p.snapshotRequestCompletion != Some(c))
            && q.targetGeneration == p.targetGeneration && q.snapshotRequestGeneration == p.snapshotRequestGeneration
  {
  }

  // ----- refreshing -----

  predicate CanRefresh(p: Panel, owner: Option<nat>) {
    && p.target.Some? && "components" in p.target.value.capabilities && "snapshot" in p.target.value.capabilities
    && IsUndisturbed(p, owner)
  }

  /** A refresh sends a request for the target iff it may and none is pending. */
  lemma RefreshSendsIff(p: Panel)
    ensures var q, c := Next(p, Refresh), p.nextCompletion;
            if CanRefresh(p, None) && !p.refreshPending then
              && q.refreshPending && q.snapshotRequestCompletion == Some(c)
              && c in q.snapshotRequests && q.snapshot == p.snapshot && q.target == p.target
              && q.snapshotRequests[c] == Request(p.target.value, p.targetGeneration, p.snapshotRequestGeneration + 1, None)
              && IsLatest(q, q.snapshotRequests[c])
            else q == p
  {
  }

  lemma LeadsOne(p: Panel, e: Event)
    requires Enabled(p, e)
    ensures Leads(p, [e], Next(p, e))
  {
    assert [e][1..] == [];
  }

  lemma LeadsOneMore(p: Panel, events: seq<Event>, q: Panel, e: Event)
    requires Leads(p, events, q) && Enabled(q, e)
    ensures Leads(p, events + [e], Next(q, e))
    decreases events
  {
    if events == [] {
      LeadsOne(p, e);
      assert [] + [e] == [e];
    } else {
      LeadsOneMore(Next(p, events[0]), events[1..], q, e);
      assert (events + [e])[0] == events[0] && (events + [e])[1..] == events[1..] + [e];
    }
  }

  /** Wherever a refresh is allowed and none is pending, asking and answering puts up the target's snapshot. */
  lemma RefreshShowsTheTarget(p: Panel) returns (events: seq<Event>, q: Panel)
    requires CanRefresh(p, None) && !p.refreshPending
    ensures Leads(p, events, q) && !q.refreshPending && q.target == p.target
    ensures q.snapshot == Some(Shown(p.target.value.id, p.targetGeneration, p.snapshotRequestGeneration + 1))
  {
    var c, answer := p.nextCompletion, Snapshot(None, true);
    RefreshSendsIff(p);
    var asked := Next(p, Refresh);
    AnswerIsShownIff(asked, c, answer);
    q := Next(asked, SnapshotAnswered(c, answer));
    LeadsOne(p, Refresh);
    LeadsOneMore(p, [Refresh], asked, SnapshotAnswered(c, answer));
    events := [Refresh] + [SnapshotAnswered(c, answer)];
  }

  /** A pending refresh can always be ended by an answer, and then asked for again. */
  lemma PendingRefreshEnds(requested: Option<string>, before: seq<Event>, p: Panel, answer: Answer) returns (c: nat)
    requires Leads(Initial(requested), before, p) && p.refreshPending
    ensures Enabled(p, SnapshotAnswered(c, answer)) && !Next(p, SnapshotAnswered(c, answer)).refreshPending
  {
    RunsKeepInv(Initial(requested), before, p);
    c := p.snapshotRequestCompletion.value;
    AnswerIsShownIff(p, c, answer);
  }

  // ----- edits -----

  /** Finishing the edit that is under way leaves nothing that holds back a refresh; finishing another one
      changes nothing. */
  lemma FinishedEditFreesTheRefresh(p: Panel, operation: nat)
    ensures var q := Next(p, EditFinished(operation));
            && (operation != p.componentPropertyEdit.operationGeneration ==> q == p)
            && (operation == p.componentPropertyEdit.operationGeneration ==>
                  && !q.componentPropertyEdit.pending && !q.componentPropertyEdit.focused
                  && q.(componentPropertyEdit := p.componentPropertyEdit) == p
                  && (p.target.Some? && CanShowSnapshots(p.target.value) && !p.runtimeStateFocused ==> CanRefresh(q, None)))
  {
  }

  /** While it is pending only the refresh that it asked for itself is allowed. */
  lemma PendingEditOwnsTheRefresh(p: Panel, operation: nat)
    requires p.componentPropertyEdit.pending
    ensures Next(p, Refresh) == p
    ensures operation != p.componentPropertyEdit.operationGeneration ==> Next(p, RefreshForEdit(operation)) == p
  {
  }

  /** An edit that is submitted where no refresh is pending refreshes: asked for and answered, the snapshot is put up. */
  lemma EditShowsItsResult(p: Panel) returns (events: seq<Event>, q: Panel)
    requires p.target.Some? && CanShowSnapshots(p.target.value) && !p.runtimeStateFocused
    requires !p.componentPropertyEdit.pending && !p.refreshPending
    ensures Leads(p, events, q) && |events| == 4 && events[0] == EditSubmitted && events[3].EditFinished?
    ensures q.snapshot == Some(Shown(p.target.value.id, p.targetGeneration, p.snapshotRequestGeneration + 2))
    ensures CanRefresh(q, None) && !q.refreshPending
  {
    var operation, c := p.componentPropertyEdit.operationGeneration + 1, p.nextCompletion;
    var submitted := Next(p, EditSubmitted);
    var asked := Next(submitted, RefreshForEdit(operation));
    LeadsOne(p, EditSubmitted);
    LeadsOneMore(p, [EditSubmitted], submitted, RefreshForEdit(operation));
    q := AnsweredAndFinished(p, [EditSubmitted] + [RefreshForEdit(operation)], asked, c, operation);
    events := [EditSubmitted] + [RefreshForEdit(operation)] + [SnapshotAnswered(c, Snapshot(None, true))] + [EditFinished(operation)];
  }

  lemma AnsweredAndFinished(p: Panel, events: seq<Event>, asked: Panel, c: nat, operation: nat) returns (q: Panel)
    requires Leads(p, events, asked) && c in asked.snapshotRequests && asked.snapshotRequestCompletion == Some(c)
    requires asked.target.Some? && CanShowSnapshots(asked.target.value) && !asked.runtimeStateFocused
    requires asked.componentPropertyEdit.pending && asked.componentPropertyEdit.operationGeneration == operation
    requires asked.snapshotRequests[c] == Request(asked.target.value, asked.targetGeneration, asked.snapshotRequestGeneration, Some(operation))
    ensures Leads(p, events + [SnapshotAnswered(c, Snapshot(None, true))] + [EditFinished(operation)], q)
    ensures q.snapshot == Some(Shown(asked.target.value.id, asked.targetGeneration, asked.snapshotRequestGeneration))
    ensures CanRefresh(q, None) && !q.refreshPending && q.target == asked.target
  {
    var answer := Snapshot(None, true);
    AnswerIsShownIff(asked, c, answer);
    var answered := Next(asked, SnapshotAnswered(c, answer));
    LeadsOneMore(p, events, asked, SnapshotAnswered(c, answer));
    FinishedEditFreesTheRefresh(answered, operation);
    q := Next(answered, EditFinished(operation));
    LeadsOneMore(p, events + [SnapshotAnswered(c, answer)], answered, EditFinished(operation));
  }

  /** Submitted while a refresh is in flight, it waits for that one to be answered, whatever the answer, and then
      asks for its own. */
  lemma EditWaitsForTheRefreshInFlight(requested: Option<string>, before: seq<Event>, p: Panel, answer: Answer)
      returns (events: seq<Event>, q: Panel)
    requires Leads(Initial(requested), before, p) && p.refreshPending
    requires p.target.Some? && CanShowSnapshots(p.target.value) && !p.runtimeStateFocused && !p.componentPropertyEdit.pending
    ensures Leads(p, events, q) && q.target == p.target
    ensures q.snapshot == Some(Shown(p.target.value.id, p.targetGeneration, p.snapshotRequestGeneration + 2))
    ensures CanRefresh(q, None) && !q.refreshPending
  {
    RunsKeepInv(Initial(requested), before, p);
    var c, operation := p.nextCompletion, p.componentPropertyEdit.operationGeneration + 1;
    var asked;
    events, asked := EditIsAskedForAgain(p, answer);
    q := AnsweredAndFinished(p, events, asked, c, operation);
    events := events + [SnapshotAnswered(c, Snapshot(None, true))] + [EditFinished(operation)];
  }

  lemma EditIsAskedForAgain(p: Panel, answer: Answer) returns (events: seq<Event>, asked: Panel)
    requires Inv(p) && p.refreshPending && p.target.Some? && CanShowSnapshots(p.target.value)
    requires !p.runtimeStateFocused && !p.componentPropertyEdit.pending
    ensures Leads(p, events, asked)
    ensures var operation, number := p.componentPropertyEdit.operationGeneration + 1, p.snapshotRequestGeneration + 2;
            asked == p.(
              componentPropertyEdit := PropertyEdit(operation, true, false), snapshotRequestGeneration := number,
              nextCompletion := p.nextCompletion + 1, snapshotRequestCompletion := Some(p.nextCompletion),
              waiters := asked.waiters,
              snapshotRequests := (p.snapshotRequests - {p.snapshotRequestCompletion.value})
                                    [p.nextCompletion := Request(p.target.value, p.targetGeneration, number, Some(operation))])
  {
    var first, operation := p.snapshotRequestCompletion.value, p.componentPropertyEdit.operationGeneration + 1;
    var waiter := Waiter(operation, first);
    var submitted := Next(p, EditSubmitted);
    var waiting := Next(submitted, RefreshForEdit(operation));
    assert waiting == submitted.(waiters := submitted.waiters + {waiter});
    var freed := Next(waiting, SnapshotAnswered(first, answer));
    OutdatedChangesNothing(waiting, first, answer);
    asked := Next(freed, WaitEnds(waiter));
    LeadsOne(p, EditSubmitted);
    LeadsOneMore(p, [EditSubmitted], submitted, RefreshForEdit(operation));
    LeadsOneMore(p, [EditSubmitted] + [RefreshForEdit(operation)], waiting, SnapshotAnswered(first, answer));
    events := [EditSubmitted] + [RefreshForEdit(operation)] + [SnapshotAnswered(first, answer)];
    LeadsOneMore(p, events, freed, WaitEnds(waiter));
    events := events + [WaitEnds(waiter)];
  }

  /** The answer to a request that is not the latest only ends the wait for it. */
  lemma OutdatedChangesNothing(p: Panel, c: nat, answer: Answer)
    requires c in p.snapshotRequests && !IsLatest(p, p.snapshotRequests[c]) && p.snapshotRequestCompletion == Some(c)
    ensures Next(p, SnapshotAnswered(c, answer))
         == p.(snapshotRequests := p.snapshotRequests - {c}, snapshotRequestCompletion := None, refreshPending := false)
  {
  }

  // ----- selecting -----

  /** A new target: nothing of the old one stays, and a snapshot is asked for if it can be. */
  predicate IsFreshOn(p: Panel, t: Target, q: Panel) {
    && q.target == Some(t) && q.targetGeneration == p.targetGeneration + 1 && q.snapshot.None?
    && !q.componentPropertyEdit.pending && !q.componentPropertyEdit.focused
    && (q.refreshPending <==>
          "components" in t.capabilities && "snapshot" in t.capabilities && !p.runtimeStateFocused)
    && (q.refreshPending ==>
          && q.snapshotRequestCompletion == Some(p.nextCompletion) && p.nextCompletion in q.snapshotRequests
          && q.snapshotRequests[p.nextCompletion] == Request(t, q.targetGeneration, q.snapshotRequestGeneration, None))
  }

  /** Nothing is selected. */
  predicate IsEmptied(p: Panel, q: Panel) {
    && q.target.None? && q.targetGeneration == p.targetGeneration + 1 && q.snapshot.None? && !q.refreshPending
    && !q.componentPropertyEdit.pending && !q.componentPropertyEdit.focused
  }

  /** A selection is made unless it is of the target that is selected already, or a performance operation is
      running; a forced one always is. */
  lemma SelectionIsMadeIff(p: Panel, next: Option<Target>, force: bool, blocked: bool)
    ensures var q := Next(p, Select(next, force, blocked));
            if !force && (blocked || (p.target.Some? && next.Some? && p.target.value.id == next.value.id)) then q == p
            else if next.Some? then IsFreshOn(p, next.value, q) else IsEmptied(p, q)
  {
  }

  /** The first target of the list that has the id. */
  predicate IsFirst(targets: seq<Target>, k: nat, id: string) {
    k < |targets| && targets[k].id == id && forall j :: 0 <= j < k ==> targets[j].id != id
  }

  lemma {:induction false} FindsTheFirst(targets: seq<Target>, k: nat, id: string)
    requires IsFirst(targets, k, id)
    ensures Find(targets, id) == Some(targets[k])
    decreases k
  {
    if k > 0 {
      assert targets[0].id != id;
      FindsTheFirst(targets[1..], k - 1, id);
    }
  }

  lemma {:induction false} FindsNone(targets: seq<Target>, id: string)
    requires forall t <- targets :: t.id != id
    ensures Find(targets, id).None?
    decreases |targets|
  {
    if targets != [] { FindsNone(targets[1..], id); }
  }

  predicate IsSelectable(t: Target) {
    t.attachable && "components" in t.capabilities && "snapshot" in t.capabilities
  }

  /** The first answer of the registry selects the target that the panel was opened for, if it is listed and
      selectable, and otherwise leaves the selection alone. */
  lemma FirstRegistryAnswerSelects(p: Panel, number: nat, targets: seq<Target>, k: nat, id: string)
    requires number in p.registry.inFlight && number == p.registry.requestGeneration && p.registry.requestedTargetId == Some(id)
    ensures var q := Next(p, RegistryAnswered(number, Some(targets)));
            && q.registry.requestedTargetId.None? && !q.registry.registryPending
            && (IsFirst(targets, k, id) && IsSelectable(targets[k]) ==> IsFreshOn(p, targets[k], q))
            && ((IsFirst(targets, k, id) && !IsSelectable(targets[k])) || (forall t <- targets :: t.id != id) ==>
                  q.(registry := p.registry) == p)
  {
    if IsFirst(targets, k, id) { FindsTheFirst(targets, k, id); }
    if forall t <- targets :: t.id != id { FindsNone(targets, id); }
  }

  /** A later answer gives the target up if it is gone or no longer selectable, presents it afresh if its
      capabilities changed, and otherwise leaves what is shown. */
  lemma LaterRegistryAnswersFollow(p: Panel, number: nat, targets: seq<Target>, k: nat)
    requires number in p.registry.inFlight && number == p.registry.requestGeneration && p.registry.requestedTargetId.None?
    requires p.target.Some?
    ensures var q, id := Next(p, RegistryAnswered(number, Some(targets))), p.target.value.id;
            && !q.registry.registryPending
            && ((forall t <- targets :: t.id != id) ==> IsEmptied(p, q))
            && (IsFirst(targets, k, id) ==>
                  if !IsSelectable(targets[k]) then IsEmptied(p, q)
                  else if targets[k].capabilities != p.target.value.capabilities then IsFreshOn(p, targets[k], q)
                  else q.(registry := p.registry, target := p.target) == p && q.target == Some(targets[k]))
  {
    var id := p.target.value.id;
    if IsFirst(targets, k, id) { FindsTheFirst(targets, k, id); }
    if forall t <- targets :: t.id != id { FindsNone(targets, id); }
  }

  /** An outdated answer, and a failed one, change neither target nor screen. */
  lemma UnusableRegistryAnswersAreIgnored(p: Panel, number: nat, targets: Option<seq<Target>>)
    requires number in p.registry.inFlight && (number != p.registry.requestGeneration || targets.None?)
    ensures Next(p, RegistryAnswered(number, targets)).(registry := p.registry) == p
  {
  }

  /** The answer to the latest connection attempt selects the page; one with the key of the target that is selected
      (the id and the session, with a colon between) keeps what is shown. Other answers change nothing. */
  lemma LatestConnectionSelects(p: Panel, number: nat, page: Target)
    requires number in p.connection.connecting
    ensures var q := Next(p, ConnectionAnswered(number, page));
            if number != p.connection.connectionGeneration then q.(connection := p.connection) == p
            else
              && q.target == Some(page)
              && if p.target.Some? && p.target.value.id + ":" + p.target.value.sessionId == page.id + ":" + page.sessionId then
                   q.snapshot == p.snapshot && q.targetGeneration == p.targetGeneration
                 else
                   q.targetGeneration == p.targetGeneration + 1 && (p.target.Some? ==> q.snapshot.None?)
  {
  }
}
