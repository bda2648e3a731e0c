/** The state object of devtools-panel.js and the handlers that assign to it. An asynchronous
    handler is one method for each stretch between its awaits. Every handler is tied to the step of
    the protocol that it takes, and says what that step means for the fields. */
module DevtoolsPanel {
  import opened Wrappers
  import opened SnapshotProtocol
  import opened SnapshotProofs

  /** The pending refresh has its request in flight. */
  predicate IsRecorded(p: Panel) {
    p.snapshotRequestCompletion.Some? && p.snapshotRequestCompletion.value in p.snapshotRequests
  }

  /** The recorded request is one whose answer would be taken as current. */
  predicate RecordedIsCurrent(p: Panel) {
    IsRecorded(p) && RequestIsCurrent(p, p.snapshotRequests[p.snapshotRequestCompletion.value])
  }

  /** No answer to a request that was in flight at `before` is current at `p`. */
  predicate Outdates(before: Panel, p: Panel) {
    forall c :: c in before.snapshotRequests ==> !RequestIsCurrent(p, before.snapshotRequests[c])
  }

  /** Requests in flight stay so unchanged. */
  predicate KeepsRequests(before: Panel, p: Panel) {
    forall c :: c in before.snapshotRequests ==> c in p.snapshotRequests && p.snapshotRequests[c] == before.snapshotRequests[c]
  }

  /** The screen and the target stay as they are. */
  predicate KeepsScreen(before: Panel, p: Panel) {
    p.snapshot == before.snapshot && p.target == before.target && p.targetGeneration == before.targetGeneration
  }

  // ----- what the steps mean -----

  lemma ClearMeans(p: Panel, q: Panel)
    requires RequestsOk(p) && RegistryOk(p.registry) && q == ClearTargetPresentation(p)
    ensures Inv(q) && Outdates(p, q) && KeepsRequests(p, q)
  {
  }

  lemma SendMeans(p: Panel, owner: Option<nat>, q: Panel)
    requires Inv(p) && p.target.Some? && q == SendRequest(p, owner)
    ensures Inv(q) && RecordedIsCurrent(q) && Outdates(p, q) && KeepsRequests(p, q)
  {
  }

  lemma RefreshMeans(p: Panel, owner: Option<nat>, q: Panel)
    requires Inv(p) && q == RefreshSnapshot(p, owner)
    ensures Inv(q) && KeepsScreen(p, q) && KeepsRequests(p, q)
    ensures RefreshIsAllowed(p, owner) ==> q.refreshPending
    ensures q.refreshPending && !p.refreshPending ==> RecordedIsCurrent(q) && Outdates(p, q)
    ensures forall w :: w in q.waiters - p.waiters ==> w.completion in q.snapshotRequests && Some(w.operation) == owner
  {
    if RefreshIsAllowed(p, owner) && !p.refreshPending { SendMeans(p, owner, q); }
  }

  lemma ResumeMeans(p: Panel, w: Waiter, q: Panel)
    requires Inv(p) && q == Resume(p, w)
    ensures Inv(q) && KeepsScreen(p, q) && KeepsRequests(p, q)
    ensures RefreshIsAllowed(p, Some(w.operation)) ==> q.refreshPending
    ensures q.refreshPending && !p.refreshPending ==> RecordedIsCurrent(q) && Outdates(p, q)
  {
    var p' := p.(waiters := p.waiters - {w});
    if RefreshIsAllowed(p', Some(w.operation)) && !p'.refreshPending { SendMeans(p', Some(w.operation), q); }
  }

  /** Numbers only grow, so a request that is outdated by its number stays so. */
  lemma SwitchMeans(p: Panel, next: Option<Target>, q: Panel)
    requires Inv(p)
    requires q == Switched(p, next)
    ensures Inv(q) && q.snapshot.None? && Outdates(p, q)
    ensures Inv(RefreshSnapshot(q, None)) && RefreshSnapshot(q, None).snapshot.None? && Outdates(p, RefreshSnapshot(q, None))
  {
    SwitchKeepsInv(p, next, q);
    RefreshKeepsOutdated(p, q, RefreshSnapshot(q, None));
  }

  lemma SelectMeans(p: Panel, next: Option<Target>, force: bool, blocked: bool, q: Panel)
    requires Inv(p) && q == ApplyDirectTargetSelection(p, next, force, blocked)
    ensures Inv(q)
    ensures q == p || (q.target == next && q.snapshot.None? && Outdates(p, q))
  {
    var switched := Switched(p, next);
    SwitchMeans(p, next, switched);
  }

  /** The snapshot stays iff the page kept its key; else no request sent before is current any more. */
  predicate FollowsPage(before: Panel, next: Target, p: Panel) {
    before.target.Some? ==>
      if Key(before.target.value) == Key(next) then p.snapshot == before.snapshot
      else p.snapshot.None? && Outdates(before, p)
  }

  lemma MovedMeans(p: Panel, next: Target, q: Panel)
    requires Inv(p) && q == MovedTo(p, next)
    ensures Inv(q)
    ensures FollowsPage(p, next, q)
  {
  }

  lemma ConnectedMeans(p: Panel, n: nat, next: Target, q: Panel)
    requires Inv(p) && n in p.connection.connecting && q == OnConnected(p, n, next)
    ensures Inv(q)
    ensures n != p.connection.connectionGeneration ==> KeepsScreen(p, q)
    ensures n == p.connection.connectionGeneration ==> q.target == Some(next) && FollowsPage(p, next, q)
  {
    if n == p.connection.connectionGeneration {
      var p' := p.(connection := p.connection.(connecting := p.connection.connecting - {n}));
      MovedMeans(p', next, MovedTo(p', next));
      RefreshKeepsOutdated(p, MovedTo(p', next), q);
    }
  }

  /** A refresh only sends later requests, so what was outdated stays so. */
  lemma RefreshKeepsOutdated(p: Panel, moved: Panel, q: Panel)
    requires Inv(moved) && q == RefreshSnapshot(moved, None)
    ensures Inv(q) && KeepsScreen(moved, q)
    ensures NumbersUpTo(p, moved.snapshotRequestGeneration) && Outdates(p, moved) ==> Outdates(p, q)
  {
  }

  predicate NumbersUpTo(p: Panel, number: nat) {
    forall c :: c in p.snapshotRequests ==> p.snapshotRequests[c].number <= number
  }

  lemma AnswerMeans(p: Panel, c: nat, answer: Answer, q: Panel)
    requires Inv(p) && c in p.snapshotRequests && q == OnSnapshot(p, c, answer)
    ensures Inv(q)
    ensures q.snapshot != p.snapshot ==>
              && answer.Snapshot? && IsTaken(p, p.snapshotRequests[c])
              && q.target.Some? && q.snapshot == Some(Shown(q.target.value.id, q.targetGeneration, q.snapshotRequestGeneration))
    ensures p.snapshot.Some? ==> q.snapshot.Some? && q.snapshot.value.number >= p.snapshot.value.number
    ensures q.snapshotRequests == p.snapshotRequests - {c}
    ensures p.snapshotRequestCompletion != Some(c) ==>
              q.refreshPending == p.refreshPending && q.snapshotRequestCompletion == p.snapshotRequestCompletion
    ensures p.snapshotRequestCompletion == Some(c) ==> !q.refreshPending
  {
    AnswerKeepsInv(p, c, answer, q);
    TakingShowsTheRequest(p, p.snapshotRequests[c], answer, TakeAnswer(p, p.snapshotRequests[c], answer));
  }

  lemma EditMeans(p: Panel, q: Panel)
    requires Inv(p) && q == SubmitEdit(p)
    ensures Inv(q) && KeepsScreen(p, q) && KeepsRequests(p, q) && q.refreshPending == p.refreshPending
    ensures q.target.Some? ==> q.componentPropertyEdit.pending
    ensures p.target.Some? && !p.componentPropertyEdit.pending ==>
              Outdates(p, q) && EditOwnsRefresh(q, Some(q.componentPropertyEdit.operationGeneration))
  {
  }

  lemma SameRegistryKeepsInv(p: Panel, q: Panel)
    requires Inv(p) && RegistryOk(q.registry) && q == p.(registry := q.registry)
    ensures Inv(q)
  {
  }

  lemma RegistryIsQuiet(p: Panel, n: nat, targets: Option<seq<Target>>, q: Panel)
    requires Inv(p) && n in p.registry.inFlight && q == OnRegistry(p, n, targets)
    ensures n == p.registry.requestGeneration
    ensures q.registry == Registry(if targets.Some? then None else p.registry.requestedTargetId, false, n, {})
    ensures targets.None? ==> KeepsScreen(p, q)
  {
    assert p.registry.inFlight - {n} == {};
  }

  class PanelState {
    var target: Option<Target>
    var targetGeneration: nat
    var snapshot: Option<Shown>
    var refreshPending: bool
    var snapshotRequestCompletion: Option<nat>
    var snapshotRequestGeneration: nat
    var componentPropertyEdit: PropertyEdit
    var runtimeStateFocused: bool
    var snapshotRequests: map<nat, Request>
    var nextCompletion: nat
    var waiters: set<Waiter>
    var registry: Registry
    var connection: Connection

    ghost function View(): Panel
      reads this
    {
      Panel(target, targetGeneration, snapshot, refreshPending, snapshotRequestCompletion, snapshotRequestGeneration,
            componentPropertyEdit, runtimeStateFocused, snapshotRequests, nextCompletion, waiters, registry, connection)
    }

    /** Requests in flight have distinct numbers; a refresh is pending iff one of them is recorded; what
        is shown is of the current target generation; at most one registry request is in flight. */
    ghost predicate Valid()
      reads this
    {
      Inv(View())
    }

    constructor (requestedTargetId: Option<string>)
      ensures Valid() && View() == Initial(requestedTargetId)
    {
      target, targetGeneration, snapshot := None, 0, None;
      refreshPending, snapshotRequestCompletion, snapshotRequestGeneration := false, None, 0;
      componentPropertyEdit, runtimeStateFocused := PropertyEdit(0, false, false), false;
      snapshotRequests, nextCompletion, waiters := map[], 0, {};
      registry, connection := Registry(requestedTargetId, false, 0, {}), Connection(0, {});
    }

    // ----- targets -----

    /** Nothing stays on screen, no refresh or edit stays pending, and no request in flight counts any
        more. (A caller may have advanced the target generation already.) */
    method Clear()
      requires RequestsOk(View()) && RegistryOk(registry)
      modifies this
      ensures Valid() && View() == ClearTargetPresentation(old(View()))
      ensures snapshot.None? && !refreshPending && !componentPropertyEdit.pending
      ensures Outdates(old(View()), View()) && KeepsRequests(old(View()), View())
    {
      ClearMeans(View(), ClearTargetPresentation(View()));
      snapshotRequestGeneration := snapshotRequestGeneration + 1;
      refreshPending := false;
      snapshotRequestCompletion := None;
      snapshot := None;
      componentPropertyEdit := PropertyEdit(componentPropertyEdit.operationGeneration + 1, false, false);
    }

    method SwitchTarget(next: Option<Target>)
      requires Valid()
      modifies this
      ensures Valid() && View() == Switched(old(View()), next)
    {
      ghost var before := View();
      targetGeneration := targetGeneration + 1;
      Clear();
      target := next;
      SwitchKeepsInv(before, next, View());
    }

    /** A selection that is applied was made already, or empties the screen, takes the new target and
        outdates all earlier requests; one that is refused changes nothing. */
    method ApplySelection(next: Option<Target>, force: bool, blocked: bool) returns (applied: bool)
      requires Valid()
      modifies this
      ensures Valid() && View() == ApplyDirectTargetSelection(old(View()), next, force, blocked)
      ensures applied <==> force || !blocked || (old(target).Some? && next.Some? && old(target).value.id == next.value.id)
      ensures !applied ==> View() == old(View())
      ensures View() == old(View()) || (target == next && snapshot.None? && Outdates(old(View()), View()))
    {
      ghost var before, after := View(), ApplyDirectTargetSelection(View(), next, force, blocked);
      SelectMeans(before, next, force, blocked, after);
      if target.Some? && next.Some? && target.value.id == next.value.id && !force {
        return true;
      }
      if !force && blocked {
        return false;
      }
      SwitchTarget(next);
      if next.Some? {
        RefreshSnapshotInternal(None);
      }
      assert View() == after;
      return true;
    }

    // ----- snapshots -----

    /** The new request is the recorded one and the only current one. */
    method SendSnapshotRequest(owner: Option<nat>)
      requires Valid() && target.Some?
      modifies this
      ensures Valid() && View() == SendRequest(old(View()), owner)
      ensures RecordedIsCurrent(View()) && Outdates(old(View()), View()) && KeepsRequests(old(View()), View())
    {
      ghost var before, after := View(), SendRequest(View(), owner);
      SendMeans(before, owner, after);
      refreshPending := true;
      snapshotRequestCompletion := Some(nextCompletion);
      snapshotRequestGeneration := snapshotRequestGeneration + 1;
      snapshotRequests :=
        snapshotRequests[nextCompletion := Request(target.value, targetGeneration, snapshotRequestGeneration, owner)];
      nextCompletion := nextCompletion + 1;
      assert View() == after;
    }

    method RefreshAllowed(owner: Option<nat>) returns (allowed: bool)
      ensures allowed == RefreshIsAllowed(View(), owner)
    {
      var edit := componentPropertyEdit;
      var owns := owner.Some? && edit.operationGeneration == owner.value && edit.pending;
      allowed := target.Some? && CanShowSnapshots(target.value)
                 && ((!edit.focused && !edit.pending) || owns)
                 && !runtimeStateFocused;
    }

    /** Whenever a refresh is allowed one is pending afterwards; if none was before, its request is
        current and the only one that is. The screen stays as it is, and an edit only waits for a
        request that is in flight. */
    method RefreshSnapshotInternal(owner: Option<nat>)
      requires Valid()
      modifies this
      ensures Valid() && View() == RefreshSnapshot(old(View()), owner)
      ensures KeepsScreen(old(View()), View()) && KeepsRequests(old(View()), View())
      ensures RefreshIsAllowed(old(View()), owner) ==> refreshPending && IsRecorded(View())
      ensures refreshPending && !old(refreshPending) ==> RecordedIsCurrent(View()) && Outdates(old(View()), View())
      ensures forall w :: w in waiters - old(waiters) ==> w.completion in snapshotRequests && Some(w.operation) == owner
    {
      RefreshMeans(View(), owner, RefreshSnapshot(View(), owner));
      var allowed := RefreshAllowed(owner);
      if !allowed {
        return;
      }
      if refreshPending {
        var edit := componentPropertyEdit;
        if owner.None? || edit.operationGeneration != owner.value || !edit.pending || snapshotRequestCompletion.None? {
          return;
        }
        waiters := waiters + {Waiter(owner.value, snapshotRequestCompletion.value)};
        return;
      }
      SendSnapshotRequest(owner);
    }

    /** The edit's refresh goes ahead if it is still allowed and nobody was faster; whoever's it is, a
        refresh is then pending. */
    method ResumeRefresh(w: Waiter)
      requires Valid()
      modifies this
      ensures Valid() && View() == Resume(old(View()), w)
      ensures w !in waiters && KeepsScreen(old(View()), View()) && KeepsRequests(old(View()), View())
      ensures RefreshIsAllowed(old(View()), Some(w.operation)) ==> refreshPending && IsRecorded(View())
      ensures refreshPending && !old(refreshPending) ==> RecordedIsCurrent(View()) && Outdates(old(View()), View())
    {
      ResumeMeans(View(), w, Resume(View(), w));
      waiters := waiters - {w};
      var allowed := RefreshAllowed(Some(w.operation));
      if allowed && !refreshPending {
        SendSnapshotRequest(Some(w.operation));
      }
    }

    /** Only a current answer gets on screen, never one that is older than what is there; the request is
        done, and another one that is recorded stays so. */
    method ReceiveSnapshot(completion: nat, answer: Answer)
      requires Valid() && completion in snapshotRequests
      modifies this
      ensures Valid() && View() == OnSnapshot(old(View()), completion, answer)
      ensures snapshot != old(snapshot) ==>
                && answer.Snapshot? && IsTaken(old(View()), old(snapshotRequests)[completion])
                && target.Some? && snapshot == Some(Shown(target.value.id, targetGeneration, snapshotRequestGeneration))
      ensures old(snapshot).Some? ==> snapshot.Some? && snapshot.value.number >= old(snapshot).value.number
      ensures snapshotRequests == old(snapshotRequests) - {completion}
      ensures old(snapshotRequestCompletion) != Some(completion) ==>
                refreshPending == old(refreshPending) && snapshotRequestCompletion == old(snapshotRequestCompletion)
      ensures old(snapshotRequestCompletion) == Some(completion) ==> !refreshPending
    {
      AnswerMeans(View(), completion, answer, OnSnapshot(View(), completion, answer));
      TakeSnapshot(snapshotRequests[completion], answer);
      snapshotRequests := snapshotRequests - {completion};
      if snapshotRequestCompletion == Some(completion) {
        snapshotRequestCompletion := None;
        refreshPending := false;
      }
    }

    method TakeSnapshot(r: Request, answer: Answer)
      modifies this`target, this`snapshot
      ensures View() == TakeAnswer(old(View()), r, answer)
    {
      var current := targetGeneration == r.forTarget && target.Some? && target.value.id == r.requested.id
                     && snapshotRequestGeneration == r.number;
      var edit := componentPropertyEdit;
      var owns := r.owner.Some? && edit.operationGeneration == r.owner.value && edit.pending;
      if answer.Failed? || !current || runtimeStateFocused || ((edit.focused || edit.pending) && !owns) {
        return;
      }
      if answer.capabilities.Some? {
        target := Some(r.requested.(capabilities := answer.capabilities.value));
      }
      if answer.restorable {
        snapshot := Some(Shown(r.requested.id, r.forTarget, r.number));
      }
    }

    // ----- the registry of direct targets -----

    /** There is never more than one request to the registry in flight. */
    method RequestTargetRegistry()
      requires Valid()
      modifies this`registry
      ensures Valid() && View() == RefreshTargetRegistry(old(View()))
      ensures registry.registryPending && registry.inFlight == {registry.requestGeneration}
    {
      if registry.registryPending {
        return;
      }
      var number := registry.requestGeneration + 1;
      registry := Registry(registry.requestedTargetId, true, number, registry.inFlight + {number});
    }

    method FindTarget(targets: seq<Target>, id: string) returns (r: Option<Target>)
      ensures r == Find(targets, id)
    {
      for i := 0 to |targets|
        invariant Find(targets, id) == Find(targets[i..], id)
      {
        if targets[i].id == id {
          return Some(targets[i]);
        }
      }
      r := None;
    }

    method SelectRequested(targets: seq<Target>, requested: string)
      requires Valid()
      modifies this
      ensures View() == TakeFirstRegistry(old(View()), targets, requested)
    {
      var found := FindTarget(targets, requested);
      if found.Some? && IsSelectableDirectTarget(found.value) {
        var _ := ApplySelection(found, true, false);
      }
    }

    method FollowRegistry(targets: seq<Target>)
      requires Valid()
      modifies this
      ensures View() == TakeRegistry(old(View()), targets)
    {
      ghost var before, after := View(), TakeRegistry(View(), targets);
      if target.None? {
        return;
      }
      var refreshed := FindTarget(targets, target.value.id);
      if refreshed.None? || !IsSelectableDirectTarget(refreshed.value) {
        var _ := ApplySelection(None, true, false);
        return;
      }
      var changed := refreshed.value.capabilities != target.value.capabilities;
      if changed {
        SwitchTarget(refreshed);
        RefreshSnapshotInternal(None);
      } else {
        target := refreshed;
      }
      assert View() == after;
    }

    /** The target is afterwards the one selected before, or one that the registry lists, or none; what is
        shown stays true to it; and the panel no longer waits for the target it was opened for. */
    method ReceiveRegistry(number: nat, targets: Option<seq<Target>>)
      requires Valid() && number in registry.inFlight
      modifies this
      ensures Valid() && View() == OnRegistry(old(View()), number, targets)
      ensures target.Some? ==>
                || (old(target).Some? && target.value.id == old(target).value.id)
                || (targets.Some? && target.value in targets.value)
      ensures ShowsItsTarget(old(View())) ==> ShowsItsTarget(View())
      ensures targets.None? ==> KeepsScreen(old(View()), View())
      ensures registry == Registry(if targets.Some? then None else old(registry).requestedTargetId, false, number, {})
    {
      ghost var before := View();
      ghost var after := OnRegistry(before, number, targets);
      RegistryKeepsInv(before, number, targets, after);
      RegistryIsQuiet(before, number, targets, after);
      registry := registry.(inFlight := registry.inFlight - {number});
      if number != registry.requestGeneration {
        return;
      }
      registry := registry.(registryPending := false);
      if targets.None? {
        return;
      }
      var requested := registry.requestedTargetId;
      registry := registry.(requestedTargetId := None);
      assert View() == before.(registry := Registry(None, false, number, {}));
      SameRegistryKeepsInv(before, View());
      if requested.Some? {
        SelectRequested(targets.value, requested.value);
      } else {
        FollowRegistry(targets.value);
      }
      assert View() == after;
    }

    // ----- the inspected page -----

    method RequestConnection()
      requires Valid()
      modifies this`connection
      ensures Valid() && View() == Connect(old(View()))
    {
      var number := connection.connectionGeneration + 1;
      connection := Connection(number, connection.connecting + {number});
    }

    /** Only the latest connection counts. The snapshot stays iff the page kept its key; else no request
        sent before is current any more. */
    method ReceiveConnection(number: nat, next: Target)
      requires Valid() && number in connection.connecting
      modifies this
      ensures Valid() && View() == OnConnected(old(View()), number, next)
      ensures number != old(connection).connectionGeneration ==> KeepsScreen(old(View()), View())
      ensures number == old(connection).connectionGeneration ==> target == Some(next) && FollowsPage(old(View()), next, View())
    {
      ghost var before, after := View(), OnConnected(View(), number, next);
      ConnectedMeans(before, number, next, after);
      connection := connection.(connecting := connection.connecting - {number});
      if number != connection.connectionGeneration {
        assert View() == after;
        return;
      }
      assert View() == before.(connection := connection);
      assert Valid();
      MoveToPage(next);
      RefreshSnapshotInternal(None);
      assert View() == after;
    }

    method MoveToPage(next: Target)
      requires Valid()
      modifies this
      ensures Valid() && View() == MovedTo(old(View()), next)
    {
      ghost var before, after := View(), MovedTo(View(), next);
      MovedMeans(before, next, after);
      var previousTargetKey := if target.Some? then Some(Key(target.value)) else None;
      if previousTargetKey.Some? && previousTargetKey.value != Key(next) {
        Clear();
      }
      if previousTargetKey != Some(Key(next)) {
        targetGeneration := targetGeneration + 1;
      }
      target := Some(next);
      assert View() == after;
    }

    // ----- edits of component properties -----

    /** An edit that is accepted outdates all snapshot requests in flight and leaves the screen as it is. */
    method SubmitPropertyEdit()
      requires Valid()
      modifies this
      ensures Valid() && View() == SubmitEdit(old(View()))
      ensures target.Some? ==> componentPropertyEdit.pending
      ensures old(target).Some? && !old(componentPropertyEdit).pending ==>
                Outdates(old(View()), View()) && EditOwnsRefresh(View(), Some(componentPropertyEdit.operationGeneration))
      ensures KeepsScreen(old(View()), View()) && KeepsRequests(old(View()), View()) && refreshPending == old(refreshPending)
    {
      EditMeans(View(), SubmitEdit(View()));
      if target.None? || componentPropertyEdit.pending {
        return;
      }
      componentPropertyEdit := PropertyEdit(componentPropertyEdit.operationGeneration + 1, true, false);
      snapshotRequestGeneration := snapshotRequestGeneration + 1;
    }

    method FinishPropertyEdit(operation: nat)
      requires Valid()
      modifies this`componentPropertyEdit
      ensures Valid() && View() == FinishEdit(old(View()), operation)
    {
      if componentPropertyEdit.operationGeneration == operation {
        componentPropertyEdit := PropertyEdit(operation, false, false);
      }
    }
  }
}
