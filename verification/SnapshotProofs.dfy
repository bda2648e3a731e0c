/** What holds over every interleaving of target switches, refreshes and late answers. */
module SnapshotProofs {
  import opened Wrappers
  import opened SnapshotProtocol

  // ----- the invariant -----

  /** Requests in flight have distinct numbers, none ahead of the panel's. */
  predicate RequestsOk(p: Panel) {
    && (forall c :: c in p.snapshotRequests ==> c < p.nextCompletion && p.snapshotRequests[c].number <= p.snapshotRequestGeneration)
    && (forall c, d :: c in p.snapshotRequests && d in p.snapshotRequests && c != d
                       ==> p.snapshotRequests[c].number != p.snapshotRequests[d].number)
  }

  /** A refresh is pending exactly while a completion is recorded, and that of a request in flight. */
  predicate PendingOk(p: Panel) {
    && (p.refreshPending <==> p.snapshotRequestCompletion.Some?)
    && (p.snapshotRequestCompletion.Some? ==> p.snapshotRequestCompletion.value in p.snapshotRequests)
  }

  /** What is shown was fetched under the current target generation, by a request that is done. */
  predicate ShownOk(p: Panel) {
    p.snapshot.Some? ==>
      && p.target.Some?
      && p.snapshot.value.forTarget == p.targetGeneration
      && p.snapshot.value.number <= p.snapshotRequestGeneration
      && forall c :: c in p.snapshotRequests ==> p.snapshotRequests[c].number != p.snapshot.value.number
  }

  /** At most one registry request is in flight, the latest. */
  predicate RegistryOk(r: Registry) {
    && (forall n :: n in r.inFlight ==> n == r.requestGeneration)
    && (r.registryPending <==> r.requestGeneration in r.inFlight)
  }

  predicate Inv(p: Panel) {
    RequestsOk(p) && PendingOk(p) && ShownOk(p) && RegistryOk(p.registry)
  }

  /** What is shown is of the target that is selected. */
  predicate ShowsItsTarget(p: Panel) {
    p.snapshot.Some? ==> p.target.Some? && p.snapshot.value.id == p.target.value.id
  }

  // ----- the pieces keep it -----

  lemma RefreshKeepsInv(p: Panel, owner: Option<nat>, q: Panel)
    requires Inv(p) && q == RefreshSnapshot(p, owner)
    ensures Inv(q) && q.snapshot == p.snapshot && q.target == p.target
  {
  }

  lemma ResumeKeepsInv(p: Panel, w: Waiter, q: Panel)
    requires Inv(p) && q == Resume(p, w)
    ensures Inv(q) && q.snapshot == p.snapshot && q.target == p.target
  {
  }

  /** Switching the target leaves nothing on screen. */
  lemma SwitchKeepsInv(p: Panel, next: Option<Target>, q: Panel)
    requires Inv(p)
    requires q == Switched(p, next)
    ensures Inv(q) && q.snapshot == None
  {
  }

  lemma SelectKeepsInv(p: Panel, next: Option<Target>, force: bool, blocked: bool, q: Panel)
    requires Inv(p) && q == ApplyDirectTargetSelection(p, next, force, blocked)
    ensures Inv(q) && (q.snapshot == None || (q.snapshot == p.snapshot && q.target == p.target))
    ensures q.target == p.target || q.target == next
  {
    var switched := Switched(p, next);
    SwitchKeepsInv(p, next, switched);
    RefreshKeepsInv(switched, None, RefreshSnapshot(switched, None));
  }

  lemma TakingShowsTheRequest(p: Panel, r: Request, answer: Answer, q: Panel)
    requires q == TakeAnswer(p, r, answer)
    ensures q.(target := p.target, snapshot := p.snapshot) == p
    ensures p.target.Some? <==> q.target.Some?
    ensures q.target.Some? ==> q.target.value.id == p.target.value.id
    ensures q.snapshot == p.snapshot || (RequestIsCurrent(p, r) && q.snapshot == Some(Shown(r.requested.id, r.forTarget, r.number)))
  {
  }

  lemma AnswerKeepsInv(p: Panel, c: nat, answer: Answer, q: Panel)
    requires Inv(p) && c in p.snapshotRequests && q == OnSnapshot(p, c, answer)
    ensures Inv(q)
    ensures ShowsItsTarget(p) ==> ShowsItsTarget(q)
  {
    TakingShowsTheRequest(p, p.snapshotRequests[c], answer, TakeAnswer(p, p.snapshotRequests[c], answer));
  }

  lemma FirstRegistryKeepsInv(p: Panel, targets: seq<Target>, requested: string, q: Panel)
    requires Inv(p) && q == TakeFirstRegistry(p, targets, requested)
    ensures Inv(q)
    ensures ShowsItsTarget(p) ==> ShowsItsTarget(q)
    ensures q.target.Some? ==> (p.target.Some? && q.target.value.id == p.target.value.id) || q.target.value in targets
  {
    var found := Find(targets, requested);
    if found.Some? && IsSelectableDirectTarget(found.value) { SelectKeepsInv(p, found, true, false, q); }
  }

  lemma TakeRegistryKeepsInv(p: Panel, targets: seq<Target>, q: Panel)
    requires Inv(p) && q == TakeRegistry(p, targets)
    ensures Inv(q)
    ensures ShowsItsTarget(p) ==> ShowsItsTarget(q)
    ensures q.target.Some? ==> (p.target.Some? && q.target.value.id == p.target.value.id) || q.target.value in targets
  {
    if p.target.Some? {
      var found := Find(targets, p.target.value.id);
      if found.None? || !IsSelectableDirectTarget(found.value) {
        SelectKeepsInv(p, None, true, false, q);
      } else if found.value.capabilities != p.target.value.capabilities {
        var switched := Switched(p, found);
        SwitchKeepsInv(p, found, switched);
        RefreshKeepsInv(switched, None, q);
      }
    }
  }

  lemma RegistryKeepsInv(p: Panel, n: nat, targets: Option<seq<Target>>, q: Panel)
    requires Inv(p) && n in p.registry.inFlight && q == OnRegistry(p, n, targets)
    ensures Inv(q)
    ensures ShowsItsTarget(p) ==> ShowsItsTarget(q)
    ensures q.target.Some? ==>
              || (p.target.Some? && q.target.value.id == p.target.value.id)
              || (targets.Some? && q.target.value in targets.value)
  {
    if targets.Some? {
      var p' := p.(registry := Registry(None, false, p.registry.requestGeneration, p.registry.inFlight - {n}));
      assert Inv(p') && ShowsItsTarget(p') == ShowsItsTarget(p);
      if p.registry.requestedTargetId.Some? {
        FirstRegistryKeepsInv(p', targets.value, p.registry.requestedTargetId.value, q);
      } else {
        TakeRegistryKeepsInv(p', targets.value, q);
      }
    }
  }

  lemma ConnectionKeepsInv(p: Panel, n: nat, next: Target, q: Panel)
    requires Inv(p) && n in p.connection.connecting && q == OnConnected(p, n, next)
    ensures Inv(q)
    ensures q.snapshot == None || q.snapshot == p.snapshot
    ensures q.snapshot.Some? ==> q.target == p.target || (p.target.Some? && q.target == Some(next) && Key(next) == Key(p.target.value))
    ensures q.target == p.target || q.target == Some(next)
  {
    var p' := p.(connection := p.connection.(connecting := p.connection.connecting - {n}));
    assert Inv(p');
    if n == p.connection.connectionGeneration {
      var moved := MovedTo(p', next);
      assert Inv(moved);
      RefreshKeepsInv(moved, None, q);
    }
  }

  lemma NextKeepsInv(p: Panel, e: Event, q: Panel)
    requires Inv(p) && Enabled(p, e) && q == Next(p, e)
    ensures Inv(q)
    ensures ShowsItsTarget(p) && !e.ConnectionAnswered? ==> ShowsItsTarget(q)
  {
    match e
    case Select(next, force, blocked) => SelectKeepsInv(p, next, force, blocked, q);
    case Refresh => RefreshKeepsInv(p, None, q);
    case RefreshForEdit(operation) => RefreshKeepsInv(p, Some(operation), q);
    case WaitEnds(w) => ResumeKeepsInv(p, w, q);
    case SnapshotAnswered(c, answer) => AnswerKeepsInv(p, c, answer, q);
    case RegistryAnswered(n, targets) => RegistryKeepsInv(p, n, targets, q);
    case ConnectionAnswered(n, next) => ConnectionKeepsInv(p, n, next, q);
    case _ =>
  }

  lemma {:induction false} RunsKeepInv(p: Panel, events: seq<Event>, q: Panel)
    requires Inv(p) && Leads(p, events, q)
    ensures Inv(q)
    decreases events
  {
    if events != [] {
      var next := Next(p, events[0]);
      NextKeepsInv(p, events[0], next);
      RunsKeepInv(next, events[1..], q);
    }
  }

  // ----- whose snapshot is on screen -----

  /** In every reachable state what is on screen was fetched under the current target generation; and
      as long as no inspected page connects, for the target that is selected. */
  lemma SnapshotBelongsToTarget(requested: Option<string>, events: seq<Event>, q: Panel)
    requires Leads(Initial(requested), events, q) && q.snapshot.Some?
    ensures q.target.Some? && q.snapshot.value.forTarget == q.targetGeneration
    ensures (forall e <- events :: !e.ConnectionAnswered?) ==> q.snapshot.value.id == q.target.value.id
  {
    RunsKeepInv(Initial(requested), events, q);
    if forall e <- events :: !e.ConnectionAnswered? {
      DirectRunsKeepIdentity(Initial(requested), events, q);
    }
  }

  lemma {:induction false} DirectRunsKeepIdentity(p: Panel, events: seq<Event>, q: Panel)
    requires Inv(p) && ShowsItsTarget(p) && Leads(p, events, q)
    requires forall e <- events :: !e.ConnectionAnswered?
    ensures ShowsItsTarget(q)
    decreases events
  {
    if events != [] {
      var next := Next(p, events[0]);
      NextKeepsInv(p, events[0], next);
      DirectRunsKeepIdentity(next, events[1..], q);
    }
  }

  /** A panel that follows an inspected page never selects a target and never asks the registry;
      its targets are those, of `pages`, that the server answers its connections with. */
  ghost predicate IsPageEvent(e: Event, pages: iset<Target>) {
    && !e.Select? && !e.AskRegistry? && !e.RegistryAnswered?
    && (e.ConnectionAnswered? ==> e.connected in pages)
  }

  ghost predicate IsPageRun(events: seq<Event>, pages: iset<Target>) {
    forall e <- events :: IsPageEvent(e, pages)
  }

  /** Whatever happens, the snapshot on screen is that of the target. */
  ghost predicate AlwaysShowsItsTarget(pages: iset<Target>, requested: Option<string>) {
    forall events: seq<Event>, q: Panel :: IsPageRun(events, pages) && Leads(Initial(requested), events, q) ==> ShowsItsTarget(q)
  }

  /** No page shares its key with a page of another id whose snapshots could be on screen. */
  ghost predicate KeysTellPagesApart(pages: iset<Target>) {
    forall a, b :: a in pages && b in pages && CanShowSnapshots(a) && Key(a) == Key(b) ==> a.id == b.id
  }

  /** Some page with this identity can show snapshots as it connects. */
  ghost predicate IsShowable(id: string, sessionId: string, pages: iset<Target>) {
    exists page :: page in pages && CanShowSnapshots(page) && page.id == id && page.sessionId == sessionId
  }

  ghost predicate PageInv(p: Panel, pages: iset<Target>) {
    && p.registry.inFlight == {}
    && (p.target.Some? && CanShowSnapshots(p.target.value) ==> IsShowable(p.target.value.id, p.target.value.sessionId, pages))
    && (forall c :: c in p.snapshotRequests ==> RequestInv(p, p.snapshotRequests[c], pages))
    && (p.snapshot.Some? ==> p.target.Some? && p.snapshot.value.id == p.target.value.id && IsShowable(p.target.value.id, p.target.value.sessionId, pages))
  }

  /** The generation of the target changes whenever its key does. */
  ghost predicate RequestInv(p: Panel, r: Request, pages: iset<Target>) {
    && IsShowable(r.requested.id, r.requested.sessionId, pages)
    && r.forTarget <= p.targetGeneration
    && (r.forTarget == p.targetGeneration ==> p.target.Some? && Key(r.requested) == Key(p.target.value))
  }

  lemma SameIdAndKey(a: Target, b: Target)
    requires a.id == b.id && Key(a) == Key(b)
    ensures a.sessionId == b.sessionId
  {
    assert a.sessionId == Key(a)[|a.id| + 1..] && b.sessionId == Key(b)[|b.id| + 1..];
  }

  lemma RefreshKeepsPage(p: Panel, owner: Option<nat>, q: Panel, pages: iset<Target>)
    requires PageInv(p, pages) && q == RefreshSnapshot(p, owner)
    ensures PageInv(q, pages)
  {
  }

  lemma ResumeKeepsPage(p: Panel, w: Waiter, q: Panel, pages: iset<Target>)
    requires PageInv(p, pages) && q == Resume(p, w)
    ensures PageInv(q, pages)
  {
  }

  lemma TakingKeepsPage(p: Panel, r: Request, answer: Answer, q: Panel, pages: iset<Target>)
    requires PageInv(p, pages) && RequestInv(p, r, pages) && q == TakeAnswer(p, r, answer)
    ensures PageInv(q, pages)
  {
    if RequestIsCurrent(p, r) {
      SameIdAndKey(r.requested, p.target.value);
    }
    assert q.target.Some? ==> p.target.Some? && Key(q.target.value) == Key(p.target.value);
    forall c | c in p.snapshotRequests ensures RequestInv(q, p.snapshotRequests[c], pages) {
      assert RequestInv(p, p.snapshotRequests[c], pages);
    }
  }

  lemma SettlingKeepsPage(p: Panel, c: nat, q: Panel, pages: iset<Target>)
    requires PageInv(p, pages) && q == Settle(p, c)
    ensures PageInv(q, pages)
  {
    forall d | d in q.snapshotRequests ensures RequestInv(q, q.snapshotRequests[d], pages) {
      assert RequestInv(p, p.snapshotRequests[d], pages);
    }
  }

  lemma AnswerKeepsPage(p: Panel, c: nat, answer: Answer, q: Panel, pages: iset<Target>)
    requires PageInv(p, pages) && c in p.snapshotRequests && q == OnSnapshot(p, c, answer)
    ensures PageInv(q, pages)
  {
    var r := p.snapshotRequests[c];
    TakingKeepsPage(p, r, answer, TakeAnswer(p, r, answer), pages);
    SettlingKeepsPage(TakeAnswer(p, r, answer), c, q, pages);
  }

  /** The new target takes over the snapshot only with the key, and then with the id. */
  lemma MoveKeepsPage(p: Panel, next: Target, q: Panel, pages: iset<Target>)
    requires KeysTellPagesApart(pages) && next in pages
    requires PageInv(p, pages) && p.target.Some? && Key(p.target.value) == Key(next) && q == p.(target := Some(next))
    ensures PageInv(q, pages)
  {
    assert CanShowSnapshots(next) ==> IsShowable(next.id, next.sessionId, pages);
    if p.snapshot.Some? {
      var page :| page in pages && CanShowSnapshots(page) && page.id == p.target.value.id
                  && page.sessionId == p.target.value.sessionId;
      assert Key(page) == Key(next);
      SameIdAndKey(page, next);
    }
    forall c | c in q.snapshotRequests ensures RequestInv(q, q.snapshotRequests[c], pages) {
      assert RequestInv(p, p.snapshotRequests[c], pages);
    }
  }

  lemma NewPageKeepsPage(p: Panel, next: Target, q: Panel, pages: iset<Target>)
    requires next in pages && PageInv(p, pages) && q.targetGeneration == p.targetGeneration + 1
    requires q.target == Some(next) && q.snapshot.None? && q.snapshotRequests == p.snapshotRequests && q.registry == p.registry
    ensures PageInv(q, pages)
  {
    assert CanShowSnapshots(next) ==> IsShowable(next.id, next.sessionId, pages);
    forall c | c in q.snapshotRequests ensures RequestInv(q, q.snapshotRequests[c], pages) {
      assert RequestInv(p, p.snapshotRequests[c], pages);
    }
  }

  lemma ConnectionKeepsPage(p: Panel, n: nat, next: Target, q: Panel, pages: iset<Target>)
    requires KeysTellPagesApart(pages) && next in pages
    requires PageInv(p, pages) && q == OnConnected(p, n, next)
    ensures PageInv(q, pages)
  {
    var p' := p.(connection := p.connection.(connecting := p.connection.connecting - {n}));
    assert PageInv(p', pages) by {
      forall c | c in p.snapshotRequests ensures RequestInv(p', p.snapshotRequests[c], pages) {
        assert RequestInv(p, p.snapshotRequests[c], pages);
      }
    }
    if n == p.connection.connectionGeneration {
      var moved := MovedTo(p', next);
      if p.target.None? || Key(p.target.value) != Key(next) {
        NewPageKeepsPage(p', next, moved, pages);
      } else {
        MoveKeepsPage(p', next, moved, pages);
      }
      RefreshKeepsPage(moved, None, q, pages);
    }
  }

  lemma NextKeepsPage(p: Panel, e: Event, q: Panel, pages: iset<Target>)
    requires KeysTellPagesApart(pages) && IsPageEvent(e, pages)
    requires PageInv(p, pages) && Enabled(p, e) && q == Next(p, e)
    ensures PageInv(q, pages)
  {
    match e
    case Refresh => RefreshKeepsPage(p, None, q, pages);
    case RefreshForEdit(operation) => RefreshKeepsPage(p, Some(operation), q, pages);
    case WaitEnds(w) => ResumeKeepsPage(p, w, q, pages);
    case SnapshotAnswered(c, answer) => AnswerKeepsPage(p, c, answer, q, pages);
    case ConnectionAnswered(n, next) => ConnectionKeepsPage(p, n, next, q, pages);
    case _ =>
  }

  lemma {:induction false} PageRunsKeepIdentity(p: Panel, events: seq<Event>, q: Panel, pages: iset<Target>)
    requires KeysTellPagesApart(pages) && IsPageRun(events, pages)
    requires PageInv(p, pages) && Leads(p, events, q)
    ensures ShowsItsTarget(q)
    decreases events
  {
    if events != [] {
      var next := Next(p, events[0]);
      NextKeepsPage(p, events[0], next, pages);
      PageRunsKeepIdentity(next, events[1..], q, pages);
    }
  }

  /** Two pages with one key and different ids: the snapshot of the first stays on screen for the second. */
  lemma SharedKeyMislabels(a: Target, b: Target, requested: Option<string>) returns (events: seq<Event>, q: Panel)
    requires CanShowSnapshots(a) && Key(a) == Key(b) && a.id != b.id
    ensures events == [AskConnection, ConnectionAnswered(1, a), SnapshotAnswered(0, Snapshot(None, true)),
                       AskConnection, ConnectionAnswered(2, b)]
    ensures Leads(Initial(requested), events, q)
    ensures q.snapshot.Some? && q.snapshot.value.id == a.id && q.target == Some(b)
  {
    var p1 := Next(Initial(requested), AskConnection);
    var p2 := Next(p1, ConnectionAnswered(1, a));
    var p3 := Next(p2, SnapshotAnswered(0, Snapshot(None, true)));
    var p4 := Next(p3, AskConnection);
    q := Next(p4, ConnectionAnswered(2, b));
    assert Leads(q, [], q);
    LeadsFrom(p4, ConnectionAnswered(2, b), [], q);
    LeadsFrom(p3, AskConnection, [ConnectionAnswered(2, b)], q);
    LeadsFrom(p2, SnapshotAnswered(0, Snapshot(None, true)), [AskConnection, ConnectionAnswered(2, b)], q);
    events := [SnapshotAnswered(0, Snapshot(None, true)), AskConnection, ConnectionAnswered(2, b)];
    LeadsFrom(p1, ConnectionAnswered(1, a), events, q);
    LeadsFrom(Initial(requested), AskConnection, [ConnectionAnswered(1, a)] + events, q);
    events := [AskConnection] + ([ConnectionAnswered(1, a)] + events);
  }

  lemma LeadsFrom(p: Panel, e: Event, rest: seq<Event>, q: Panel)
    requires Enabled(p, e) && Leads(Next(p, e), rest, q)
    ensures Leads(p, [e] + rest, q)
  {
    assert ([e] + rest)[1..] == rest;
  }

  /** Over all runs of a panel that follows an inspected page, the snapshot on screen is always the
      target's own iff no two pages that may connect share a key but not an id. */
  lemma SnapshotIsTheTargetsIff(pages: iset<Target>, requested: Option<string>)
    ensures AlwaysShowsItsTarget(pages, requested) <==> KeysTellPagesApart(pages)
  {
    if KeysTellPagesApart(pages) {
      forall events: seq<Event>, q: Panel | IsPageRun(events, pages) && Leads(Initial(requested), events, q)
        ensures ShowsItsTarget(q)
      {
        PageRunsKeepIdentity(Initial(requested), events, q, pages);
      }
    } else {
      var a, b :| a in pages && b in pages && CanShowSnapshots(a) && Key(a) == Key(b) && a.id != b.id;
      var events, q := SharedKeyMislabels(a, b, requested);
      assert IsPageRun(events, pages) && !ShowsItsTarget(q);
    }
  }

  predicate HasNoColon(text: string) {
    forall i :: 0 <= i < |text| ==> text[i] != ':'
  }

  /** The first colon of a key ends an id without colons. */
  lemma KeyEndsId(a: Target, b: Target)
    requires HasNoColon(b.id) && Key(a) == Key(b)
    ensures |a.id| >= |b.id|
  {
    assert Key(a)[|a.id|] == ':';
    assert forall i :: 0 <= i < |b.id| ==> Key(b)[i] == b.id[i];
  }

  /** The last colon of a key starts a session id without colons. */
  lemma KeyStartsSession(a: Target, b: Target)
    requires HasNoColon(a.sessionId) && Key(a) == Key(b)
    ensures |a.id| >= |b.id|
  {
    assert Key(b)[|b.id|] == ':';
    forall j | |a.id| < j < |Key(a)| ensures Key(a)[j] != ':' {
      assert Key(a)[j] == a.sessionId[j - |a.id| - 1];
    }
  }

  predicate IdOrSessionHasNoColon(t: Target, inSession: bool) {
    HasNoColon(if inSession then t.sessionId else t.id)
  }

  /** It is enough that all session ids, or all ids, have no colon: then a key is read back in one way. */
  lemma KeyDeterminesId(a: Target, b: Target, inSession: bool)
    requires IdOrSessionHasNoColon(a, inSession) && IdOrSessionHasNoColon(b, inSession) && Key(a) == Key(b)
    ensures a.id == b.id && a.sessionId == b.sessionId
  {
    if inSession {
      KeyStartsSession(a, b);
      KeyStartsSession(b, a);
    } else {
      KeyEndsId(a, b);
      KeyEndsId(b, a);
    }
    assert a.id == Key(a)[..|a.id|] && b.id == Key(b)[..|a.id|];
    SameIdAndKey(a, b);
  }

  /** The only page that the server answers with has a colon in its id and none in its session id. */
  predicate IsWebPreview(t: Target) {
    t.id == "owl:web-preview" && t.sessionId == "web-preview"
  }

  /** So with that server, or any whose session ids have no colon, the snapshot is always the target's. */
  lemma PagesWithPlainSessionsAreSafe(pages: iset<Target>, requested: Option<string>)
    requires forall t :: t in pages ==> IsWebPreview(t) || HasNoColon(t.sessionId)
    ensures AlwaysShowsItsTarget(pages, requested)
  {
    forall a, b | a in pages && b in pages && CanShowSnapshots(a) && Key(a) == Key(b) ensures a.id == b.id {
      KeyDeterminesId(a, b, true);
    }
    SnapshotIsTheTargetsIff(pages, requested);
  }

  // ----- the pending refresh -----

  /** In every reachable state a refresh is pending exactly while a completion is recorded, and
      then its request is in flight: a refresh cannot stay pending with nothing to end it. */
  lemma PendingIffRecorded(requested: Option<string>, events: seq<Event>, q: Panel)
    requires Leads(Initial(requested), events, q)
    ensures q.refreshPending <==> q.snapshotRequestCompletion.Some?
    ensures q.snapshotRequests == map[] ==> !q.refreshPending
  {
    RunsKeepInv(Initial(requested), events, q);
  }

  /** A step that answers no snapshot request: it may clear the screen and send a later request,
      and the recorded completion stays unless the target changes. */
  predicate Steady(p: Panel, q: Panel) {
    && (q.snapshot == p.snapshot || q.snapshot.None?)
    && q.targetGeneration >= p.targetGeneration
    && q.snapshotRequestGeneration >= p.snapshotRequestGeneration
    && (forall c :: c in q.snapshotRequests ==>
          || (c in p.snapshotRequests && q.snapshotRequests[c] == p.snapshotRequests[c])
          || q.snapshotRequests[c].number > p.snapshotRequestGeneration)
    && (p.snapshotRequestCompletion.Some? && q.targetGeneration == p.targetGeneration
        ==> q.snapshotRequestCompletion == p.snapshotRequestCompletion)
  }

  lemma RefreshIsSteady(p: Panel, owner: Option<nat>, q: Panel)
    requires PendingOk(p) && q == RefreshSnapshot(p, owner)
    ensures Steady(p, q)
  {
  }

  lemma SwitchIsSteady(p: Panel, next: Option<Target>, q: Panel)
    requires q == Switched(p, next)
    ensures Steady(p, q) && PendingOk(q) && q.targetGeneration > p.targetGeneration
  {
  }

  lemma SelectIsSteady(p: Panel, next: Option<Target>, force: bool, blocked: bool, q: Panel)
    requires PendingOk(p) && q == ApplyDirectTargetSelection(p, next, force, blocked)
    ensures Steady(p, q)
  {
    var switched := Switched(p, next);
    SwitchIsSteady(p, next, switched);
    RefreshIsSteady(switched, None, RefreshSnapshot(switched, None));
  }

  lemma TakeRegistryIsSteady(p: Panel, targets: seq<Target>, q: Panel)
    requires PendingOk(p) && q == TakeRegistry(p, targets)
    ensures Steady(p, q)
  {
    if p.target.Some? {
      var found := Find(targets, p.target.value.id);
      SelectIsSteady(p, None, true, false, ApplyDirectTargetSelection(p, None, true, false));
      var switched := Switched(p, found);
      SwitchIsSteady(p, found, switched);
      RefreshIsSteady(switched, None, RefreshSnapshot(switched, None));
    }
  }

  lemma RegistryIsSteady(p: Panel, n: nat, targets: Option<seq<Target>>, q: Panel)
    requires PendingOk(p) && q == OnRegistry(p, n, targets)
    ensures Steady(p, q)
  {
    if n == p.registry.requestGeneration && targets.Some? {
      var p' := p.(registry := Registry(None, false, n, p.registry.inFlight - {n}));
      if p.registry.requestedTargetId.Some? {
        var found := Find(targets.value, p.registry.requestedTargetId.value);
        SelectIsSteady(p', found, true, false, ApplyDirectTargetSelection(p', found, true, false));
      } else {
        TakeRegistryIsSteady(p', targets.value, q);
      }
    }
  }

  lemma ConnectionIsSteady(p: Panel, n: nat, next: Target, q: Panel)
    requires Inv(p) && q == OnConnected(p, n, next)
    ensures Steady(p, q)
  {
    var p' := p.(connection := p.connection.(connecting := p.connection.connecting - {n}));
    if n == p.connection.connectionGeneration {
      var moved := MovedTo(p', next);
      assert PendingOk(moved) && Steady(p, moved);
      RefreshIsSteady(moved, None, q);
    }
  }

  lemma NextIsSteady(p: Panel, e: Event, q: Panel)
    requires Inv(p) && Enabled(p, e) && !e.SnapshotAnswered? && q == Next(p, e)
    ensures Steady(p, q)
  {
    match e
    case Select(next, force, blocked) => SelectIsSteady(p, next, force, blocked, q);
    case Refresh => RefreshIsSteady(p, None, q);
    case RefreshForEdit(operation) => RefreshIsSteady(p, Some(operation), q);
    case RegistryAnswered(n, targets) => RegistryIsSteady(p, n, targets, q);
    case ConnectionAnswered(n, next) => ConnectionIsSteady(p, n, next, q);
    case _ =>
  }

  /** While request `c` is recorded only its own answer, or a change of the target, ends that. */
  lemma NextKeepsCompletion(p: Panel, e: Event, c: nat, q: Panel)
    requires Inv(p) && Enabled(p, e) && q == Next(p, e)
    ensures q.targetGeneration >= p.targetGeneration
    ensures p.snapshotRequestCompletion == Some(c) && !IsAnswerTo(e, c) && q.targetGeneration == p.targetGeneration
            ==> q.snapshotRequestCompletion == Some(c)
  {
    if !e.SnapshotAnswered? { NextIsSteady(p, e, q); }
  }

  predicate IsAnswerTo(e: Event, c: nat) {
    e.SnapshotAnswered? && e.completion == c
  }

  lemma {:induction false} GenerationsGrow(p: Panel, events: seq<Event>, q: Panel)
    requires Inv(p) && Leads(p, events, q)
    ensures q.targetGeneration >= p.targetGeneration
    decreases events
  {
    if events != [] {
      var next := Next(p, events[0]);
      NextKeepsInv(p, events[0], next);
      NextKeepsCompletion(p, events[0], 0, next);
      GenerationsGrow(next, events[1..], q);
    }
  }

  /** Whatever else is answered meanwhile, stale requests included, the recorded request stays
      recorded until it is answered or the target changes. */
  lemma {:induction false} OthersNeverClearIt(p: Panel, events: seq<Event>, q: Panel, c: nat)
    requires Inv(p) && Leads(p, events, q) && p.snapshotRequestCompletion == Some(c)
    requires forall e :: e in events ==> !IsAnswerTo(e, c)
    requires q.targetGeneration == p.targetGeneration
    ensures q.snapshotRequestCompletion == Some(c) && q.refreshPending && c in q.snapshotRequests
    decreases events
  {
    if events != [] {
      var next := Next(p, events[0]);
      NextKeepsInv(p, events[0], next);
      NextKeepsCompletion(p, events[0], c, next);
      GenerationsGrow(next, events[1..], q);
      OthersNeverClearIt(next, events[1..], q, c);
    }
  }

  // ----- order of snapshots -----

  /** Any snapshot put up from here on was requested as number `k` or later. */
  predicate OnlyFrom(p: Panel, k: nat, before: Option<Shown>) {
    && (p.snapshot == before || p.snapshot.None? || p.snapshot.value.number >= k)
    && p.snapshotRequestGeneration + 1 >= k
    && (p.snapshotRequestGeneration + 1 == k ==>
          forall c :: c in p.snapshotRequests ==> p.snapshotRequests[c].number != p.snapshotRequestGeneration)
  }

  lemma AnswersComeFrom(p: Panel, c: nat, answer: Answer, q: Panel, k: nat, before: Option<Shown>)
    requires c in p.snapshotRequests && q == OnSnapshot(p, c, answer) && OnlyFrom(p, k, before)
    ensures OnlyFrom(q, k, before)
  {
    TakingShowsTheRequest(p, p.snapshotRequests[c], answer, TakeAnswer(p, p.snapshotRequests[c], answer));
  }

  lemma NextComesFrom(p: Panel, e: Event, q: Panel, k: nat, before: Option<Shown>)
    requires Inv(p) && Enabled(p, e) && q == Next(p, e) && OnlyFrom(p, k, before)
    ensures OnlyFrom(q, k, before)
  {
    match e
    case SnapshotAnswered(c, answer) => AnswersComeFrom(p, c, answer, q, k, before);
    case _ => NextIsSteady(p, e, q);
  }

  lemma {:induction false} RunsComeFrom(p: Panel, events: seq<Event>, q: Panel, k: nat, before: Option<Shown>)
    requires Inv(p) && Leads(p, events, q) && OnlyFrom(p, k, before)
    ensures OnlyFrom(q, k, before)
    decreases events
  {
    if events != [] {
      var next := Next(p, events[0]);
      NextKeepsInv(p, events[0], next);
      NextComesFrom(p, events[0], next, k, before);
      RunsComeFrom(next, events[1..], q, k, before);
    }
  }

  /** A later state never shows a snapshot that was requested earlier. */
  lemma SnapshotsNeverGoBack(requested: Option<string>, before: seq<Event>, p: Panel, after: seq<Event>, q: Panel)
    requires Leads(Initial(requested), before, p) && Leads(p, after, q)
    requires p.snapshot.Some? && q.snapshot.Some?
    ensures p.snapshot.value.number <= q.snapshot.value.number
  {
    RunsKeepInv(Initial(requested), before, p);
    RunsComeFrom(p, after, q, p.snapshot.value.number, p.snapshot);
  }

  /** Once a property edit is submitted no snapshot that was requested before it is put up any more. */
  lemma EditsOutdateRequests(requested: Option<string>, before: seq<Event>, p: Panel, after: seq<Event>, q: Panel)
    requires Leads(Initial(requested), before, p) && p.target.Some? && !p.componentPropertyEdit.pending
    requires Leads(p, [EditSubmitted] + after, q)
    ensures q.snapshot == p.snapshot || q.snapshot.None? || q.snapshot.value.number > p.snapshotRequestGeneration + 1
    ensures forall c :: c in p.snapshotRequests ==> p.snapshotRequests[c].number <= p.snapshotRequestGeneration
  {
    RunsKeepInv(Initial(requested), before, p);
    var submitted := SubmitEdit(p);
    assert ([EditSubmitted] + after)[1..] == after;
    NextKeepsInv(p, EditSubmitted, submitted);
    RunsComeFrom(submitted, after, q, p.snapshotRequestGeneration + 2, p.snapshot);
  }
}
