/** The developer tools panel's targets and snapshots (devtools-panel.js): which answers of the
    server may still change what is shown, after the user or the registry changed the target. */
module SnapshotProtocol {
  import opened Wrappers

  datatype Target = Target(id: string, sessionId: string, capabilities: set<string>, attachable: bool)

  /** A request for a snapshot that is in flight, and what it captured when it was sent. */
  datatype Request = Request(requested: Target, forTarget: nat, number: nat, owner: Option<nat>)

  /** The snapshot on screen, by the request that fetched it. */
  datatype Shown = Shown(id: string, forTarget: nat, number: nat)

  /** A refresh on behalf of property edit `operation` that awaits `completion`. */
  datatype Waiter = Waiter(operation: nat, completion: nat)

  datatype PropertyEdit = PropertyEdit(operationGeneration: nat, pending: bool, focused: bool)

  /** `requestedTargetId` is the target asked for when the panel was opened, until the registry
      first answers; `inFlight` holds the numbers of the requests that are not answered. */
  datatype Registry = Registry(requestedTargetId: Option<string>, registryPending: bool, requestGeneration: nat, inFlight: set<nat>)

  datatype Connection = Connection(connectionGeneration: nat, connecting: set<nat>)

  /** `snapshotRequests` holds the requests in flight under their completions. */
  datatype Panel = Panel(
    target: Option<Target>,
    targetGeneration: nat,
    snapshot: Option<Shown>,
    refreshPending: bool,
    snapshotRequestCompletion: Option<nat>,
    snapshotRequestGeneration: nat,
    componentPropertyEdit: PropertyEdit,
    runtimeStateFocused: bool,
    snapshotRequests: map<nat, Request>,
    nextCompletion: nat,
    waiters: set<Waiter>,
    registry: Registry,
    connection: Connection)

  function Initial(requestedTargetId: Option<string>): Panel {
    Panel(None, 0, None, false, None, 0, PropertyEdit(0, false, false), false, map[], 0, {},
          Registry(requestedTargetId, false, 0, {}), Connection(0, {}))
  }

  // ----- targets -----

  predicate CanShowSnapshots(t: Target) {
    "components" in t.capabilities && "snapshot" in t.capabilities
  }

  predicate IsSelectableDirectTarget(t: Target) {
    t.attachable && CanShowSnapshots(t)
  }

  function Find(targets: seq<Target>, id: string): (r: Option<Target>)
    ensures r.Some? ==> r.value in targets && r.value.id == id
    ensures r.None? ==> forall t :: t in targets ==> t.id != id
  {
    if targets == [] then None
    else if targets[0].id == id then Some(targets[0])
    else Find(targets[1..], id)
  }

  function ClearTargetPresentation(p: Panel): Panel {
    p.(snapshotRequestGeneration := p.snapshotRequestGeneration + 1,
       refreshPending := false, snapshotRequestCompletion := None, snapshot := None,
       componentPropertyEdit := PropertyEdit(p.componentPropertyEdit.operationGeneration + 1, false, false))
  }

  /** A new generation with an empty screen, for the new target. */
  function Switched(p: Panel, next: Option<Target>): Panel {
    ClearTargetPresentation(p.(targetGeneration := p.targetGeneration + 1)).(target := next)
  }

  /** `blocked` says that a performance operation is running. */
  function ApplyDirectTargetSelection(p: Panel, next: Option<Target>, force: bool, blocked: bool): Panel {
    if p.target.Some? && next.Some? && p.target.value.id == next.value.id && !force then p
    else if !force && blocked then p
    else
      var switched := Switched(p, next);
      if next.Some? then RefreshSnapshot(switched, None) else switched
  }

  // ----- snapshots -----

  predicate EditOwnsRefresh(p: Panel, owner: Option<nat>) {
    owner.Some? && p.componentPropertyEdit.operationGeneration == owner.value && p.componentPropertyEdit.pending
  }

  /** The user is editing a property, other than through the edit that owns the refresh. */
  predicate EditBlocks(p: Panel, owner: Option<nat>) {
    (p.componentPropertyEdit.focused || p.componentPropertyEdit.pending) && !EditOwnsRefresh(p, owner)
  }

  predicate RefreshIsAllowed(p: Panel, owner: Option<nat>) {
    p.target.Some? && CanShowSnapshots(p.target.value) && !EditBlocks(p, owner) && !p.runtimeStateFocused
  }

  function SendRequest(p: Panel, owner: Option<nat>): Panel
    requires p.target.Some?
  {
    var number := p.snapshotRequestGeneration + 1;
    p.(refreshPending := true,
       snapshotRequestCompletion := Some(p.nextCompletion),
       snapshotRequestGeneration := number,
       nextCompletion := p.nextCompletion + 1,
       snapshotRequests := p.snapshotRequests[p.nextCompletion := Request(p.target.value, p.targetGeneration, number, owner)])
  }

  /** Up to its first wait: skip, wait for the request in flight, or send one. */
  function RefreshSnapshot(p: Panel, owner: Option<nat>): Panel {
    if !RefreshIsAllowed(p, owner) then p
    else if !p.refreshPending then SendRequest(p, owner)
    else if !EditOwnsRefresh(p, owner) || p.snapshotRequestCompletion.None? then p
    else p.(waiters := p.waiters + {Waiter(owner.value, p.snapshotRequestCompletion.value)})
  }

  /** After that wait. */
  function Resume(p: Panel, w: Waiter): Panel {
    var p' := p.(waiters := p.waiters - {w});
    if !RefreshIsAllowed(p', Some(w.operation)) || p'.refreshPending then p' else SendRequest(p', Some(w.operation))
  }

  predicate RequestIsCurrent(p: Panel, r: Request) {
    && p.targetGeneration == r.forTarget
    && p.target.Some? && p.target.value.id == r.requested.id
    && p.snapshotRequestGeneration == r.number
  }

  /** What the server said: nothing usable, or a tree, with the capabilities of the target if it
      named it, which may turn out not to be restorable. */
  datatype Answer = Failed | Snapshot(capabilities: Option<set<string>>, restorable: bool)

  /** Whether the answer is taken: it is current, and the user is not in the middle of something. */
  predicate IsTaken(p: Panel, r: Request) {
    RequestIsCurrent(p, r) && !p.runtimeStateFocused && !EditBlocks(p, r.owner)
  }

  function TakeAnswer(p: Panel, r: Request, answer: Answer): Panel {
    if answer.Failed? || !IsTaken(p, r) then p
    else
      var updated := if answer.capabilities.Some? then p.(target := Some(r.requested.(capabilities := answer.capabilities.value))) else p;
      if answer.restorable then updated.(snapshot := Some(Shown(r.requested.id, r.forTarget, r.number))) else updated
  }

  /** Only the request whose completion is recorded clears it. */
  function Settle(p: Panel, completion: nat): Panel {
    var p' := p.(snapshotRequests := p.snapshotRequests - {completion});
    if p.snapshotRequestCompletion == Some(completion) then
      p'.(snapshotRequestCompletion := None, refreshPending := false)
    else p'
  }

  function OnSnapshot(p: Panel, completion: nat, answer: Answer): Panel
    requires completion in p.snapshotRequests
  {
    Settle(TakeAnswer(p, p.snapshotRequests[completion], answer), completion)
  }

  // ----- the registry of direct targets -----

  function RefreshTargetRegistry(p: Panel): Panel {
    if p.registry.registryPending then p
    else
      var number := p.registry.requestGeneration + 1;
      p.(registry := p.registry.(registryPending := true, requestGeneration := number, inFlight := p.registry.inFlight + {number}))
  }

  /** A target that is gone is given up; one whose capabilities changed is presented afresh. */
  function TakeRegistry(p: Panel, targets: seq<Target>): Panel {
    if p.target.None? then p
    else
      var found := Find(targets, p.target.value.id);
      if found.None? || !IsSelectableDirectTarget(found.value) then ApplyDirectTargetSelection(p, None, true, false)
      else if found.value.capabilities != p.target.value.capabilities then
        RefreshSnapshot(Switched(p, found), None)
      else p.(target := found)
  }

  /** The first answer selects the target that was asked for. */
  function TakeFirstRegistry(p: Panel, targets: seq<Target>, requested: string): Panel {
    var found := Find(targets, requested);
    if found.Some? && IsSelectableDirectTarget(found.value) then ApplyDirectTargetSelection(p, found, true, false) else p
  }

  /** `targets` is missing when the request failed or its answer made no sense. (The code clears
      `registryPending` last; nothing that runs before looks at it.) */
  function OnRegistry(p: Panel, number: nat, targets: Option<seq<Target>>): Panel {
    var registry := p.registry.(inFlight := p.registry.inFlight - {number});
    if number != registry.requestGeneration then p.(registry := registry)
    else if targets.None? then p.(registry := registry.(registryPending := false))
    else
      var p' := p.(registry := registry.(registryPending := false, requestedTargetId := None));
      if registry.requestedTargetId.Some? then TakeFirstRegistry(p', targets.value, registry.requestedTargetId.value)
      else TakeRegistry(p', targets.value)
  }

  // ----- the inspected page -----

  function Connect(p: Panel): Panel {
    var number := p.connection.connectionGeneration + 1;
    p.(connection := Connection(number, p.connection.connecting + {number}))
  }

  /** What tells one inspected target from another. (The nonce that ends both keys never changes.) */
  function Key(t: Target): string {
    t.id + ":" + t.sessionId
  }

  /** A page with another key is a new target with an empty screen. */
  function MovedTo(p: Panel, next: Target): Panel {
    var changed := p.target.None? || Key(p.target.value) != Key(next);
    (if p.target.Some? && changed then ClearTargetPresentation(p) else p)
      .(targetGeneration := if changed then p.targetGeneration + 1 else p.targetGeneration, target := Some(next))
  }

  function OnConnected(p: Panel, number: nat, next: Target): Panel {
    var p' := p.(connection := p.connection.(connecting := p.connection.connecting - {number}));
    if number != p.connection.connectionGeneration then p' else RefreshSnapshot(MovedTo(p', next), None)
  }

  // ----- edits of component properties -----

  function SubmitEdit(p: Panel): Panel {
    if p.target.None? || p.componentPropertyEdit.pending then p
    else
      p.(componentPropertyEdit := PropertyEdit(p.componentPropertyEdit.operationGeneration + 1, true, false),
         snapshotRequestGeneration := p.snapshotRequestGeneration + 1)
  }

  function FinishEdit(p: Panel, operation: nat): Panel {
    if p.componentPropertyEdit.operationGeneration == operation then
      p.(componentPropertyEdit := PropertyEdit(operation, false, false))
    else p
  }

  // ----- steps -----

  datatype Event =
    | Select(next: Option<Target>, force: bool, blocked: bool)
    | Refresh
    | RefreshForEdit(operation: nat)
    | WaitEnds(waiter: Waiter)
    | SnapshotAnswered(completion: nat, answer: Answer)
    | AskRegistry
    | RegistryAnswered(registryNumber: nat, targets: Option<seq<Target>>)
    | AskConnection
    | ConnectionAnswered(connectionNumber: nat, connected: Target)
    | EditSubmitted
    | EditFinished(operation: nat)
    | EditorFocus(focused: bool)
    | RuntimeStateFocus(focused: bool)

  predicate Enabled(p: Panel, e: Event) {
    match e
    case WaitEnds(w) => w in p.waiters && w.completion !in p.snapshotRequests
    case SnapshotAnswered(c, _) => c in p.snapshotRequests
    case RegistryAnswered(n, _) => n in p.registry.inFlight
    case ConnectionAnswered(n, _) => n in p.connection.connecting
    case _ => true
  }

  function Next(p: Panel, e: Event): Panel
    requires Enabled(p, e)
  {
    match e
    case Select(next, force, blocked) => ApplyDirectTargetSelection(p, next, force, blocked)
    case Refresh => RefreshSnapshot(p, None)
    case RefreshForEdit(operation) => RefreshSnapshot(p, Some(operation))
    case WaitEnds(w) => Resume(p, w)
    case SnapshotAnswered(c, answer) => OnSnapshot(p, c, answer)
    case AskRegistry => RefreshTargetRegistry(p)
    case RegistryAnswered(n, targets) => OnRegistry(p, n, targets)
    case AskConnection => Connect(p)
    case ConnectionAnswered(n, next) => OnConnected(p, n, next)
    case EditSubmitted => SubmitEdit(p)
    case EditFinished(operation) => FinishEdit(p, operation)
    case EditorFocus(focused) => p.(componentPropertyEdit := p.componentPropertyEdit.(focused := focused))
    case RuntimeStateFocus(focused) => p.(runtimeStateFocused := focused)
  }

  ghost predicate Leads(p: Panel, events: seq<Event>, q: Panel)
    decreases events
  {
    if events == [] then p == q else Enabled(p, events[0]) && Leads(Next(p, events[0]), events[1..], q)
  }
}
