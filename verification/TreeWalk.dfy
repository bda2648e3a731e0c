/** The debugger's depth-first walk over arbitrary node graphs, with sharing, cycles, unreadable
    parts and a node budget (debugger-tree-model.js). Nodes are identities. */
module TreeWalk {
  import opened Wrappers

  const MAX_TREE_NODES: nat := 25_000

  type Id = nat

  /** One array slot of a `children` property; `value` is `None` when it holds nothing truthy. */
  datatype Slot = Slot(index: nat, enumerable: bool, readable: bool, value: Option<Id>)

  /** What inspecting a node's `children` finds; `length` is `None` unless a non-negative integer. */
  datatype Children =
    | Unreadable
    | Missing
    | Accessor
    | NotAnArray
    | Elements(length: Option<nat>, slots: seq<Slot>)

  type Graph = Id -> Children

  datatype ChildEntry = ChildEntry(index: nat, node: Id)

  datatype ChildList = ChildList(complete: bool, entries: seq<ChildEntry>)

  predicate IsPlain(s: Slot) {
    s.enumerable && s.readable
  }

  /** The child entries that the plain slots hold, in slot order. */
  function PlainEntries(slots: seq<Slot>): seq<ChildEntry> {
    if slots == [] then []
    else
      var s := slots[|slots| - 1];
      PlainEntries(slots[..|slots| - 1])
      + if IsPlain(s) && s.value.Some? then [ChildEntry(s.index, s.value.value)] else []
  }

  /** Reading a child list is complete when every slot is plain, none is missing, and the budget
      was not used up before the last slot. */
  predicate ReadsCompletely(c: Children) {
    match c
    case Unreadable => false
    case Accessor => false
    case Missing => true
    case NotAnArray => true
    case Elements(length, slots) =>
      && (forall s <- slots :: IsPlain(s))
      && length == Some(|slots|)
      && (slots != [] ==> |PlainEntries(slots[..|slots| - 1])| < MAX_TREE_NODES)
  }

  function ReadEntries(c: Children): seq<ChildEntry> {
    if c.Elements? then
      var all := PlainEntries(c.slots);
      if |all| <= MAX_TREE_NODES then all else all[..MAX_TREE_NODES]
    else []
  }

  lemma {:induction false} PlainEntriesPrefix(slots: seq<Slot>, i: nat)
    requires i <= |slots|
    ensures PlainEntries(slots[..i]) <= PlainEntries(slots)
  {
    if i < |slots| {
      var front := slots[..|slots| - 1];
      PlainEntriesPrefix(front, i);
      assert front[..i] == slots[..i];
    } else {
      assert slots[..i] == slots;
    }
  }

  /** The budget is used up with a plain slot left. */
  lemma BudgetUsedUp(c: Children, n: nat)
    requires c.Elements? && n < |c.slots| && |PlainEntries(c.slots[..n])| == MAX_TREE_NODES
    ensures ReadEntries(c) == PlainEntries(c.slots[..n]) && !ReadsCompletely(c)
  {
    var front := c.slots[..|c.slots| - 1];
    PlainEntriesPrefix(c.slots, n);
    PlainEntriesPrefix(front, n);
    assert front[..n] == c.slots[..n];
  }

  lemma OneMoreSlot(slots: seq<Slot>, n: nat)
    requires n < |slots|
    ensures PlainEntries(slots[..n + 1])
         == PlainEntries(slots[..n])
            + if IsPlain(slots[n]) && slots[n].value.Some? then [ChildEntry(slots[n].index, slots[n].value.value)] else []
    ensures (forall s <- slots[..n + 1] :: IsPlain(s)) <==> (forall s <- slots[..n] :: IsPlain(s)) && IsPlain(slots[n])
  {
    assert slots[..n + 1][..n] == slots[..n];
    assert slots[..n + 1] == slots[..n] + [slots[n]];
  }

  method DebuggerChildEntries(c: Children) returns (r: ChildList)
    ensures r.entries == ReadEntries(c)
    ensures r.complete <==> ReadsCompletely(c)
  {
    if c.Unreadable? || c.Accessor? { return ChildList(false, []); }
    if c.Missing? || c.NotAnArray? { return ChildList(true, []); }
    var slots := c.slots;
    var entries := [];
    var complete := true;
    var numericProperties := 0;
    while numericProperties < |slots|
      invariant 0 <= numericProperties <= |slots|
      invariant entries == PlainEntries(slots[..numericProperties])
      invariant |entries| <= MAX_TREE_NODES
      invariant complete <==> forall s <- slots[..numericProperties] :: IsPlain(s)
      invariant 0 < numericProperties && complete ==> |PlainEntries(slots[..numericProperties - 1])| < MAX_TREE_NODES
    {
      var slot := slots[numericProperties];
      OneMoreSlot(slots, numericProperties);
      numericProperties := numericProperties + 1;
      if !IsPlain(slot) {
        complete := false;
        continue;
      }
      if |entries| >= MAX_TREE_NODES {
        BudgetUsedUp(c, numericProperties - 1);
        return ChildList(false, entries);
      }
      if slot.value.Some? {
        entries := entries + [ChildEntry(slot.index, slot.value.value)];
      }
    }
    assert slots[..numericProperties] == slots;
    if c.length != Some(numericProperties) { complete := false; }
    r := ChildList(complete, entries);
  }

  // ----- the walk, as a recursion that threads what was seen -----

  /** One call of the visitor. */
  datatype Visit = Visit(node: Id, ancestors: seq<Id>, depth: int, source: Option<nat>)

  /** `stops` is the visitor answering `false`; `descends` is `shouldDescend`. */
  datatype Plan = Plan(graph: Graph, stops: Visit -> bool, descends: (Id, int) -> bool)

  datatype Progress = Progress(visits: seq<Visit>, seen: set<Id>, complete: bool, stopped: bool)

  function Enter(plan: Plan, node: Id, path: seq<Id>, depth: int, source: Option<nat>, s: Progress): (r: Progress)
    requires |s.visits| <= MAX_TREE_NODES
    ensures s.visits <= r.visits && |r.visits| <= MAX_TREE_NODES
    decreases MAX_TREE_NODES - |s.visits|, 0
  {
    if s.stopped then s
    else if |s.visits| >= MAX_TREE_NODES then s.(stopped := true)
    else
      var visit := Visit(node, path, depth, source);
      var entered := s.(visits := s.visits + [visit], seen := s.seen + {node});
      if plan.stops(visit) then entered.(stopped := true)
      else if !plan.descends(node, depth) then entered
      else
        var c := plan.graph(node);
        Descend(plan, ReadEntries(c), path + [node], depth + 1,
                entered.(complete := s.complete && ReadsCompletely(c)))
  }

  function Descend(plan: Plan, entries: seq<ChildEntry>, path: seq<Id>, depth: int, s: Progress): (r: Progress)
    requires |s.visits| <= MAX_TREE_NODES
    ensures s.visits <= r.visits && |r.visits| <= MAX_TREE_NODES
    decreases MAX_TREE_NODES - |s.visits|, 1 + |entries|
  {
    if s.stopped || entries == [] then s
    else if entries[0].node in s.seen then Descend(plan, entries[1..], path, depth, s)
    else
      var after := Enter(plan, entries[0].node, path, depth, Some(entries[0].index), s);
      Descend(plan, entries[1..], path, depth, after)
  }

  function Start(ancestors: seq<Id>): Progress {
    Progress([], set a | a in ancestors, true, false)
  }

  /** The whole walk from `root`; a missing or already enclosing root is trivially complete. */
  function WalkFrom(plan: Plan, root: Option<Id>, ancestors: seq<Id>, depth: int): Progress {
    if root.None? || root.value in ancestors then Start(ancestors)
    else Enter(plan, root.value, ancestors, depth, None, Start(ancestors))
  }

  // ----- the walk, as it is written: an explicit stack of mutable frames -----

  datatype Frame = Frame(node: Id, depth: int, source: Option<nat>, entered: bool, entries: seq<ChildEntry>, childIndex: nat)

  predicate StackValid(stack: seq<Frame>, path: seq<Id>) {
    && (forall i :: 0 <= i < |stack| ==> stack[i].childIndex <= |stack[i].entries|)
    && (forall i :: 0 <= i < |stack| - 1 ==> stack[i].entered)
    && (stack != [] ==> |path| >= |stack| - (if stack[|stack| - 1].entered then 0 else 1))
  }

  /** What is still to happen: the frames' remaining work from the top of the stack down. */
  ghost function Finish(plan: Plan, stack: seq<Frame>, path: seq<Id>, s: Progress): Progress
    requires |s.visits| <= MAX_TREE_NODES && StackValid(stack, path)
    decreases |stack|
  {
    if stack == [] then s
    else
      var top, rest := stack[|stack| - 1], stack[..|stack| - 1];
      if !top.entered then
        Finish(plan, rest, path, Enter(plan, top.node, path, top.depth, top.source, s))
      else
        Finish(plan, rest, path[..|path| - 1], Descend(plan, top.entries[top.childIndex..], path, top.depth + 1, s))
  }

  lemma StoppedFinishes(plan: Plan, stack: seq<Frame>, path: seq<Id>, s: Progress)
    requires |s.visits| <= MAX_TREE_NODES && StackValid(stack, path) && s.stopped
    ensures Finish(plan, stack, path, s) == s
    decreases |stack|
  {
    if stack != [] {
      var top := stack[|stack| - 1];
      StoppedFinishes(plan, stack[..|stack| - 1], if top.entered then path[..|path| - 1] else path, s);
    }
  }

  /** The loop's invariant: finishing the pending work gives `goal`, and a frame that is not
      entered yet stands for a node not seen yet. */
  ghost predicate Pending(plan: Plan, stack: seq<Frame>, path: seq<Id>, s: Progress, goal: Progress) {
    && |s.visits| <= MAX_TREE_NODES && !s.stopped
    && StackValid(stack, path)
    && (forall i :: 0 <= i < |stack| && !stack[i].entered ==> stack[i].node !in s.seen && stack[i].childIndex == 0)
    && Finish(plan, stack, path, s) == goal
  }

  lemma StartsPending(plan: Plan, root: Id, ancestors: seq<Id>, depth: int)
    requires root !in ancestors
    ensures Pending(plan, [Frame(root, depth, None, false, [], 0)], ancestors, Start(ancestors),
                    WalkFrom(plan, Some(root), ancestors, depth))
  {
    assert [Frame(root, depth, None, false, [], 0)][..0] == [];
  }

  lemma StopStep(plan: Plan, below: seq<Frame>, frame: Frame, path: seq<Id>, s: Progress, goal: Progress)
    requires Pending(plan, below + [frame], path, s, goal) && !frame.entered
    requires |s.visits| == MAX_TREE_NODES || plan.stops(Visit(frame.node, path, frame.depth, frame.source))
    ensures goal.stopped
    ensures goal.visits == if |s.visits| == MAX_TREE_NODES then s.visits
                           else s.visits + [Visit(frame.node, path, frame.depth, frame.source)]
  {
    assert (below + [frame])[..|below|] == below;
    assert forall i :: 0 <= i < |below| ==> below[i] == (below + [frame])[i];
    StoppedFinishes(plan, below, path, Enter(plan, frame.node, path, frame.depth, frame.source, s));
  }

  /** Entering a node: its visit is recorded and its child entries become the frame's work. */
  function Entered(plan: Plan, frame: Frame, path: seq<Id>, s: Progress): Progress {
    var visit := Visit(frame.node, path, frame.depth, frame.source);
    var c := plan.graph(frame.node);
    Progress(s.visits + [visit], s.seen + {frame.node},
             s.complete && (plan.descends(frame.node, frame.depth) ==> ReadsCompletely(c)), s.stopped)
  }

  function EntriesToVisit(plan: Plan, frame: Frame): seq<ChildEntry> {
    if plan.descends(frame.node, frame.depth) then ReadEntries(plan.graph(frame.node)) else []
  }

  lemma EnterStep(plan: Plan, below: seq<Frame>, frame: Frame, path: seq<Id>, s: Progress, goal: Progress)
    requires Pending(plan, below + [frame], path, s, goal) && !frame.entered
    requires |s.visits| < MAX_TREE_NODES && !plan.stops(Visit(frame.node, path, frame.depth, frame.source))
    ensures Pending(plan, below + [frame.(entered := true, entries := EntriesToVisit(plan, frame))],
                    path + [frame.node], Entered(plan, frame, path, s), goal)
  {
    assert forall i :: 0 <= i < |below| ==> below[i] == (below + [frame])[i];
    assert frame == (below + [frame])[|below|];
    var top := frame.(entered := true, entries := EntriesToVisit(plan, frame));
    var stack := below + [top];
    assert stack[..|stack| - 1] == below && (below + [frame])[..|stack| - 1] == below;
    assert (path + [frame.node])[..|path|] == path;
    assert top.entries[0..] == top.entries;
    assert Descend(plan, top.entries, path + [frame.node], frame.depth + 1, Entered(plan, frame, path, s))
        == Enter(plan, frame.node, path, frame.depth, frame.source, s);
  }

  lemma SkipSeen(plan: Plan, entries: seq<ChildEntry>, i: nat, k: nat, path: seq<Id>, depth: int, s: Progress)
    requires |s.visits| <= MAX_TREE_NODES && i <= k <= |entries|
    requires forall j :: i <= j < k ==> entries[j].node in s.seen
    ensures Descend(plan, entries[i..], path, depth, s) == Descend(plan, entries[k..], path, depth, s)
    decreases k - i
  {
    if i < k {
      assert entries[i..][1..] == entries[i + 1..];
      SkipSeen(plan, entries, i + 1, k, path, depth, s);
    }
  }

  lemma PushStep(plan: Plan, below: seq<Frame>, frame: Frame, k: nat, path: seq<Id>, s: Progress, goal: Progress)
    requires Pending(plan, below + [frame], path, s, goal) && frame.entered
    requires frame.childIndex <= k < |frame.entries| && frame.entries[k].node !in s.seen
    requires forall j :: frame.childIndex <= j < k ==> frame.entries[j].node in s.seen
    ensures var child := frame.entries[k];
            Pending(plan, below + [frame.(childIndex := k + 1),
                                   Frame(child.node, frame.depth + 1, Some(child.index), false, [], 0)], path, s, goal)
  {
    assert forall i :: 0 <= i < |below| ==> below[i] == (below + [frame])[i];
    assert frame == (below + [frame])[|below|];
    var child := frame.entries[k];
    var pushed := Frame(child.node, frame.depth + 1, Some(child.index), false, [], 0);
    var parents := below + [frame.(childIndex := k + 1)];
    assert below + [frame.(childIndex := k + 1), pushed] == parents + [pushed];
    assert (parents + [pushed])[..|parents|] == parents && parents[..|below|] == below && (below + [frame])[..|below|] == below;
    SkipSeen(plan, frame.entries, frame.childIndex, k, path, frame.depth + 1, s);
    assert frame.entries[k..][1..] == frame.entries[k + 1..];
    var after := Enter(plan, child.node, path, frame.depth + 1, Some(child.index), s);
    assert Descend(plan, frame.entries[k..], path, frame.depth + 1, s)
        == Descend(plan, frame.entries[k + 1..], path, frame.depth + 1, after);
    assert StackValid(parents, path) && StackValid(parents + [pushed], path);
    assert Finish(plan, parents + [pushed], path, s) == Finish(plan, parents, path, after);
  }

  lemma PopStep(plan: Plan, below: seq<Frame>, frame: Frame, path: seq<Id>, s: Progress, goal: Progress)
    requires Pending(plan, below + [frame], path, s, goal) && frame.entered
    requires forall j :: frame.childIndex <= j < |frame.entries| ==> frame.entries[j].node in s.seen
    ensures |path| > 0 && Pending(plan, below, path[..|path| - 1], s, goal)
  {
    assert (below + [frame])[..|below|] == below;
    assert forall i :: 0 <= i < |below| ==> below[i] == (below + [frame])[i];
    SkipSeen(plan, frame.entries, frame.childIndex, |frame.entries|, path, frame.depth + 1, s);
  }

  /** The first child entry at or after `start` that has not been seen. */
  method NextUnvisited(entries: seq<ChildEntry>, start: nat, visited: set<Id>) returns (index: nat)
    requires start <= |entries|
    ensures start <= index <= |entries|
    ensures forall j :: start <= j < index ==> entries[j].node in visited
    ensures index < |entries| ==> entries[index].node !in visited
  {
    index := start;
    while index < |entries| && entries[index].node in visited
      invariant start <= index <= |entries|
      invariant forall j :: start <= j < index ==> entries[j].node in visited
    {
      index := index + 1;
    }
  }

  /** The loop body for a frame that is already entered: push its next child, or pop it. */
  method AdvanceTop(plan: Plan, stack: seq<Frame>, path: seq<Id>, visited: set<Id>,
                    ghost s: Progress, ghost goal: Progress)
      returns (stack': seq<Frame>, path': seq<Id>)
    requires stack != [] && stack[|stack| - 1].entered && s.seen == visited
    requires Pending(plan, stack, path, s, goal)
    ensures Pending(plan, stack', path', s, goal)
    ensures |stack'| < |stack| || !stack'[|stack'| - 1].entered
  {
    var frame := stack[|stack| - 1];
    var below := stack[..|stack| - 1];
    assert stack == below + [frame];
    var index := NextUnvisited(frame.entries, frame.childIndex, visited);
    if index < |frame.entries| {
      var child := frame.entries[index];
      PushStep(plan, below, frame, index, path, s, goal);
      stack' := below + [frame.(childIndex := index + 1), Frame(child.node, frame.depth + 1, Some(child.index), false, [], 0)];
      path' := path;
    } else {
      PopStep(plan, below, frame, path, s, goal);
      stack', path' := below, path[..|path| - 1];
    }
  }

  method WalkDebuggerTree(plan: Plan, root: Option<Id>, ancestors: seq<Id>, depth: int)
      returns (complete: bool, visits: seq<Visit>)
    ensures visits == WalkFrom(plan, root, ancestors, depth).visits
    ensures complete == (WalkFrom(plan, root, ancestors, depth).complete && !WalkFrom(plan, root, ancestors, depth).stopped)
  {
    visits := [];
    if root.None? { return true, visits; }
    var path := ancestors;
    var visited := set a | a in ancestors;
    if root.value in visited { return true, visits; }
    var stack := [Frame(root.value, depth, None, false, [], 0)];
    complete := true;
    ghost var goal := WalkFrom(plan, root, ancestors, depth);
    StartsPending(plan, root.value, ancestors, depth);
    while stack != []
      invariant Pending(plan, stack, path, Progress(visits, visited, complete, false), goal)
      decreases MAX_TREE_NODES - |visits|, stack != [] && stack[|stack| - 1].entered, |stack|
    {
      ghost var s := Progress(visits, visited, complete, false);
      var frame := stack[|stack| - 1];
      if frame.entered {
        stack, path := AdvanceTop(plan, stack, path, visited, s, goal);
        continue;
      }
      var below := stack[..|stack| - 1];
      assert stack == below + [frame];
      if |visits| >= MAX_TREE_NODES {
        StopStep(plan, below, frame, path, s, goal);
        return false, visits;
      }
      var visit := Visit(frame.node, path, frame.depth, frame.source);
      visited := visited + {frame.node};
      visits := visits + [visit];
      if plan.stops(visit) {
        StopStep(plan, below, frame, path, s, goal);
        return false, visits;
      }
      EnterStep(plan, below, frame, path, s, goal);
      path := path + [frame.node];
      var entries := [];
      if plan.descends(frame.node, frame.depth) {
        var children := DebuggerChildEntries(plan.graph(frame.node));
        if !children.complete { complete := false; }
        entries := children.entries;
      }
      stack := below + [frame.(entered := true, entries := entries)];
    }
  }
}
