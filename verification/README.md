# Verified models of Valdi's tooling

A Dafny 4.11 project that models the algorithmic cores of Valdi's compiler companion, of its
debugger and of its snapshot tests, and proves what they promise. `dafny verify dfyconfig.toml`
checks all of it. Functions say what each piece of code computes; classes and methods follow the
code's own fields, stacks and loops and are proved equal to those functions; lemmas say what the
functions mean.

| part | files | code |
|---|---|---|
| version-guard analysis | `VersionGuards` (the analysis), `VersionRuntime` (what guarded programs do), `VersionProofs` (bounds, monotonicity), `VersionSafety` (soundness), `VersionReach`, `VersionExactness` and `VersionModules` (exactly when), `VersionPrecision` (what is reported can happen), `VersionValidator` (the class) | `compiler/companion/src/VersioningValidator.ts` |
| JSX to renderer calls | `Jsx` (the compilation), `JsxRuntime` (what JSX and renderer calls mean), `JsxProofs`, `JsxCorrectness`, `JsxIdentifiers`, `JsxAcceptance` (which trees compile), `JsxMeaning` (what attributes say), `JsxProcessor` (the class) | `compiler/companion/src/JSXProcessor.ts` |
| console guards | `ConsoleGuard` (the rewrite), `ConsoleRuntime` (what programs do), `ConsoleGuardProofs` | `compiler/companion/src/ConsoleLogTransformer.ts` |
| walking node graphs | `TreeWalk`, `TreeWalkProofs`, `TreeWalkCompleteness` | `npm_modules/cli/debugger/debugger-tree-model.js` |
| flat trees | `FlatTree`, `FlatTreeProofs` | same file |
| graph-to-JSON projection | `Projection` (what comes out), `Projector` (the loop), `ProjectionProofs`, `ProjectionCompleteness` | same file |
| bounded JSON reader | `JsonGrammar` (values, words, limits and writing), `JsonMachine`, `JsonLexer` and their proofs, `JsonReader` (the parser's loops and its stack of frames), `JsonReaderProofs`, `JsonErrors` | `npm_modules/cli/debugger/devtools-panel.js` |
| targets and snapshots | `SnapshotProtocol`, `SnapshotProofs`, `SnapshotLiveness`, `DevtoolsPanel` (the state object) | same file |
| input queue | `InputQueue`, `InputQueueProofs`, `InputQueueDelivery`, `PreviewInputs` (the variables and handlers) | `npm_modules/cli/debugger/debugger-model.js`, `debugger-preview-html.js` |
| geometry | `Geometry`, `GeometryProofs` | `npm_modules/cli/debugger/debugger-model.js` |
| image comparison | `SnapshotImages` | `apps/snapshot_tests/src` |

How the system is seen:

- A version is an optional number, absent being lowest. Guarded programs run at a fixed runtime
  version against an oracle for everything else; they define closures, and a use may call any
  closure whose declared version it checked for, with or without its arguments. The analysis comes
  in two modes: the code's own, and a thorough one that also visits what the code skips.
- Nodes and objects are identities in a graph given by a function, so sharing and cycles are
  allowed; paths are sequences of keys.
- The JSON reader works on UTF-16 code units. RFC 8259 (sections 2 to 7) enters twice: as the
  tokens of a value, and as the spellings of a token. `JsonGrammar` writes both, and the limits, out
  in numbers of its own and uses nothing of the scanner.
- Emitted renderer calls run on a stack machine: begin pushes, set updates the top, end pops and
  attaches. A lazy element asks an oracle whether it is needed.
- The two asynchronous protocols are state machines over their handlers' steps; what an
  asynchronous handler does between two waits is one step. Theorems about them hold over every
  sequence of steps.

## What turned out not to hold as one might expect

- A program without diagnostics can still reach an unsupported use. The validator never visits default
  values of parameters and computed names of functions and methods, and it visits `extends`
  expressions, decorators and names of fields under the version of their class, although they run
  where the class is declared (`VersionExactness.SkippedPartsCanFail` has three such programs).
  Whatever else it visits is sound: programs with no such part are safe (`ValidatedProgramsAreSafe`),
  and all programs are whose skipped parts visit cleanly where they run
  (`ThoroughlyCleanProgramsAreSafe`). `CallIsSafeIff`, `ClassIsSafeIff` and `ModuleIsSafeIff` say
  exactly when a function, a class and a module of functions are.
- Without a workspace minimum, a version that a function declares replaces what is known where it is
  defined, so `if (isVersionAtLeast(5)) { function f() { use4() } }` with `f` declared for version 3 is
  reported although no run reaches the use unsupported (`OwnVersionReplacesTheGuard`). With a minimum, or
  without a declared version, uses in such functions are reported iff some version reaches them
  unsupported (`EnclosedUseReportedIff`).
- `!(!a && !b)` means the same as `a || b`, but only from the second does the analysis learn the lower
  of the two versions (`NegatedConjunctionLosesItsBound`). `BoundIsGreatestIff` says for every condition
  when the bound that is learnt is the best one; for the guards of `ExactGuards` it always is
  (`ExactGuardsHaveGreatestBounds`).
- Eleven times `<view/>` and one `<view1/>` compile to a file that declares `__nodeView11` twice and does
  not load (`ElevenViewsCollide`). `CompilationPreservesTheTree` says exactly which trees are compiled
  to what they mean.
- The key that tells inspected pages apart joins two strings with a colon, so two pages can share a key,
  and the snapshot of one stay on screen for the other; `SnapshotIsTheTargetsIff` says for which sets of
  pages this cannot happen. It cannot with the repository's own server, whose one page has the id
  `owl:web-preview` and the session `web-preview` (npm_modules/cli/src/debugger/server.ts:1469-1471).
- Guarding an arrow whose body is a console call makes it return nothing, so the rewrite is safe
  exactly when the console's methods answer nothing (`GuardingIsSafeIffConsoleIsSilent`). The comment
  at the head of that file shows the guard as `runtime.isLoggingEnabled`; the code emits
  `globalThis.runtime?.isLoggingEnabled`, and the model follows the code.

## Model

| member | source | states |
|---|---|---|
| VersionProofs.ConditionReturnsTrueBound | compiler/companion/src/VersioningValidator.ts:347-379 | Visiting a condition returns its true bound, whatever the context. |
| VersionProofs.BoundsHold | compiler/companion/src/VersioningValidator.ts:381-427 | Whenever a condition evaluates to true (false) at a runtime version, that version is at least its true (false) bound. |
| VersionProofs.ExactGuards | compiler/companion/src/VersioningValidator.ts:381-427 | Guards of well-formed version tests under even negations, with no conjunction under an odd number, hold iff the version is at least their bound; the dual for false. |
| VersionProofs.ExactGuardsAreClean | compiler/companion/src/VersioningValidator.ts:347-379 | Visiting such a guard reports nothing. |
| VersionProofs.GuardedUseReportedIffReachable | compiler/companion/src/VersioningValidator.ts:193-298 | Behind an exact guard a use is reported iff some runtime version reaches it unsupported. |
| VersionPrecision.UseReportedIffReachable | compiler/companion/src/VersioningValidator.ts:193-345 | For every nest of branches, early exits in either branch, conditional arms, right operands, loops, handlers and other constructs with exact guards, at top level, in functions, methods, patterns, fields, static members or `extends`: the code reports a use in it iff some version from the minimum up reaches it unsupported (or it needs version 0 and no version is known at all). |
| VersionPrecision.BadArgumentsAreReported | compiler/companion/src/VersioningValidator.ts:194-196 | A call of `isVersionAtLeast` with bad arguments is reported in every such place, once and nothing else. |
| VersionPrecision.EnclosedUseReportedIff | compiler/companion/src/VersioningValidator.ts:441-459 | For a use in a function that is defined behind an exact guard, with a workspace minimum or no version of its own: reported iff some version reaches it unsupported. |
| VersionPrecision.OwnVersionReplacesTheGuard | compiler/companion/src/VersioningValidator.ts:452-457 | Without a minimum a declared version replaces the guard around the function: for all versions in between a use is reported that no run reaches unsupported. |
| VersionPrecision.TerminatesIffNeverGoesOn | compiler/companion/src/VersioningValidator.ts:328-345 | A statement whose branches can all be taken is judged to terminate iff no run completes it normally. |
| VersionPrecision.SignatureTypeReportedIff | compiler/companion/src/VersioningValidator.ts:534-563 | A type in a function's signature is reported iff some version that satisfies the minimum and the function's version lacks it, or no version is known. |
| VersionPrecision.MethodTypeReportedIff | compiler/companion/src/VersioningValidator.ts:228-237 | Likewise for a method, the version of its class counting as well. |
| VersionPrecision.ContractTypeReportedIff | compiler/companion/src/VersioningValidator.ts:490-523 | A type in a class's contract is reported iff some version that satisfies the minimum and the version declared for its place lacks it, whatever guards stand around the class. |
| VersionExactness.BoundIsGreatestIff | compiler/companion/src/VersioningValidator.ts:381-427 | The bound of a condition always holds, and no greater one does iff the condition can come out that way at the bound itself. |
| VersionExactness.ExactGuardsHaveGreatestBounds | compiler/companion/src/VersioningValidator.ts:381-427 | The guards of ExactGuards have the greatest bounds that hold. |
| VersionExactness.NegatedConjunctionLosesItsBound | compiler/companion/src/VersioningValidator.ts:410-427 | For all `a` and `b`, `!(!a && !b)` can have exactly the values of the disjunction of `a` and `b`, and its truth implies the lower version, but its bound is absent, which is best only when that version is 0. |
| VersionProofs.VisitMonotone | compiler/companion/src/VersioningValidator.ts:193-298 | Raising the context, or leaving out what the code skips, leaves a subsequence of the diagnostics, at every node. |
| VersionProofs.ConditionMonotone | compiler/companion/src/VersioningValidator.ts:347-379 | The same for conditions. |
| VersionProofs.StatementsMonotone | compiler/companion/src/VersioningValidator.ts:300-326 | The same for statement lists, whose context grows from statement to statement. |
| VersionProofs.FunctionMonotone | compiler/companion/src/VersioningValidator.ts:441-459 | The same for functions, their signature, patterns and body. |
| VersionProofs.MembersMonotone | compiler/companion/src/VersioningValidator.ts:228-237 | The same for class members under the class's own version. |
| VersionSafety.TerminatingNeverNormal | compiler/companion/src/VersioningValidator.ts:328-345 | A statement that the analysis says always terminates never completes normally in any run. |
| VersionSafety.BoundAfterStatementHolds | compiler/companion/src/VersioningValidator.ts:308-326 | When a statement completes normally the runtime version satisfies the context the analysis goes on with. |
| VersionSafety.RunIsSafe | compiler/companion/src/VersioningValidator.ts:193-298 | A node whose thorough visit at the runtime's version finds nothing reaches no unsupported use in any run from a state whose closures are safe, and leaves such a state; default values, names and heritage run where the language runs them. |
| VersionSafety.ConditionIsSafe | compiler/companion/src/VersioningValidator.ts:347-379 | The same for conditions, right operands being visited under the left one's bound. |
| VersionSafety.StatementsAreSafe | compiler/companion/src/VersioningValidator.ts:300-326 | The same for statement lists, early exits included. |
| VersionSafety.ClosureCallIsSafe | compiler/companion/src/VersioningValidator.ts:441-459 | Calling a safe closure at a version that satisfies its declaration, with any arguments missing, is safe however deep calls nest. |
| VersionSafety.ThoroughlyCleanProgramsAreSafe | compiler/companion/src/VersioningValidator.ts:24-27 | Any program whose thorough visit finds nothing reaches no unsupported use, loading or called by others later, at any version from the minimum up, under any answers. |
| VersionSafety.ThoroughReportsMore | compiler/companion/src/VersioningValidator.ts:24-27 | What the code reports is a subsequence of what the thorough visit reports. |
| VersionSafety.ValidatedProgramsAreSafe | compiler/companion/src/VersioningValidator.ts:24-27 | For programs with no default values, computed function names, or eager parts in versioned classes, no diagnostics of the code itself mean the same safety. |
| VersionReach.OnlyWhatItCanBe | compiler/companion/src/VersioningValidator.ts:381-427 | An expression evaluates only to the values that its text allows at the runtime version. |
| VersionReach.CanBeReached | compiler/companion/src/VersioningValidator.ts:381-427 | And to each of those under some answers of the surroundings. |
| VersionExactness.SkippedPartsCanFail | compiler/companion/src/VersioningValidator.ts:226-237 | Three programs without diagnostics that reach an unsupported use: a default value, a versioned class's `extends` expression, a computed method name. |
| VersionExactness.CallIsSafeIff | compiler/companion/src/VersioningValidator.ts:441-459 | A function with a clean body can be called at a version, with and without arguments, iff its default values and patterns cannot reach harm there; read off their text. |
| VersionExactness.ClassIsSafeIff | compiler/companion/src/VersioningValidator.ts:226-237 | A class with clean static initialisers can be declared at a version iff its heritage and member names, in the order they run, cannot. |
| VersionExactness.StraightCallIsSafeIffClean | compiler/companion/src/VersioningValidator.ts:446-450 | Without guards inside the parameters the condition is the analysis's own: a call is safe iff all defaults and patterns visit cleanly at the runtime version. |
| VersionExactness.CleanIsHarmless | compiler/companion/src/VersioningValidator.ts:193-298 | A part that visits cleanly in the context where it runs cannot reach harm. |
| VersionModules.ModuleIsSafeIff | compiler/companion/src/VersioningValidator.ts:24-27 | A module of functions that validates and skips nothing but parameters is safe at a version, under all callers, iff no default or pattern of a function callable there can reach harm. |
| VersionValidator.VersioningValidator.RunValidation | compiler/companion/src/VersioningValidator.ts:24-27 | Reports exactly the diagnostics of the analysis. |
| VersionValidator.VersioningValidator.ValidateVersionedUse | compiler/companion/src/VersioningValidator.ts:172-191 | Silent iff nothing is required, or there is a context and every runtime version that satisfies it supports the use. |
| VersionValidator.VersioningValidator.ValidateSignature | compiler/companion/src/VersioningValidator.ts:534-563 | Appends one diagnostic for each type of a signature that needs more, in order. |
| VersionValidator.VersioningValidator.VisitNode | compiler/companion/src/VersioningValidator.ts:193-277 | Appends the diagnostics of the node in its context. |
| VersionValidator.VersioningValidator.VisitIfStatement | compiler/companion/src/VersioningValidator.ts:279-289 | Visits both branches under the context merged with the condition's bounds. |
| VersionValidator.VersioningValidator.VisitConditionalExpression | compiler/companion/src/VersioningValidator.ts:291-298 | Likewise for the conditional expression. |
| VersionValidator.VersioningValidator.VisitVersionCondition | compiler/companion/src/VersioningValidator.ts:347-379 | Appends the condition's diagnostics and returns its bound. |
| VersionValidator.VersioningValidator.VisitStatementList | compiler/companion/src/VersioningValidator.ts:300-306 | The loop that carries the context from statement to statement appends what the recursive analysis reports. |
| VersionValidator.VersioningValidator.VisitFunctionLike | compiler/companion/src/VersioningValidator.ts:441-459 | Checks the signature and the binding patterns, and nothing else of the parameters, under the effective version, and the body under the version it may assume. |
| VersionValidator.VersioningValidator.ValidateContainerDeclaration | compiler/companion/src/VersioningValidator.ts:490-523 | Checks the types of a class's contract under the minimum and their own version, wherever the class stands. |
| VersionValidator.VersioningValidator.VisitClassDeclaration | compiler/companion/src/VersioningValidator.ts:226-237 | Visits heritage and members under the class's version, static members where the class stands. |
| VersionValidator.VersioningValidator.VisitClassMembers | compiler/companion/src/VersioningValidator.ts:228-237 | Visits members, their names included, under their container's version. |
| JsxProofs.HoistingKeepsAttributes | compiler/companion/src/JSXProcessor.ts:142-181 | Prototype statics first and then the dynamic calls give the same attribute map as the source attributes left to right, spreads included. |
| JsxProofs.FlatteningKeepsMeaning | compiler/companion/src/JSXProcessor.ts:1207-1234 | Merging compiler-made blocks into their list changes no run. |
| JsxCorrectness.GroupingKeepsSlots | compiler/companion/src/JSXProcessor.ts:591-704 | Grouping children by slot keeps what each slot holds, scattered children of the unnamed slot joined in order. |
| JsxCorrectness.ElementRuns | compiler/companion/src/JSXProcessor.ts:518-559 | The calls of an element, lazy or not, append exactly the element with its children. |
| JsxCorrectness.ComponentRuns | compiler/companion/src/JSXProcessor.ts:955-1047 | The calls of a component append exactly it, with view model, injected attributes and slots. |
| JsxCorrectness.GroupsRun | compiler/companion/src/JSXProcessor.ts:441-474 | The slot calls fill exactly the slots that the children name. |
| JsxCorrectness.FunctionRuns | compiler/companion/src/JSXProcessor.ts:872-953 | The call of a function component passes what its children mean. |
| JsxCorrectness.NodeRuns | compiler/companion/src/JSXProcessor.ts:1049-1105 | Compiled code of any node, run from any stack that accepts children, leaves the stack and appends what the node means. |
| JsxCorrectness.EachRuns | compiler/companion/src/JSXProcessor.ts:1273-1336 | Children compiled one statement each render in source order, guarded ones when their condition is truthy. |
| JsxCorrectness.ChildrenRun | compiler/companion/src/JSXProcessor.ts:276-297 | Children, with text dropped and blocks flattened, render in source order. |
| JsxIdentifiers.ChildrenCount | compiler/companion/src/JSXProcessor.ts:201-208 | Compiling advances the counter of each prefix by the number of nodes of the source tree that use it. |
| JsxIdentifiers.ChildrenNumber | compiler/companion/src/JSXProcessor.ts:486-498 | The declared names are each prefix with each number up to its counter, once each. |
| JsxIdentifiers.SameName | compiler/companion/src/JSXProcessor.ts:201-208 | Two different such names are spelled alike only if one prefix is the other followed by a numeral `d`, and the other's number is at least `10 * d + 1`. |
| JsxIdentifiers.NamesDistinctIff | compiler/companion/src/JSXProcessor.ts:201-208 | The declared names of a tree are distinct iff no prefix that it uses is another one with a numeral `d` at the end that is itself used more than `10 * d` times. |
| JsxIdentifiers.PlainTagsNeverCollide | compiler/companion/src/JSXProcessor.ts:201-208 | Trees whose tags do not end in a digit meet that condition. |
| JsxIdentifiers.ElevenViewsCollide | compiler/companion/src/JSXProcessor.ts:1123-1149 | A family of trees that the compiler accepts and whose output does not load. |
| JsxIdentifiers.CompilationPreservesTheTree | compiler/companion/src/JSXProcessor.ts:1049-1149 | For every tree the compiler accepts: the compiled file, from any renderer stack, loads, appends exactly the source tree and leaves the stack as it was, iff the identifiers do not collide. |
| JsxAcceptance.ChildrenCompileIff | compiler/companion/src/JSXProcessor.ts:652-735 | The compiler accepts a list of children iff the source tree is accepted: no text but white space, no `slot` attribute on a node, `slotted` only directly in a component and with at most `slot`, not mixed with other children, the unnamed slot in one run, and the attribute and child rules of slots and functions; written without the compiler's functions. |
| JsxAcceptance.GroupingAccepts | compiler/companion/src/JSXProcessor.ts:642-704 | Grouping the children of a component succeeds iff they may stand together as they do. |
| JsxAcceptance.AcceptedTreesRender | compiler/companion/src/JSXProcessor.ts:1049-1149 | The main theorem for source trees: exactly the accepted ones compile, and what comes out renders what they mean iff the identifiers do not collide. |
| JsxAcceptance.InkIsNotSupported | compiler/companion/src/JSXProcessor.ts:612-625 | Text among children gives the text error, whatever else is wrong. |
| JsxAcceptance.FirstRejectedChild | compiler/companion/src/JSXProcessor.ts:276-297 | Without text the first child that is not accepted gives the error: a node its own, `slotted` that it is outside a component. |
| JsxAcceptance.ForbiddenInNode | compiler/companion/src/JSXProcessor.ts:716-735 | Which error a forbidden attribute or child of a node gives, for each kind of node. |
| JsxAcceptance.FirstMisfit | compiler/companion/src/JSXProcessor.ts:591-704 | Which error the first child of a component gives that does not fit among those before it: text, attributes of `slotted`, a scattered unnamed slot, or a mixture. |
| JsxMeaning.AttributesHold | compiler/companion/src/JSXProcessor.ts:123-199 | Which attribute names reach an element, a view model and the injected attributes, and that the last attribute or spread giving a name wins, for all lists. |
| JsxMeaning.ElementMeans | compiler/companion/src/JSXProcessor.ts:518-559 | What an element is rendered as: key and ref the last given, all attributes but `slot`, `key` and `ref`, children in order; asked for first iff it has an attribute `lazy`. |
| JsxMeaning.ComponentMeans | compiler/companion/src/JSXProcessor.ts:955-1047 | What a component is rendered as: names with `$` injected, `context` the last one unless `undefined`, the rest in the view model. |
| JsxMeaning.FunctionMeans | compiler/companion/src/JSXProcessor.ts:872-953 | What a function component is called with, and that it gets children iff it has any besides text and empty expressions. |
| JsxMeaning.SlotMeans | compiler/companion/src/JSXProcessor.ts:718-760 | What a slot is rendered as. |
| JsxProcessor.JsxProcessor.AppendInitializedVariable | compiler/companion/src/JSXProcessor.ts:486-498 | The prefix, and no other, gets its next number, every number stays declared once, the prototype is found under the name unless another is spelled like it, and earlier declarations stay. |
| JsxProcessor.JsxProcessor.ResolveAttributes | compiler/companion/src/JSXProcessor.ts:123-199 | The loop sorts attributes into key, ref, static, dynamic and injected as the definition does. |
| JsxProcessor.JsxProcessor.OutputNode | compiler/companion/src/JSXProcessor.ts:1049-1105 | Returns the compiled code or error, and leaves the shared state as the definition does. |
| JsxProcessor.JsxProcessor.OutputAttributeCalls | compiler/companion/src/JSXProcessor.ts:518-559 | Emits one call per dynamic attribute, in order. |
| JsxProcessor.JsxProcessor.OutputEach | compiler/companion/src/JSXProcessor.ts:276-297 | Compiles children in order, threading the shared state, up to the first error. |
| JsxProcessor.JsxProcessor.MergeCreatedBlocks | compiler/companion/src/JSXProcessor.ts:1207-1234 | The loop flattens just the blocks that the compiler made. |
| JsxProcessor.JsxProcessor.InsertChildrenToUnnamedSlot | compiler/companion/src/JSXProcessor.ts:591-610 | Adds to the unnamed group if it is last, makes one if there is none, and fails otherwise. |
| JsxProcessor.JsxProcessor.CollectSlots | compiler/companion/src/JSXProcessor.ts:652-704 | The loop groups children by slot and rejects mixtures as the definition does. |
| JsxProcessor.JsxProcessor.OutputSlots | compiler/companion/src/JSXProcessor.ts:652-704 | Emits the slot calls of all groups in order, up to the first error. |
| ConsoleGuard.UnwrapParenthesizedExpression | compiler/companion/src/ConsoleLogTransformer.ts:66-72 | Strips all parentheses. |
| ConsoleGuardProofs.RewriteKeepsConsoleCalls | compiler/companion/src/ConsoleLogTransformer.ts:38-47 | Rewriting children first neither makes nor breaks a console call. |
| ConsoleGuardProofs.ConsoleCallsLog | compiler/companion/src/ConsoleLogTransformer.ts:33-47 | What the rewrite takes for a console call is a call of `log`, `warn`, `error`, `info` or `debug` of `console`, the five that the reference run leaves out. |
| ConsoleGuardProofs.EvalSimulates | compiler/companion/src/ConsoleLogTransformer.ts:78-120 | Expressions of the guarded program have the trace and value of the reference run, closures carrying guarded code. |
| ConsoleGuardProofs.ExecSimulates | compiler/companion/src/ConsoleLogTransformer.ts:84-95 | The same for statements, guarded console calls included. |
| ConsoleGuardProofs.ArrowSimulates | compiler/companion/src/ConsoleLogTransformer.ts:97-116 | The same for arrows whose body is a console call, parenthesised or not. |
| ConsoleGuardProofs.AllSimulates | compiler/companion/src/ConsoleLogTransformer.ts:78-120 | The same for statement lists, at any depth of calls. |
| ConsoleGuardProofs.GuardingIsSafeIffConsoleIsSilent | compiler/companion/src/ConsoleLogTransformer.ts:78-120 | For all programs at once: logging on preserves trace and result, logging off gives those of the program without its guarded calls, iff the console methods answer nothing. |
| ConsoleGuardProofs.TalkingConsoleIsUnsafe | compiler/companion/src/ConsoleLogTransformer.ts:97-116 | The program that shows the other direction. |
| TreeWalk.DebuggerChildEntries | npm_modules/cli/debugger/debugger-tree-model.js:229-273 | The loop reads the plain child slots in order within the budget, and says whether that was all. |
| TreeWalk.WalkDebuggerTree | npm_modules/cli/debugger/debugger-tree-model.js:275-328 | The explicit-stack walk makes exactly the visits of the recursive preorder that threads a visited set, and returns its completeness. |
| TreeWalkProofs.WalkIsPreorder | npm_modules/cli/debugger/debugger-tree-model.js:275-328 | Visits are distinct, never of an enclosing node, and each hangs off the line of descent of the one before it, one level deeper than its parent. |
| TreeWalkProofs.AncestorsAreAPath | npm_modules/cli/debugger/debugger-tree-model.js:275-328 | The ancestors handed to the visitor are a path of the graph from the root. |
| TreeWalkProofs.VisitedNodesAreReachable | npm_modules/cli/debugger/debugger-tree-model.js:275-328 | Only reachable nodes are visited. |
| TreeWalkProofs.CompleteWalkVisitsExactlyReachable | npm_modules/cli/debugger/debugger-tree-model.js:275-328 | A complete walk that descends everywhere visits exactly the reachable nodes, each once. |
| TreeWalkCompleteness.WalkIsCompleteIff | npm_modules/cli/debugger/debugger-tree-model.js:229-328 | A walk that descends everywhere and is stopped nowhere, over child lists of at most 25,000 elements, answers true iff it reaches at most 25,000 nodes and each has readable children or none. |
| TreeWalkCompleteness.ReadsCompletelyIff | npm_modules/cli/debugger/debugger-tree-model.js:229-273 | Such a child list is read completely iff its length is the number of its elements and all are readable. |
| TreeWalkCompleteness.EntriesAreTheElements | npm_modules/cli/debugger/debugger-tree-model.js:257-270 | What is read of it are exactly the elements that hold something, in ascending order. |
| TreeWalkCompleteness.SiblingsAreVisitedInOrder | npm_modules/cli/debugger/debugger-tree-model.js:307-322 | Nodes with one line of ancestors are visited in the order of their slots. |
| TreeWalkProofs.EnterStopsAtFirst | npm_modules/cli/debugger/debugger-tree-model.js:275-328 | A stopped walk ends at the first visit that stops it, or at the budget. |
| TreeWalkProofs.PathToNode | npm_modules/cli/debugger/debugger-tree-model.js:374-388 | Returns a path of the graph from the root to a node with the id; empty after a complete walk means there is none. |
| FlatTree.ProjectTree | npm_modules/cli/debugger/debugger-tree-model.js:413-479 | The visitor that appends records and links in place builds the flat tree of the walk. |
| FlatTree.RestoreTree | npm_modules/cli/debugger/debugger-tree-model.js:502-538 | Restores each record's data and its valid child indexes in order, or leaves what is not a flat tree alone. |
| FlatTreeProofs.ProjectionIsWellFormed | npm_modules/cli/debugger/debugger-tree-model.js:413-479 | Projected trees are numbered in preorder, parents first, one level apart, children the exact inverse of parents, within the budget. |
| FlatTreeProofs.ProjectionKeepsTheTree | npm_modules/cli/debugger/debugger-tree-model.js:413-479 | Records are the distinct visited nodes with their data; each link is a child entry of the parent; a complete projection holds exactly the reachable nodes. |
| FlatTreeProofs.LineOfDescent | npm_modules/cli/debugger/debugger-tree-model.js:413-479 | Each prefix of a visit's line of descent ends in an enclosing record. |
| FlatTreeProofs.RestoredProjectsBack | npm_modules/cli/debugger/debugger-tree-model.js:502-538 | Projecting the tree restored from a well-formed flat tree gives back its indexes, depths, links and data. |
| FlatTreeProofs.ValidIndexesExact | npm_modules/cli/debugger/debugger-tree-model.js:527-536 | A restored record keeps exactly those of its child indexes that name a node. |
| FlatTreeProofs.ProjectRestoreProject | npm_modules/cli/debugger/debugger-tree-model.js:413-538 | Projecting, restoring and projecting again gives the first projection's tree, from any graph. |
| Projector.DebuggerOwnEntries | npm_modules/cli/debugger/debugger-tree-model.js:60-86 | The loop keeps readable properties in order and says whether it saw them all. |
| Projector.DebuggerProjectionFrame | npm_modules/cli/debugger/debugger-tree-model.js:88-133 | Chooses the shape of the output container and its entries as the definition does. |
| Projector.ProjectNextEntry | npm_modules/cli/debugger/debugger-tree-model.js:163-226 | One turn of the loop keeps the invariant, writes exactly one value, which stands for the next property, and opens a container iff the property holds an object not seen before with room below. |
| Projector.StepKeepsInv | npm_modules/cli/debugger/debugger-tree-model.js:163-226 | Each turn keeps the invariant that ties output containers to the source objects they expand. |
| Projector.ProjectValue | npm_modules/cli/debugger/debugger-tree-model.js:150-227 | On any graph the projection ends within 250,000 values and 64 levels, expands each object at most once, cuts a container off only when all 250,000 are used up and an object only below 64 levels and not inside itself, and is complete iff every container is whole. |
| ProjectionProofs.PathResolves | npm_modules/cli/debugger/debugger-tree-model.js:150-227 | Every container is found in the output at the path recorded for it. |
| ProjectionProofs.ReferencesLeadToTheirObject | npm_modules/cli/debugger/debugger-tree-model.js:150-227 | Every reference's path leads to the expansion of the very object it stands for. |
| ProjectionProofs.CompleteProjectionIsFaithful | npm_modules/cli/debugger/debugger-tree-model.js:39-227 | Following any keys through a complete output, references included, and through the source gives corresponding values, absent together. |
| ProjectionProofs.SharingIsPreserved | npm_modules/cli/debugger/debugger-tree-model.js:39-227 | Two key sequences lead to one object in the source iff they lead to one container in a complete output. |
| ProjectionProofs.ShapesArePreserved | npm_modules/cli/debugger/debugger-tree-model.js:88-133 | Containers of a complete output have the shape of their object. |
| ProjectionCompleteness.CompleteIffWithinLimits | npm_modules/cli/debugger/debugger-tree-model.js:150-227 | For graphs in which no simple path from the root has more than 64 objects: a projection is complete iff everything reached shows all its properties with values, arrays have exactly their elements, no text is longer than 50,000, and there are fewer than 250,000 properties. |
| ProjectionCompleteness.GraphsWithinLimitsAreProjectedWhole | npm_modules/cli/debugger/debugger-tree-model.js:150-227 | Such graphs are projected whole. |
| ProjectionCompleteness.CompleteProjectionsAreWithinLimits | npm_modules/cli/debugger/debugger-tree-model.js:150-227 | And whatever was projected whole was within those limits, long paths or not. |
| ProjectionCompleteness.ContainersHaveTheirShape | npm_modules/cli/debugger/debugger-tree-model.js:88-133 | The shape of every container, complete or not: record, array, sparse array with its length, or unavailable at its path. |
| ProjectionCompleteness.PrimitivesComeBack | npm_modules/cli/debugger/debugger-tree-model.js:39-53 | Short texts and kept values come back as they are; a long text keeps its beginning and ends in the remark, 50,000 characters in all. |
| ProjectionCompleteness.PrimitivesStayDistinct | npm_modules/cli/debugger/debugger-tree-model.js:39-53 | Short texts and kept values that are written alike are the same. |
| JsonMachineProofs.ValuesWithinLimitsAreRead | npm_modules/cli/debugger/devtools-panel.js:1362-1436 | The machine reads the tokens of every value within the limits back to that value. |
| JsonMachineProofs.StepConsumes | npm_modules/cli/debugger/devtools-panel.js:1362-1436 | Each accepted token is accounted for by the stack, and the limits keep holding. |
| JsonMachineProofs.MachineIsTheGrammar | npm_modules/cli/debugger/devtools-panel.js:1272-1443 | The machine returns a value iff the tokens are that value's, with at most 12 nested containers, 100 entries each, keys of 1,024 units and none repeated. |
| JsonLexerProofs.LexWordSound | npm_modules/cli/debugger/devtools-panel.js:1183-1270 | Each token read is a word of RFC 8259 with the meaning returned. |
| JsonLexerProofs.LexWordComplete | npm_modules/cli/debugger/devtools-panel.js:1183-1270 | Each word of RFC 8259 is read whole, with its meaning, unless a number or keyword runs on. |
| JsonLexerProofs.ScanStringSound | npm_modules/cli/debugger/devtools-panel.js:1197-1231 | A string that is read spells valid characters and escapes, decoded as returned. |
| JsonLexerProofs.ScanStringComplete | npm_modules/cli/debugger/devtools-panel.js:1197-1231 | Every valid string is read to its end. |
| JsonLexerProofs.StringIsRead | npm_modules/cli/debugger/devtools-panel.js:1197-1231 | A string is read with a value iff its text is a string of RFC 8259 section 7 with that value, by the eight short escapes and four hexadecimal digits in either case. |
| JsonLexerProofs.ScanNumberSound | npm_modules/cli/debugger/devtools-panel.js:1246-1270 | What is read as a number spells one. |
| JsonLexerProofs.ScanNumberComplete | npm_modules/cli/debugger/devtools-panel.js:1246-1270 | Every spelling of a number is read to its end. |
| JsonReader.Parser.ReadString | npm_modules/cli/debugger/devtools-panel.js:1197-1231 | The loop over code units scans and decodes as the definition does, errors included. |
| JsonReader.Parser.ReadNumber | npm_modules/cli/debugger/devtools-panel.js:1246-1270 | The digit loops scan as the definition does, errors included. |
| JsonReader.Parser.ReadToken | npm_modules/cli/debugger/devtools-panel.js:1183-1270 | Skips white space, counts against 2,000 tokens, and reads one word. |
| JsonReader.ParseRuntimeState | npm_modules/cli/debugger/devtools-panel.js:1272-1443 | The loop over tokens with its stack of frames mutated in place returns the definition's value or error. |
| JsonReader.RuntimeReader.AcceptToken | npm_modules/cli/debugger/devtools-panel.js:1379-1436 | The branches on the frame on top mutate the frames to what the machine's step says, or give its error. |
| JsonReader.RuntimeReader.SetValue | npm_modules/cli/debugger/devtools-panel.js:1299-1337 | Fills the open place of the top frame, or gives the error, as the machine does. |
| JsonReaderProofs.LexAllSound | npm_modules/cli/debugger/devtools-panel.js:1183-1270 | The tokens read spell the text, with white space between. |
| JsonReaderProofs.LexAllComplete | npm_modules/cli/debugger/devtools-panel.js:1183-1270 | A text that spells separated tokens is read as those tokens. |
| JsonReaderProofs.ReaderIsTheGrammar | npm_modules/cli/debugger/devtools-panel.js:1272-1443 | A web source parses to a value iff it is within length and token limits and spells that value's tokens, within the container limits. |
| JsonReaderProofs.ReadingUndoesWriting | npm_modules/cli/debugger/devtools-panel.js:1272-1443 | Parsing gives back every value within the limits however its text is written: any white space, and every unit of every string as itself, by a short escape or by four digits in either case, as chosen unit by unit. |
| JsonReaderProofs.OtherSourcesAreRefused | npm_modules/cli/debugger/devtools-panel.js:1272-1292 | Which error an empty or overlong text, an unknown source and a native one give. |
| JsonErrors.AnythingBehindAValueIsTrailing | npm_modules/cli/debugger/devtools-panel.js:1370-1373 | Any token behind a complete value is trailing data. |
| JsonErrors.UnclosedContainersAreUnterminated | npm_modules/cli/debugger/devtools-panel.js:1365-1369 | The end of the text inside a container, behind any of its entries. |
| JsonErrors.PairsAreRefused | npm_modules/cli/debugger/devtools-panel.js:1299-1337 | Behind any pairs of an object: the hundred and first is over the limit, a repeated key a duplicate, a token that starts no value an invalid value. |
| JsonErrors.ObjectsNeedKeys | npm_modules/cli/debugger/devtools-panel.js:1377-1391 | Behind a comma in an object: what is no key, and a key of more than 1,024 units. |
| JsonErrors.KeysNeedColons | npm_modules/cli/debugger/devtools-panel.js:1392-1398 | Behind a key: what is no colon. |
| JsonErrors.EntriesNeedSeparators | npm_modules/cli/debugger/devtools-panel.js:1403-1434 | Behind an entry: what is neither a comma nor the end of its container. |
| JsonErrors.ArraysNeedValues | npm_modules/cli/debugger/devtools-panel.js:1422-1425 | Behind a comma in an array: what starts no value. |
| JsonErrors.FullArraysAreOverTheLimit | npm_modules/cli/debugger/devtools-panel.js:1306-1318 | The hundred and first element. |
| JsonErrors.ThirteenthContainerIsTooDeep | npm_modules/cli/debugger/devtools-panel.js:1339-1344 | A container inside twelve others. |
| JsonErrors.StringsAreRefused | npm_modules/cli/debugger/devtools-panel.js:1197-1231 | Behind any spelled units of a string: the end of the text, a control character, and a backslash that begins no escape. |
| SnapshotProofs.SnapshotBelongsToTarget | npm_modules/cli/debugger/devtools-panel.js:617-681 | In every reachable state what is shown was fetched under the current target generation, and, as long as no page connects, for the selected target. |
| SnapshotProofs.SnapshotIsTheTargetsIff | npm_modules/cli/debugger/devtools-panel.js:877-926 | Over all runs of a panel that follows inspected pages: the snapshot on screen is always the target's own iff no page that may connect shares its key, but not its id, with one whose snapshots can be shown. |
| SnapshotProofs.SharedKeyMislabels | npm_modules/cli/debugger/devtools-panel.js:877-926 | Any two such pages give a run of five steps after which the snapshot shown is of another target. |
| SnapshotProofs.KeyDeterminesId | npm_modules/cli/debugger/devtools-panel.js:883-886 | If all session ids, or all ids, are free of colons, equal keys mean equal ids and sessions. |
| SnapshotProofs.PagesWithPlainSessionsAreSafe | npm_modules/cli/src/debugger/server.ts:1465-1472 | With the server's own page, and with any pages whose sessions have no colon, the snapshot is always the target's. |
| SnapshotProofs.PendingIffRecorded | npm_modules/cli/debugger/devtools-panel.js:956-1059 | A refresh is pending iff a completion is recorded, and never with no request in flight. |
| SnapshotProofs.OthersNeverClearIt | npm_modules/cli/debugger/devtools-panel.js:1052-1058 | Over any run, the recorded request stays recorded until it is answered itself or the target changes. |
| SnapshotProofs.SnapshotsNeverGoBack | npm_modules/cli/debugger/devtools-panel.js:956-1059 | A later state never shows a snapshot that was requested earlier. |
| SnapshotProofs.EditsOutdateRequests | npm_modules/cli/debugger/devtools-panel.js:1944-2020 | After a property edit is submitted no snapshot requested before it is put up. |
| SnapshotProofs.NextKeepsInv | npm_modules/cli/debugger/devtools-panel.js:617-1059 | Every step keeps the invariant: distinct request numbers, pending as recorded, what is shown current, at most one registry request. |
| SnapshotLiveness.AnswerIsShownIff | npm_modules/cli/debugger/devtools-panel.js:994-1058 | A usable answer is put up iff target, generation and number are still those of its request and the user is not editing anything else; otherwise the screen stays; the recorded request ends the wait. |
| SnapshotLiveness.RefreshSendsIff | npm_modules/cli/debugger/devtools-panel.js:956-993 | A refresh sends a request for the target as it is iff it may and none is pending. |
| SnapshotLiveness.RefreshShowsTheTarget | npm_modules/cli/debugger/devtools-panel.js:956-1058 | From any such state asking and answering puts up the target's snapshot. |
| SnapshotLiveness.PendingRefreshEnds | npm_modules/cli/debugger/devtools-panel.js:1052-1058 | In every reachable state with a refresh pending some answer ends it. |
| SnapshotLiveness.FinishedEditFreesTheRefresh | npm_modules/cli/debugger/devtools-panel.js:1979-2020 | Finishing the edit under way leaves nothing that holds a refresh back; finishing another changes nothing. |
| SnapshotLiveness.EditShowsItsResult | npm_modules/cli/debugger/devtools-panel.js:1944-2020 | An edit submitted where no refresh is pending asks for its own and puts it up. |
| SnapshotLiveness.EditWaitsForTheRefreshInFlight | npm_modules/cli/debugger/devtools-panel.js:956-1058 | Submitted while one is in flight, from any reachable state, it waits for that one's answer, whatever it is, then asks and puts its own up. |
| SnapshotLiveness.SelectionIsMadeIff | npm_modules/cli/debugger/devtools-panel.js:635-681 | When a selection is made, and that it then leaves nothing of the old target and asks for a snapshot. |
| SnapshotLiveness.FirstRegistryAnswerSelects | npm_modules/cli/debugger/devtools-panel.js:813-825 | The registry's first answer selects the target asked for if it is listed and selectable, and else nothing. |
| SnapshotLiveness.LaterRegistryAnswersFollow | npm_modules/cli/debugger/devtools-panel.js:826-858 | A later one gives the target up if it is gone or not selectable, presents it afresh if its capabilities changed, and else leaves the screen. |
| SnapshotLiveness.UnusableRegistryAnswersAreIgnored | npm_modules/cli/debugger/devtools-panel.js:805-868 | An outdated or failed answer of the registry changes neither target nor screen. |
| SnapshotLiveness.LatestConnectionSelects | npm_modules/cli/debugger/devtools-panel.js:877-926 | The latest connection selects its page, and the screen stays iff the key does. |
| DevtoolsPanel.PanelState.Clear | npm_modules/cli/debugger/devtools-panel.js:617-633 | Makes the state valid with nothing on screen and nothing pending, and no request in flight is current any more. |
| DevtoolsPanel.PanelState.ApplySelection | npm_modules/cli/debugger/devtools-panel.js:635-681 | A selection that is applied was made already, or empties the screen, takes the target and outdates all requests; it says which, and one refused changes nothing. |
| DevtoolsPanel.PanelState.RefreshSnapshotInternal | npm_modules/cli/debugger/devtools-panel.js:956-993 | If a refresh is allowed one is pending afterwards and its request in flight; a new one is the only current one; screen and requests stay; an edit waits only for a request in flight. |
| DevtoolsPanel.PanelState.ResumeRefresh | npm_modules/cli/debugger/devtools-panel.js:976-993 | The same after the wait, whoever was faster. |
| DevtoolsPanel.PanelState.ReceiveSnapshot | npm_modules/cli/debugger/devtools-panel.js:994-1058 | Only a current answer gets on screen, under the current generation and never an older one than is there; another recorded request stays recorded. |
| DevtoolsPanel.PanelState.FindTarget | npm_modules/cli/debugger/devtools-panel.js:826-828 | The search finds the first target with the id. |
| DevtoolsPanel.PanelState.ReceiveRegistry | npm_modules/cli/debugger/devtools-panel.js:799-875 | The target is afterwards the one before, one that the registry lists, or none; what is shown stays true to it; no request to the registry is left. |
| DevtoolsPanel.PanelState.ReceiveConnection | npm_modules/cli/debugger/devtools-panel.js:877-926 | Only the latest connection counts; the snapshot stays iff the page kept its key, else it goes and no earlier request is current. |
| DevtoolsPanel.PanelState.SubmitPropertyEdit | npm_modules/cli/debugger/devtools-panel.js:1944-1978 | An accepted edit owns the next refresh and outdates every request in flight; the screen stays. |
| InputQueueProofs.SentInOrderOneAtATime | npm_modules/cli/debugger/debugger-model.js:492-524 | In every reachable state inputs were sent in reservation order, each once; while one is in flight all before it are done; only released ones are sent. |
| InputQueueProofs.CancelledIsNeverSent | npm_modules/cli/debugger/debugger-model.js:492-524 | A reservation cancelled before its turn is never sent, whatever happens later. |
| InputQueueProofs.NewIncarnationSilencesOldInputs | npm_modules/cli/debugger/debugger-preview-html.js:33-62 | No text or scroll input accepted before a new incarnation is sent after it, unless its turn had come. |
| InputQueueProofs.UnreleasedHasOneEntryAndTimer | npm_modules/cli/debugger/debugger-preview-html.js:521-597 | Every unreleased reservation belongs to exactly one pending entry, whose own timer is armed. |
| InputQueueProofs.QueueDrains | npm_modules/cli/debugger/debugger-preview-html.js:433-597 | Without new input at most a fixed number of timers, links and answers can still happen, and only a drained queue has none left. |
| InputQueueProofs.NotStuck | npm_modules/cli/debugger/debugger-preview-html.js:433-597 | While anything is left some timer, link or request can take its step. |
| InputQueueProofs.ScrollingIsConserved | npm_modules/cli/debugger/debugger-preview-html.js:521-571 | All wheel deltas ever accepted equal those released for dispatch plus pending plus discarded; released and pending inputs carry exactly what was accepted for them. |
| InputQueueProofs.LatestTextIsSent | npm_modules/cli/debugger/debugger-preview-html.js:574-597 | Text that is released, and text that is pending, is what was typed last. |
| InputQueueDelivery.SentIffReleasedInTime | npm_modules/cli/debugger/debugger-model.js:492-524 | In every reachable state an input whose turn has come was sent iff it was released and not cancelled before its turn; in a drained one that is all of them. |
| InputQueueDelivery.DirectInputsAreSent | npm_modules/cli/debugger/debugger-model.js:526-528 | The direct inputs are reserved in the order of their events, and a drained queue has sent all of them. |
| InputQueueDelivery.SteadyRunsSendEverything | npm_modules/cli/debugger/debugger-preview-html.js:433-597 | As long as the preview and its elements stay, a drained queue has sent every reservation, and all that was scrolled. |
| InputQueueProofs.NextKeepsInv | npm_modules/cli/debugger/debugger-preview-html.js:33-62 | Every step keeps the invariant of chain, entries, timers and reservations. |
| InputQueueProofs.ReachableIsSane | npm_modules/cli/debugger/debugger-preview-html.js:433-469 | No handler is ever handed an entry or timer of a reservation that does not exist. |
| PreviewInputs.HtmlPreview.ReserveDebuggerInput | npm_modules/cli/debugger/debugger-model.js:492-507 | The new reservation is behind all others, its link cannot run before it is released, and no other link is affected. |
| PreviewInputs.HtmlPreview.Dispatch | npm_modules/cli/debugger/debugger-model.js:509-515 | Only the first release counts, no other reservation changes, and only its turn keeps the link from running. |
| PreviewInputs.HtmlPreview.Cancel | npm_modules/cli/debugger/debugger-model.js:516-523 | A reservation whose link has not run will never be sent, and does not hold up the links behind it. |
| PreviewInputs.HtmlPreview.DispatchHtmlPreviewTextInput | npm_modules/cli/debugger/debugger-preview-html.js:574-597 | The text waits under its key with its own armed timer; typing on keeps the place in the queue and disarms the earlier timer; the invariant holds. |
| PreviewInputs.HtmlPreview.DispatchHtmlPreviewScrollInput | npm_modules/cli/debugger/debugger-preview-html.js:521-571 | The delta is added to what waits under the key, behind an armed timer, and to the total accepted; the invariant holds. |
| PreviewInputs.HtmlPreview.FlushHtmlPreviewTextInput | npm_modules/cli/debugger/debugger-preview-html.js:433-469 | What was typed last is released and tracked, or never sent if its element is gone; neither entry nor timer is left. |
| PreviewInputs.HtmlPreview.FireScrollTimer | npm_modules/cli/debugger/debugger-preview-html.js:558-569 | A scroll timer that fires is never stale, and releases all that was scrolled for its reservation. |
| PreviewInputs.HtmlPreview.CancelQueuedHtmlPreviewInputs | npm_modules/cli/debugger/debugger-preview-html.js:48-53 | The loop cancels every tracked reservation and no other. |
| PreviewInputs.HtmlPreview.BeginHtmlPreviewIncarnation | npm_modules/cli/debugger/debugger-preview-html.js:33-62 | The three loops together cancel all held and tracked reservations and leave no timer; no text or scroll input whose link has not run will be sent. |
| PreviewInputs.HtmlPreview.RunDispatch | npm_modules/cli/debugger/debugger-model.js:498-504 | When it is a released reservation's turn, its input is sent, after all sent before and with all links before it done, iff it was released with one and is not cancelled; the invariant holds. |
| Geometry.ComputeGeometry | npm_modules/cli/debugger/debugger-model.js:273-350 | The two passes place, for every id, the first node that has it and a box, at its recursively defined box, and pick the viewport. |
| Geometry.PlaceForward | npm_modules/cli/debugger/debugger-model.js:281-319 | The forward pass computes every origin and own box, and the child lists. |
| Geometry.PlaceBackward | npm_modules/cli/debugger/debugger-model.js:320-334 | The backward pass computes every absolute box. |
| Geometry.UnionEncloses | npm_modules/cli/debugger/debugger-model.js:247-256 | The union contains every box. |
| Geometry.UnionIsLeast | npm_modules/cli/debugger/debugger-model.js:247-256 | Any box around all contains the union. |
| Geometry.WalksAreScenes | npm_modules/cli/debugger/debugger-model.js:281-319 | What the walk of any node graph records has parents before children. |
| GeometryProofs.ComponentEnclosesChild | npm_modules/cli/debugger/debugger-model.js:320-334 | The box of a component, or of a node without one, encloses those of its children. |
| GeometryProofs.ComponentFitsTightly | npm_modules/cli/debugger/debugger-model.js:320-334 | And is the least that does. |
| GeometryProofs.EverythingMoves | npm_modules/cli/debugger/debugger-model.js:281-334 | Moving the root's frame moves every absolute box by the same vector. |
| GeometryProofs.ElementStandsInTheOneAbove | npm_modules/cli/debugger/debugger-model.js:295-310 | An element stands in the nearest element above it at its own frame and translation less what that one is scrolled, without one above on the screen, and is as large as its frame. |
| GeometryProofs.TranslatingAndScrollingMove | npm_modules/cli/debugger/debugger-model.js:295-314 | Translating a node moves its element and all below by as much; scrolling it moves all below back by as much, and not itself; nothing else moves. |
| GeometryProofs.FoundUnderItsId | npm_modules/cli/debugger/debugger-model.js:320-334 | Where ids are distinct every node's box is found under its own. |
| GeometryProofs.ViewportIsFirstVisible | npm_modules/cli/debugger/debugger-model.js:258-271 | The viewport is the box of the first node whose frame has an area. |
| GeometryProofs.ViewportWithoutVisible | npm_modules/cli/debugger/debugger-model.js:336-350 | Without one it is the root's box, or 390 by 760. |
| SnapshotImages.PixelDiff | apps/snapshot_tests/src/PixelDiff.ts:10-57 | Counts the pixels beyond the tolerance, finds the greatest difference and the percentage; different sizes mismatch everywhere. |
| SnapshotImages.CountMismatches | apps/snapshot_tests/src/PixelDiff.ts:31-50 | The nested loops compute the count and the maximum. |
| SnapshotImages.NoMismatchIffWithinTolerance | apps/snapshot_tests/src/PixelDiff.ts:31-50 | The count is zero iff no pixel is off by more than the tolerance. |
| SnapshotImages.DifferenceIsGreatest | apps/snapshot_tests/src/PixelDiff.ts:31-50 | The difference of two pixels bounds that of each of the four channels, and one attains it. |
| SnapshotImages.MismatchIff | apps/snapshot_tests/src/PixelDiff.ts:31-50 | A pixel is a mismatch iff some channel is off by more than the tolerance. |
| SnapshotImages.MismatchesAreCounted | apps/snapshot_tests/src/PixelDiff.ts:31-50 | The count is the number of pixels that are mismatches, each counted once. |
| SnapshotImages.GenerateDiffImage | apps/snapshot_tests/src/DiffImage.ts:4-87 | All reads and writes are in bounds, and the three panels are the baseline, the other bitmap and the overlay. |
| SnapshotImages.PictureBytes | apps/snapshot_tests/src/DiffImage.ts:31-81 | The bytes of the picture, row by row: the baseline's, the other bitmap's, then magenta where some channel is off by more than the tolerance and gray elsewhere. |
| SnapshotImages.GrayIsNearest | apps/snapshot_tests/src/DiffImage.ts:74 | Gray is the integer nearest to a quarter of the luminance, the greater of two. |
| SnapshotImages.SlotsDiffer | apps/snapshot_tests/src/DiffImage.ts:31-81 | No two panel pixels share a place in the buffer. |
| SnapshotImages.PictureAgreesWithCounter | apps/snapshot_tests/src/DiffImage.ts:31-81 | The panels fill the buffer, and the right one has as many magenta pixels as the counter finds mismatches. |

## Left out

- VersionSafety.ValidatedProgramsAreSafe: nested functions become callable where their definition is reached; function declarations hoisted above an earlier guard, and versioned functions handed on as untyped values, are not modelled. Uses carry their required version: symbols, types, annotations and native modules are not part of this model.
- VersionModules.ModuleIsSafeIff: for modules of functions whose default values hold no function of their own; a function that such a value defines is covered by CallIsSafeIff, which counts leaving an unsafe function behind as harm. What is inside function bodies is judged by visiting it, which is sound but, outside the guards of ExactGuards, not exact.
- VersionPrecision.UseReportedIffReachable: for the guards of ExactGuards, and one use in a nest at a time. Behind other conditions the analysis is sound, but what it reports need not be able to happen.
- VersionGuards: `switch`, labels, `finally`, `for`/`do` loops and class expressions.
- JsxIdentifiers.CompilationPreservesTheTree: for pairwise distinct explicit attribute names (TypeScript rejects others); identifiers of the host program that happen to look like generated ones are not considered.
- Jsx: JSX inside attribute values, `key`, `context` and spreads; a `context` that is neither an identifier nor what the compiler counts as an expression; the `$slot` and `$namedSlots` intrinsics; order of evaluation of attribute expressions; the choice among the renderer's set-attribute calls; source ranges, and statements of the host program around the JSX. What kind of node a tag is comes with the node. A slot's content is represented by what its function renders.
- ConsoleGuard: loops, classes, assignment and a local variable named `console`; host functions answer nothing or a number.
- TreeWalk: the visitor is represented by the visits it gets and by a predicate that stops the walk; a visitor that changes the tree is not modelled.
- TreeWalkCompleteness.WalkIsCompleteIff: for child lists of up to 25,000 elements; in a longer one it also matters where the empty elements are.
- FlatTree.ProjectTree: a node's own projected data is an opaque value; the value count it shares with other nodes is left out.
- ProjectionCompleteness.CompleteIffWithinLimits: where a simple path has more than 64 objects, the order in which objects are met decides whether the depth limit cuts one off; then only one direction holds (CompleteProjectionsAreWithinLimits).
- Projection: calls that start from a state already in use; the spelling of paths as strings; user keys that look like `$ref` or `$truncated`; proxies that throw count as objects that cannot be inspected.
- JsonReader.ParseRuntimeState: a container is attached to its parent when it is closed rather than when it is opened, so aliasing of unfinished containers is not captured; conversion of a number's spelling to a double is a parameter that says whether it is finite; error messages are tags.
- SnapshotProtocol: a property edit's request, its own staleness check and its choice to refresh are over-approximated by events that may happen at any time; exceptions thrown while rendering, highlights, consoles, performance panels and the selected node are left out. The registry's targets carry only what selecting and comparing them looks at.
- InputQueue: keys stand for target and element; the element's own staleness is a parameter; positions, focus inputs, reconciliation of the text field with the server's answer, and the map of dispatches by key are left out. A failing request settles like any other.
- Geometry: numbers are exact; parsing of numbers from text, and the recursion of `decorateNode` that fills in missing bounds, are left out.
- SnapshotImages: luminance is rounded from its exact value; encoding to PNG is left out. GenerateDiffImage is for bitmaps of one size, which its caller checks (apps/snapshot_tests/src/CompareSnapshots.ts:60-64).
- HTTP, DOM rendering, storage, trace and profile endpoints, settings panels, the minifier, and build configuration would add plumbing or easy members only.
