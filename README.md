# Quick spec registration, modelled in Dafny

Quick is a behaviour-driven testing framework for Swift. Each test class is a `QuickSpec`. Its `spec()` body registers examples through a small DSL: `describe`, `context`, `it`, `beforeEach`, `itBehavesLike` and the rest. While `spec()` runs, the shared `World` object keeps a cursor, `currentExampleGroup`. Every DSL call acts on the group under that cursor:

- `describe`/`context` push a child group, run their closure inside it, then move the cursor back to the group's parent;
- `it` appends an example;
- the hook functions append to hook lists;
- `itBehavesLike` expands a named shared-example body inside a new group, then re-attributes every example below that group to its own call site.

`QuickSpec` brackets the run. It points the cursor at the class's root group, runs `spec()`, and clears the cursor. `allTests` then lists one named entry per example.

The model is split into these modules:

- `Entities` (entities.dfy) holds the values:
  - filter flags, call sites, hooks, examples and groups;
  - `Cmd`, the declarations a closure body makes;
  - `WorldState`, which stores groups and examples in two arenas addressed by index. The program uses references instead.
- `Tree` (tree.dfy) holds:
  - the well-formedness invariant `WF`: parents are created before their children, and every stored index exists;
  - `ExamplesBelow`, the pre-order listing of the examples under a group (what `walkDownExamples` visits);
  - `Reattribute`, the walk's update.
- `DslSpec` (dsl_spec.dfy) has one function per DSL entry point. Each is a transition of `WorldState`. `Exec` runs a closure body declaration by declaration.
- `WorldDsl` (world.dfy) is the `World` class. Its fields are updated step by step, as the Swift code does. Each method is proved to make exactly the transition its `DslSpec` function describes.
- `DslProperties` (dsl_properties.dfy) holds the properties of the transitions:
  - the frame of a closure body: what a body run in group k may change;
  - one group or example appended per declaration;
  - the listing below a group follows declaration order;
  - flag overrides, hook order, re-attribution and the cursor balance;
  - a larger shared-example expansion bound never changes a completed result.
- `DslCompletion` (dsl_completion.dfy) says when registration completes:
  - a body without shared examples, run with a current group, always completes;
  - a body that stops does so for a shared-example reason, never for a missing current group.
- `QuickSpecModel` (quick_spec.dfy) models `gatherExamples`, `init` and `allTests`.
- `Scenarios` (scenarios.dfy) works three concrete specs through the model:
  - nested describes with hooks;
  - a top-level beforeEach, which lands on the root group;
  - an `itBehavesLike` whose example takes the call site.

## Model

| member | source | states |
|---|---|---|
| Entities.Focus | Sources/Quick/DSL/World+DSL.swift:42-46 | the flags passed on have `focused` set to true; every other key is present iff it was, with the same value |
| Entities.MarkPending | Sources/Quick/DSL/World+DSL.swift:48-52 | the flags passed on have `pending` set to true; every other key is present iff it was, with the same value |
| Tree.ExamplesBelow | Sources/Quick/DSL/World+DSL.swift:110 | the examples walkDownExamples visits below a group (assumed: every example transitively below it, in pre-order over one ordered children list); an example is listed iff one of the group's children is that example or lists it below itself |
| Tree.Reattribute | Sources/Quick/DSL/World+DSL.swift:110-113 | every visited example becomes a shared example at the call site and keeps its description, flags and closure; unvisited examples are unchanged; no example is added or lost |
| Tree.TreeExamplesExist | Sources/Quick/DSL/World+DSL.swift:110 | in a well-formed tree, every example listed below a group exists, so the walk only touches registered examples |
| DslSpec.AppendGroup | Sources/Quick/DSL/World+DSL.swift:31-32 | appendExampleGroup adds exactly one group, with the given description and flags, no children, no hooks and the current group as parent, and ends the current group's children with it; every other group and every other part of the World is unchanged; the tree stays well formed |
| DslSpec.SharedExamples | Sources/Quick/DSL/World+DSL.swift:17-19 | registration succeeds iff the name is new, and then binds the name to the body |
| DslSpec.Describe | Sources/Quick/DSL/World+DSL.swift:21-36 | with no current group the result is the error; otherwise at least one group is added, the tree stays well formed, existing groups keep their parents and the cursor is back where it was |
| DslSpec.Context | Sources/Quick/DSL/World+DSL.swift:38-40 | the same guarantees as describe: the error with no current group, otherwise well formed, parents kept, cursor restored (DescribeVariantsDelegate proves it is describe) |
| DslSpec.FDescribe | Sources/Quick/DSL/World+DSL.swift:42-46 | the same guarantees as describe; FDescribeFocusesGroup states the focused flags of the new group |
| DslSpec.XDescribe | Sources/Quick/DSL/World+DSL.swift:48-52 | the same guarantees as describe; XDescribeMarksGroupPending states the pending flags of the new group |
| DslSpec.It | Sources/Quick/DSL/World+DSL.swift:84-88 | its own contract states only that the tree stays well formed, the cursor stays and parents are kept; ItAppendsOneExample states the append and that nothing else changes |
| DslSpec.FIt | Sources/Quick/DSL/World+DSL.swift:90-94 | its own contract states only well-formedness, the cursor and parents kept; ItVariantsDelegate proves it is it on the focused flags |
| DslSpec.XIt | Sources/Quick/DSL/World+DSL.swift:96-100 | its own contract states only well-formedness, the cursor and parents kept; ItVariantsDelegate proves it is it on the pending flags |
| DslSpec.BeforeEach | Sources/Quick/DSL/World+DSL.swift:54-67 | its own contract states only well-formedness, the cursor and parents kept; EachHooksAppend states the whole new World |
| DslSpec.AfterEach | Sources/Quick/DSL/World+DSL.swift:69-82 | its own contract states only well-formedness, the cursor and parents kept; EachHooksAppend states the whole new World |
| DslSpec.BeforeSuite | Sources/Quick/DSL/World+DSL.swift:9-11 | groups, examples and cursor are unchanged; SuiteHooksAppend states the whole new World |
| DslSpec.AfterSuite | Sources/Quick/DSL/World+DSL.swift:13-15 | groups, examples and cursor are unchanged; SuiteHooksAppend states the whole new World |
| DslSpec.Pending | Sources/Quick/DSL/World+DSL.swift:140-142 | groups, examples and cursor are unchanged; PendingRegistersNothing states the whole new World |
| DslSpec.WalkDownExamples | Sources/Quick/DSL/World+DSL.swift:110-113 | the walk keeps the tree well formed, changes no group, keeps the cursor and the number of examples; Tree.Reattribute states what happens to each example |
| DslSpec.WithRoot | Sources/Quick/QuickSpec.swift:21 | (assumed behaviour of rootExampleGroupForSpecClass) afterwards the class has a root group and the tree is well formed; an existing root is returned with the World unchanged; otherwise one parentless, childless group named after the class is appended and registered as its root |
| DslSpec.ExecCmd | Sources/Quick/DSL/World+DSL.swift:34 | one declaration that completes keeps the tree well formed, the cursor where it was and every existing group's parent |
| DslSpec.ItBehavesLike | Sources/Quick/DSL/World+DSL.swift:102-116 | an unknown name is an error; on success the tree stays well formed, existing groups keep their parents and the cursor is back where it was |
| DslSpec.Exec | Sources/Quick/DSL/World+DSL.swift:33-35 | a closure body that completes leaves the cursor where it found it, keeps the tree well formed and keeps every existing group's parent (the cursor balance that describe's pop relies on) |
| DslProperties.ExecConcat | Sources/Quick/DSL/World+DSL.swift:34 | a body runs declaration by declaration: running `xs + ys` is running `xs`, then `ys` from where `xs` left off, stopping at the first error |
| DslProperties.ExecListing | Sources/Quick/DSL/World+DSL.swift:31-35 | under the assumption that a group keeps examples and subgroups in one ordered children list (ExampleGroup is not part of this model), declaration order is listing order: after a closure body, the examples listed below the group it ran in are the earlier ones followed by every example the body declared, nested describes and shared expansions included, in declaration order |
| DslProperties.ExecFuelMono | Sources/Quick/DSL/World+DSL.swift:102-116 | the shared-example expansion bound only cuts off expansions: a body that completes with some bound completes with the same result under any larger bound |
| DslProperties.ExecFrame | Sources/Quick/DSL/World+DSL.swift:31-35 | whatever a body run in group k declares, only k's children and hooks grow; other groups and existing examples are unchanged; new groups hang below k or below other new groups and hold only new examples; suite hooks and the log only grow |
| DslProperties.DescribeAppendsOneGroup | Sources/Quick/DSL/World+DSL.swift:31-35 | describe appends exactly one group, with the given description and flags and the current group as parent, at the end of the current group's children; the current group's hooks and every other earlier group are unchanged; later groups hang below the new one; the examples listed below the new group are exactly those its body declared, in order, and follow the current group's earlier ones; the cursor is restored |
| DslProperties.FDescribeFocusesGroup | Sources/Quick/DSL/World+DSL.swift:42-46 | fdescribe's group carries the given flags with `focused` set |
| DslProperties.XDescribeMarksGroupPending | Sources/Quick/DSL/World+DSL.swift:48-52 | xdescribe's group carries the given flags with `pending` set |
| DslProperties.DescribeVariantsDelegate | Sources/Quick/DSL/World+DSL.swift:38-52 | context is describe; fdescribe and xdescribe are describe with `focused` or `pending` set |
| DslProperties.ItVariantsDelegate | Sources/Quick/DSL/World+DSL.swift:90-100 | fit and xit are it with `focused` or `pending` set |
| DslProperties.ItAppendsOneExample | Sources/Quick/DSL/World+DSL.swift:84-88 | it gives the old World with exactly one unshared example, with its description, flags, closure and `Callsite(file, line)`, appended to the examples and to the end of the current group's children, and nothing else changed |
| DslProperties.EachHooksAppend | Sources/Quick/DSL/World+DSL.swift:54-82 | beforeEach/afterEach, either overload, give the old World with the hook appended to the current group's before or after list and nothing else changed |
| DslProperties.SuiteHooksAppend | Sources/Quick/DSL/World+DSL.swift:9-15 | beforeSuite/afterSuite append to the suite's before or after list and touch no group |
| DslProperties.PendingRegistersNothing | Sources/Quick/DSL/World+DSL.swift:140-142 | pending adds no group or example and does not run its closure; its only effect is one "Pending: " log line |
| DslProperties.ItBehavesLikeIsDescribeThenWalk | Sources/Quick/DSL/World+DSL.swift:102-116 | with a registered name and bound left, itBehavesLike is describe over the registered shared body (one bound level down), then the walk over the new group, then the cursor back at the current group |
| DslProperties.ItBehavesLikeReattributes | Sources/Quick/DSL/World+DSL.swift:102-116 | itBehavesLike appends one group named after the shared example, with the given flags, at the end of the current group's children; the current group's hooks and every other earlier group are unchanged; later groups hang below the new one; the examples listed below it are exactly those the shared body declared, nested expansions included, and each is shared and has the call site; earlier examples are unchanged; the cursor is restored |
| WorldDsl.World.RootExampleGroupForSpecClass | Sources/Quick/QuickSpec.swift:21 | the World's fields become `DslSpec.WithRoot` of the old state; the returned index is the class's root group |
| WorldDsl.World.BeforeSuite | Sources/Quick/DSL/World+DSL.swift:9-11 | the fields become `DslSpec.BeforeSuite` of the old state |
| WorldDsl.World.AfterSuite | Sources/Quick/DSL/World+DSL.swift:13-15 | the fields become `DslSpec.AfterSuite` of the old state |
| WorldDsl.World.SharedExamples | Sources/Quick/DSL/World+DSL.swift:17-19 | outcome and fields agree with `DslSpec.SharedExamples` |
| WorldDsl.World.AppendExampleGroup | Sources/Quick/DSL/World+DSL.swift:32 | the fields become `DslSpec.AppendGroup` of the old state; the new group's index is returned |
| WorldDsl.World.Describe | Sources/Quick/DSL/World+DSL.swift:21-36 | with no current group it fails and changes nothing; otherwise outcome and fields agree with `DslSpec.Describe` |
| WorldDsl.World.Context | Sources/Quick/DSL/World+DSL.swift:38-40 | outcome and fields agree with `DslSpec.Context` |
| WorldDsl.World.FDescribe | Sources/Quick/DSL/World+DSL.swift:42-46 | outcome and fields agree with `DslSpec.FDescribe` |
| WorldDsl.World.XDescribe | Sources/Quick/DSL/World+DSL.swift:48-52 | outcome and fields agree with `DslSpec.XDescribe` |
| WorldDsl.World.BeforeEach | Sources/Quick/DSL/World+DSL.swift:54-67 | the fields become `DslSpec.BeforeEach` of the old state |
| WorldDsl.World.AfterEach | Sources/Quick/DSL/World+DSL.swift:69-82 | the fields become `DslSpec.AfterEach` of the old state |
| WorldDsl.World.It | Sources/Quick/DSL/World+DSL.swift:84-88 | the fields become `DslSpec.It` of the old state |
| WorldDsl.World.FIt | Sources/Quick/DSL/World+DSL.swift:90-94 | the fields become `DslSpec.FIt` of the old state |
| WorldDsl.World.XIt | Sources/Quick/DSL/World+DSL.swift:96-100 | the fields become `DslSpec.XIt` of the old state |
| WorldDsl.World.WalkDownExamples | Sources/Quick/DSL/World+DSL.swift:110-113 | the loop over the examples below the current group leaves the fields at `DslSpec.WalkDownExamples` of the old state |
| WorldDsl.World.ItBehavesLike | Sources/Quick/DSL/World+DSL.swift:102-116 | outcome and fields agree with `DslSpec.ItBehavesLike` |
| WorldDsl.World.Pending | Sources/Quick/DSL/World+DSL.swift:140-142 | the fields become `DslSpec.Pending` of the old state |
| WorldDsl.World.Run | Sources/Quick/DSL/World+DSL.swift:34 | running a closure body agrees with `DslSpec.Exec` |
| WorldDsl.World.RunOne | Sources/Quick/DSL/World+DSL.swift:34 | running one declaration agrees with `DslSpec.ExecCmd` |
| DslCompletion.ExecCompletes | Sources/Quick/DSL/World+DSL.swift:21-36 | a closure body with no sharedExamples or itBehavesLike at any nesting, run with a current group, completes under any expansion bound: a nested describe always finds the current group its parent pushed |
| DslCompletion.DescribeCompletes | Sources/Quick/DSL/World+DSL.swift:21-36 | with a current group, a describe whose body uses no shared examples completes |
| DslCompletion.ExecErrorIsShared | Sources/Quick/DSL/World+DSL.swift:21-36 | a closure body run with a current group that stops, stops with an unknown or duplicate shared example or an exhausted expansion bound, never with the missing-current-group error |
| DslCompletion.ItBehavesLikeErrorIsShared | Sources/Quick/DSL/World+DSL.swift:102-116 | an itBehavesLike that stops, stops for a shared-example reason: the name is unknown, the bound ran out, or its expansion stopped for such a reason |
| QuickSpecModel.GatherCompletes | Sources/Quick/QuickSpec.swift:19-24 | gatherExamples stops only for a shared-example reason, and a spec() without shared examples always registers |
| QuickSpecModel.Gather | Sources/Quick/QuickSpec.swift:19-24 | registration that completes leaves a well-formed World with no current group |
| QuickSpecModel.GatherBracketsSpec | Sources/Quick/QuickSpec.swift:21-23 | spec() starts with the cursor at the class's root group and ends with it there, just before the reset; the root keeps its description, flags and parent and only gains children and hooks (a top-level beforeEach is a root hook); other groups are unchanged; every new group hangs below the root or another new group; the examples spec() declares are listed below the root after its earlier ones, in declaration order |
| QuickSpecModel.GatherFuelMono | Sources/Quick/QuickSpec.swift:19-24 | a registration that completes under some expansion bound completes with the same World under any larger bound |
| QuickSpecModel.RootGroupIsMemoized | Sources/Quick/QuickSpec.swift:21 | asking for a class's root group twice gives the same group; a new root group has no parent |
| QuickSpecModel.QuickSpec.constructor | Sources/Quick/QuickSpec.swift:8-10 | constructing a spec runs gatherExamples exactly once, leaving the World in the state `Gather` describes |
| QuickSpecModel.QuickSpec.GatherExamples | Sources/Quick/QuickSpec.swift:19-24 | outcome and World fields agree with `Gather` |
| QuickSpecModel.AllTests | Sources/Quick/QuickSpec.swift:12-17 | one entry per example, in order, each named by the example's name and running that example |
| Scenarios.NestedDescribes | Sources/Quick/QuickSpec.swift:19-24 | a concrete spec with two nested describes, a hook and an example in each, yields A under the root and B under A, each with its own hook; t1 is listed before t2 below the root; no group is current afterwards |
| Scenarios.TopLevelHookOnRoot | Sources/Quick/QuickSpec.swift:21-22 | a beforeEach at the top of spec() becomes a hook of the class's root group |
| Scenarios.SharedExampleTakesCallSite | Sources/Quick/DSL/World+DSL.swift:102-116 | an example declared in a shared body at Shared.swift:4 ends up shared and attributed to the itBehavesLike call site; an unknown name and an exhausted expansion bound are errors |

## Left out

- Platform branches: the `fatalError`/`NSException` split for describe with no current group is one error outcome, `NoCurrentGroup`. The `@objc` forwarding wrappers (World+DSL.swift:118-138) only forward, so they are not modelled separately.
- The state after a failed registration is not modelled. On an error the methods report `Failed` and the functions return `Err`; in the program the error ends the process or raises an exception.
- `print` in pending is modelled as a line appended to `log`.
- User closures are opaque. A declaration body is `Cmd` data. Hook and example bodies are `ClosureId` tokens and never run.
- The `sharedExampleContext` argument of itBehavesLike is not modelled, because it only feeds the user closure.
- Flattening and filtering the tree, running hooks and examples, and `World.examples` are not part of this model. `AllTests` takes the class's example list and the example-name function as parameters.
- `registerSharedExample` and `sharedExample` are not part of this model. Their policies are assumptions here:
  - registering a name twice gives `DuplicateSharedExample`;
  - looking up an unknown name gives `UndefinedSharedExample`.
- DslSpec.ItBehavesLike: the expansion of a shared body is bounded by a `fuel` parameter, with `ExpansionTooDeep` once it runs out. The program has no such bound; a shared example that expands itself recurses until the stack overflows. `ExecFuelMono` and `GatherFuelMono` show that a larger bound never changes a completed result, so the bound only cuts off expansions nested deeper than it.
- `rootExampleGroupForSpecClass` is not part of this model. It is assumed to create the root group once per class, without parent, named after the class, with no flags, and to return it afterwards.
- `ExampleGroup.appendExampleGroup`, `appendExample` and `walkDownExamples` are not part of this model. The assumptions are:
  - appending sets the child's parent to the group it is appended to;
  - children are kept in one ordered list;
  - the walk visits every example below a group, in pre-order.
- The keys behind `Filter.focused` and `Filter.pending` are assumed to be "focused" and "pending".
- With no current group, `it`, `beforeEach`, `afterEach` and `itBehavesLike` crash on an implicit unwrap. Their precondition is therefore a current group.
- `line` is a `UInt` in the program and a `nat` here. Nothing in the core does arithmetic on it.
- Groups and examples are shared references in the program. They are arena entries addressed by index here, so aliasing is expressed through indices.
- WorldDsl.World.constructor: the World's initializer is not part of this model; a new World is assumed to hold no groups, examples, hooks, shared examples or root groups, and no current group.
- XCTest integration (the `XCTestCaseProvider` conformance) and the lazy `World.sharedWorld` singleton are not modelled. A `QuickSpec` is given its World. In the program, `itBehavesLike` looks the shared example up in `World.sharedWorld` (World+DSL.swift:104), whichever World it is called on; the model reads the registry of the World it changes, so the two agree only when that World is the shared one.
- Sources/Quick/Base.swift holds only a platform type alias and is not modelled.
