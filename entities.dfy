/**
 * The values the registration phase works on: filter flags, call sites,
 * hooks, examples, example groups, the declaration bodies that specs pass
 * to the DSL, and the state of the World while a spec registers.
 *
 * ExampleGroup and Example are reference objects in the program; here they
 * live in two arenas inside `WorldState` and refer to each other by index.
 */
module Entities {

  datatype Option<T> = None | Some(value: T)

  /** Why registration stopped. */
  datatype Error =
    | NoCurrentGroup                  // describe/context used outside QuickSpec.spec()
    | UndefinedSharedExample(name: string)
    | DuplicateSharedExample(name: string)
    | ExpansionTooDeep(name: string)  // the shared-example expansion bound ran out

  datatype Result<T> = Ok(value: T) | Err(error: Error) {
    predicate IsFailure() { Err? }
    function PropagateFailure<U>(): Result<U> requires Err? { Err(error) }
    function Extract(): T requires Ok? { value }
  }

  /** What a World method reports back to its caller. */
  datatype Outcome = Done | Failed(error: Error)

  /** FilterFlags: a dictionary from filter names to booleans. */
  type Flags = map<string, bool>

  /** The keys behind Filter.focused and Filter.pending. */
  const FocusedKey: string := "focused"
  const PendingKey: string := "pending"

  /** The copy of `flags` that fdescribe and fit pass on. */
  function Focus(flags: Flags): (r: Flags)
    ensures FocusedKey in r && r[FocusedKey]
    ensures forall k :: k != FocusedKey ==> (k in r <==> k in flags)
    ensures forall k :: k != FocusedKey && k in flags ==> r[k] == flags[k]
  {
    flags[FocusedKey := true]
  }

  /** The copy of `flags` that xdescribe and xit pass on. */
  function MarkPending(flags: Flags): (r: Flags)
    ensures PendingKey in r && r[PendingKey]
    ensures forall k :: k != PendingKey ==> (k in r <==> k in flags)
    ensures forall k :: k != PendingKey && k in flags ==> r[k] == flags[k]
  {
    flags[PendingKey := true]
  }

  datatype Callsite = Callsite(file: string, line: nat)

  /** An opaque user closure (hook body, example body). */
  type ClosureId = nat

  /** The two hook shapes: without and with example metadata. */
  datatype Hook = Plain(closure: ClosureId) | WithMetadata(closure: ClosureId)

  /** An ExampleHooks or SuiteHooks list pair, in call order. */
  datatype Hooks = Hooks(befores: seq<Hook>, afters: seq<Hook>)

  const NoHooks: Hooks := Hooks([], [])

  datatype Example = Example(
    description: string,
    callsite: Callsite,
    flags: Flags,
    closure: ClosureId,
    isSharedExample: bool)

  /** One entry of a group's ordered children. */
  datatype Child = ExampleChild(example: nat) | GroupChild(group: nat)

  datatype Group = Group(
    description: string,
    flags: Flags,
    parent: Option<nat>,
    children: seq<Child>,
    hooks: Hooks)

  /**
   * A declaration made inside a spec() body or a describe closure: one
   * constructor per DSL entry point. Bodies are the closures' contents;
   * `Pending` keeps its body only to show that it is never run.
   */
  datatype Cmd =
    | Describe(description: string, flags: Flags, body: seq<Cmd>)
    | Context(description: string, flags: Flags, body: seq<Cmd>)
    | FDescribe(description: string, flags: Flags, body: seq<Cmd>)
    | XDescribe(description: string, flags: Flags, body: seq<Cmd>)
    | BeforeEach(hook: Hook)
    | AfterEach(hook: Hook)
    | BeforeSuite(closure: ClosureId)
    | AfterSuite(closure: ClosureId)
    | It(description: string, flags: Flags, file: string, line: nat, closure: ClosureId)
    | FIt(description: string, flags: Flags, file: string, line: nat, closure: ClosureId)
    | XIt(description: string, flags: Flags, file: string, line: nat, closure: ClosureId)
    | ItBehavesLike(name: string, flags: Flags, file: string, line: nat)
    | Pending(description: string, body: seq<Cmd>)
    | SharedExamples(name: string, body: seq<Cmd>)

  /** The part of World that registration reads and writes. */
  datatype WorldState = WorldState(
    groups: seq<Group>,
    examples: seq<Example>,
    current: Option<nat>,              // currentExampleGroup
    suiteHooks: Hooks,
    sharedExamples: map<string, seq<Cmd>>,
    log: seq<string>,                  // what pending() prints
    roots: map<string, nat>)           // root example group per spec class

  /** Size of a declaration, counting nested describe bodies (not shared ones). */
  function CmdSize(c: Cmd): nat
  {
    match c
    case Describe(_, _, body) => 1 + CmdsSize(body)
    case Context(_, _, body) => 1 + CmdsSize(body)
    case FDescribe(_, _, body) => 1 + CmdsSize(body)
    case XDescribe(_, _, body) => 1 + CmdsSize(body)
    case _ => 1
  }

  function CmdsSize(cs: seq<Cmd>): nat
  {
    if cs == [] then 0 else CmdSize(cs[0]) + CmdsSize(cs[1..])
  }
}
