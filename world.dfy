/**
 * The World object and the DSL methods of World+DSL.swift. Each method
 * changes the fields step by step as the program does, and its contract
 * says that the new state is the one the matching DslSpec function gives
 * (or that it fails with the same error).
 */
module WorldDsl {
  import opened Entities
  import opened Tree
  import DslSpec

  /** A method's outcome and new state agree with the specification's result. */
  predicate Reflects(r: Result<WorldState>, outcome: Outcome, t: WorldState)
  {
    match r
    case Ok(v) => outcome == Done && t == v
    case Err(e) => outcome == Failed(e)
  }

  class World {
    var groups: seq<Group>
    var examples: seq<Example>
    var currentExampleGroup: Option<nat>
    var suiteHooks: Hooks
    var sharedExamples: map<string, seq<Cmd>>
    var log: seq<string>
    var roots: map<string, nat>

    function State(): WorldState
      reads this
    {
      WorldState(groups, examples, currentExampleGroup, suiteHooks, sharedExamples, log, roots)
    }

    predicate Valid()
      reads this
    {
      WF(State())
    }

    constructor ()
      ensures Valid()
      ensures State() == WorldState([], [], None, NoHooks, map[], [], map[])
    {
      groups, examples, currentExampleGroup := [], [], None;
      suiteHooks, sharedExamples, log, roots := NoHooks, map[], [], map[];
    }

    /** The spec class's root example group, created on first request. */
    method RootExampleGroupForSpecClass(specClass: string) returns (root: nat)
      requires Valid()
      modifies this
      ensures State() == DslSpec.WithRoot(old(State()), specClass)
      ensures root == roots[specClass] && root < |groups|
    {
      if specClass !in roots {
        roots := roots[specClass := |groups|];
        groups := groups + [Group(specClass, map[], None, [], NoHooks)];
      }
      root := roots[specClass];
    }

    method BeforeSuite(closure: ClosureId)
      modifies this
      ensures State() == DslSpec.BeforeSuite(old(State()), closure)
    {
      suiteHooks := suiteHooks.(befores := suiteHooks.befores + [Plain(closure)]);
    }

    method AfterSuite(closure: ClosureId)
      modifies this
      ensures State() == DslSpec.AfterSuite(old(State()), closure)
    {
      suiteHooks := suiteHooks.(afters := suiteHooks.afters + [Plain(closure)]);
    }

    method SharedExamples(name: string, body: seq<Cmd>) returns (outcome: Outcome)
      modifies this
      ensures Reflects(DslSpec.SharedExamples(old(State()), name, body), outcome, State())
    {
      if name in sharedExamples {
        return Failed(DuplicateSharedExample(name));
      }
      sharedExamples := sharedExamples[name := body];
      outcome := Done;
    }

    /** ExampleGroup.appendExampleGroup, called on the current group. */
    method AppendExampleGroup(description: string, flags: Flags) returns (group: nat)
      requires Valid() && currentExampleGroup.Some?
      modifies this
      ensures group == |old(groups)|
      ensures State() == DslSpec.AppendGroup(old(State()), description, flags)
    {
      var k := currentExampleGroup.value;
      group := |groups|;
      groups := groups[k := groups[k].(children := groups[k].children + [GroupChild(group)])];
      groups := groups + [Group(description, flags, Some(k), [], NoHooks)];
    }

    method Describe(description: string, flags: Flags, body: seq<Cmd>, fuel: nat) returns (outcome: Outcome)
      requires Valid()
      modifies this
      ensures old(currentExampleGroup).None? ==> outcome == Failed(NoCurrentGroup) && unchanged(this)
      ensures Reflects(DslSpec.Describe(old(State()), description, flags, body, fuel), outcome, State())
      decreases fuel, CmdsSize(body), 2
    {
      if currentExampleGroup == None {
        return Failed(NoCurrentGroup);
      }
      var group := AppendExampleGroup(description, flags);
      currentExampleGroup := Some(group);
      outcome := Run(body, fuel);
      if outcome.Failed? {
        return;
      }
      currentExampleGroup := groups[group].parent;
    }

    method Context(description: string, flags: Flags, body: seq<Cmd>, fuel: nat) returns (outcome: Outcome)
      requires Valid()
      modifies this
      ensures Reflects(DslSpec.Context(old(State()), description, flags, body, fuel), outcome, State())
      decreases fuel, CmdsSize(body), 3
    {
      outcome := Describe(description, flags, body, fuel);
    }

    method FDescribe(description: string, flags: Flags, body: seq<Cmd>, fuel: nat) returns (outcome: Outcome)
      requires Valid()
      modifies this
      ensures Reflects(DslSpec.FDescribe(old(State()), description, flags, body, fuel), outcome, State())
      decreases fuel, CmdsSize(body), 3
    {
      var focusedFlags := flags;
      focusedFlags := focusedFlags[FocusedKey := true];
      outcome := Describe(description, focusedFlags, body, fuel);
    }

    method XDescribe(description: string, flags: Flags, body: seq<Cmd>, fuel: nat) returns (outcome: Outcome)
      requires Valid()
      modifies this
      ensures Reflects(DslSpec.XDescribe(old(State()), description, flags, body, fuel), outcome, State())
      decreases fuel, CmdsSize(body), 3
    {
      var pendingFlags := flags;
      pendingFlags := pendingFlags[PendingKey := true];
      outcome := Describe(description, pendingFlags, body, fuel);
    }

    /** beforeEach, both the plain and the metadata overload. */
    method BeforeEach(hook: Hook)
      requires Valid() && currentExampleGroup.Some?
      modifies this
      ensures State() == DslSpec.BeforeEach(old(State()), hook)
    {
      var k := currentExampleGroup.value;
      var hooks := groups[k].hooks;
      groups := groups[k := groups[k].(hooks := hooks.(befores := hooks.befores + [hook]))];
    }

    /** afterEach, both the plain and the metadata overload. */
    method AfterEach(hook: Hook)
      requires Valid() && currentExampleGroup.Some?
      modifies this
      ensures State() == DslSpec.AfterEach(old(State()), hook)
    {
      var k := currentExampleGroup.value;
      var hooks := groups[k].hooks;
      groups := groups[k := groups[k].(hooks := hooks.(afters := hooks.afters + [hook]))];
    }

    method It(description: string, flags: Flags, file: string, line: nat, closure: ClosureId)
      requires Valid() && currentExampleGroup.Some?
      modifies this
      ensures State() == DslSpec.It(old(State()), description, flags, file, line, closure)
    {
      var callsite := Callsite(file, line);
      var example := Example(description, callsite, flags, closure, false);
      var k := currentExampleGroup.value;
      groups := groups[k := groups[k].(children := groups[k].children + [ExampleChild(|examples|)])];
      examples := examples + [example];
    }

    method FIt(description: string, flags: Flags, file: string, line: nat, closure: ClosureId)
      requires Valid() && currentExampleGroup.Some?
      modifies this
      ensures State() == DslSpec.FIt(old(State()), description, flags, file, line, closure)
    {
      var focusedFlags := flags;
      focusedFlags := focusedFlags[FocusedKey := true];
      It(description, focusedFlags, file, line, closure);
    }

    method XIt(description: string, flags: Flags, file: string, line: nat, closure: ClosureId)
      requires Valid() && currentExampleGroup.Some?
      modifies this
      ensures State() == DslSpec.XIt(old(State()), description, flags, file, line, closure)
    {
      var pendingFlags := flags;
      pendingFlags := pendingFlags[PendingKey := true];
      It(description, pendingFlags, file, line, closure);
    }

    /**
     * ExampleGroup.walkDownExamples on the current group with the callback
     * of itBehavesLike: each example below is marked as a shared-example
     * instance declared at `callsite`.
     */
    method WalkDownExamples(callsite: Callsite)
      requires Valid() && currentExampleGroup.Some?
      modifies this
      ensures State() == DslSpec.WalkDownExamples(old(State()), callsite)
    {
      var below := ExamplesBelow(groups, currentExampleGroup.value);
      TreeExamplesExist(groups, |examples|, currentExampleGroup.value);
      var i := 0;
      while i < |below|
        invariant 0 <= i <= |below|
        invariant examples == Reattribute(old(examples), below[..i], callsite)
        invariant groups == old(groups) && currentExampleGroup == old(currentExampleGroup)
        invariant suiteHooks == old(suiteHooks) && sharedExamples == old(sharedExamples)
        invariant log == old(log) && roots == old(roots)
      {
        var e := below[i];
        assert below[..i + 1][..i] == below[..i];
        examples := examples[e := examples[e].(isSharedExample := true, callsite := callsite)];
        i := i + 1;
      }
      assert below[..i] == below;
    }

    method ItBehavesLike(name: string, flags: Flags, file: string, line: nat, fuel: nat) returns (outcome: Outcome)
      requires Valid() && currentExampleGroup.Some?
      modifies this
      ensures Reflects(DslSpec.ItBehavesLike(old(State()), name, flags, file, line, fuel), outcome, State())
      decreases fuel, 0, 2
    {
      var callsite := Callsite(file, line);
      if name !in sharedExamples {
        return Failed(UndefinedSharedExample(name));
      }
      if fuel == 0 {
        return Failed(ExpansionTooDeep(name));
      }
      var closure := sharedExamples[name];
      var group := AppendExampleGroup(name, flags);
      currentExampleGroup := Some(group);
      outcome := Run(closure, fuel - 1);
      if outcome.Failed? {
        return;
      }
      WalkDownExamples(callsite);
      currentExampleGroup := groups[group].parent;
    }

    method Pending(description: string)
      modifies this
      ensures State() == DslSpec.Pending(old(State()), description)
    {
      log := log + ["Pending: " + description];
    }

    /** Runs one declaration of a closure body. */
    method RunOne(c: Cmd, fuel: nat) returns (outcome: Outcome)
      requires Valid() && currentExampleGroup.Some?
      modifies this
      ensures Reflects(DslSpec.ExecCmd(old(State()), c, fuel), outcome, State())
      decreases fuel, CmdSize(c), 0
    {
      outcome := Done;
      match c
      case Describe(d, f, body) => outcome := Describe(d, f, body, fuel);
      case Context(d, f, body) => outcome := Context(d, f, body, fuel);
      case FDescribe(d, f, body) => outcome := FDescribe(d, f, body, fuel);
      case XDescribe(d, f, body) => outcome := XDescribe(d, f, body, fuel);
      case BeforeEach(h) => BeforeEach(h);
      case AfterEach(h) => AfterEach(h);
      case BeforeSuite(cl) => BeforeSuite(cl);
      case AfterSuite(cl) => AfterSuite(cl);
      case It(d, f, file, line, cl) => It(d, f, file, line, cl);
      case FIt(d, f, file, line, cl) => FIt(d, f, file, line, cl);
      case XIt(d, f, file, line, cl) => XIt(d, f, file, line, cl);
      case ItBehavesLike(name, f, file, line) => outcome := ItBehavesLike(name, f, file, line, fuel);
      case Pending(d, _) => Pending(d);
      case SharedExamples(name, body) => outcome := SharedExamples(name, body);
    }

    /** Runs a closure body: its declarations in order, stopping at the first failure. */
    method Run(body: seq<Cmd>, fuel: nat) returns (outcome: Outcome)
      requires Valid() && currentExampleGroup.Some?
      modifies this
      ensures Reflects(DslSpec.Exec(old(State()), body, fuel), outcome, State())
      decreases fuel, CmdsSize(body), 1
    {
      if body == [] {
        return Done;
      }
      outcome := RunOne(body[0], fuel);
      if outcome.Failed? {
        return;
      }
      outcome := Run(body[1..], fuel);
    }
  }
}
