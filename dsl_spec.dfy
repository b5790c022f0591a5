/**
 * The registration transitions of World+DSL.swift as functions of the World
 * state. A closure body runs through `Exec`, which hands each declaration
 * to the transition of the same name. The World class in WorldDsl is
 * proved to make exactly these transitions.
 *
 * `fuel` bounds how deeply itBehavesLike may expand shared examples inside
 * one another; the program itself has no bound.
 */
module DslSpec {
  import opened Entities
  import opened Tree

  /** Groups that existed before are still there, under the same parents. */
  predicate ParentsKept(s: WorldState, t: WorldState)
  {
    && |s.groups| <= |t.groups|
    && forall g :: 0 <= g < |s.groups| ==> t.groups[g].parent == s.groups[g].parent
  }

  lemma GroupOkAppendChild(grp: Group, g: nat, nGroups: nat, nExamples: nat, ch: Child)
    requires GroupOk(grp, g, nGroups, nExamples) && ChildOk(ch, g, nGroups, nExamples)
    ensures GroupOk(grp.(children := grp.children + [ch]), g, nGroups, nExamples)
  {
    var children := grp.children + [ch];
    forall i | 0 <= i < |children|
      ensures ChildOk(children[i], g, nGroups, nExamples)
    {
      if i < |grp.children| {
        assert children[i] == grp.children[i];
      }
    }
  }

  /**
   * The tree stays well formed when group `k` is replaced by `grp`, new
   * groups `extra` are added and the example arena grows to `nExamples'`.
   */
  lemma TreeOkUpdate(groups: seq<Group>, nExamples: nat, k: nat, grp: Group, extra: seq<Group>, nExamples': nat)
    requires TreeOk(groups, nExamples) && k < |groups| && nExamples <= nExamples'
    requires GroupOk(grp, k, |groups| + |extra|, nExamples')
    requires forall j :: 0 <= j < |extra| ==> GroupOk(extra[j], |groups| + j, |groups| + |extra|, nExamples')
    ensures TreeOk(groups[k := grp] + extra, nExamples')
  {
    var groups' := groups[k := grp] + extra;
    forall g | 0 <= g < |groups'|
      ensures GroupOk(groups'[g], g, |groups'|, nExamples')
    {
      if g >= |groups| {
        assert groups'[g] == extra[g - |groups|];
      } else if g != k {
        assert GroupOk(groups[g], g, |groups|, nExamples);
        GroupOkGrows(groups[g], g, |groups|, nExamples, |groups'|, nExamples');
      }
    }
  }

  /**
   * ExampleGroup.appendExampleGroup on the current group: the new group is
   * the last child of the current group and has it as its parent.
   */
  function AppendGroup(s: WorldState, description: string, flags: Flags): (t: WorldState)
    requires WF(s) && s.current.Some?
    ensures WF(t) && t.current == s.current && ParentsKept(s, t)
    ensures |t.groups| == |s.groups| + 1 && t.examples == s.examples
    ensures t.groups[|s.groups|] == Group(description, flags, s.current, [], NoHooks)
    ensures t.groups[s.current.value] ==
      s.groups[s.current.value].(children := s.groups[s.current.value].children + [GroupChild(|s.groups|)])
    ensures forall g :: 0 <= g < |s.groups| && g != s.current.value ==> t.groups[g] == s.groups[g]
    ensures t == s.(groups := t.groups)
  {
    var k := s.current.value;
    var cur := s.groups[k];
    var added := Group(description, flags, Some(k), [], NoHooks);
    assert GroupOk(cur, k, |s.groups|, |s.examples|);
    GroupOkGrows(cur, k, |s.groups|, |s.examples|, |s.groups| + 1, |s.examples|);
    GroupOkAppendChild(cur, k, |s.groups| + 1, |s.examples|, GroupChild(|s.groups|));
    TreeOkUpdate(s.groups, |s.examples|, k, cur.(children := cur.children + [GroupChild(|s.groups|)]), [added], |s.examples|);
    s.(groups := s.groups[k := cur.(children := cur.children + [GroupChild(|s.groups|)])] + [added])
  }

  /** World.it: a new example, declared at (file, line), ends the current group's children. */
  function It(s: WorldState, description: string, flags: Flags, file: string, line: nat, closure: ClosureId): (t: WorldState)
    requires WF(s) && s.current.Some?
    ensures WF(t) && t.current == s.current && ParentsKept(s, t)
  {
    var k := s.current.value;
    var cur := s.groups[k];
    var example := Example(description, Callsite(file, line), flags, closure, false);
    assert GroupOk(cur, k, |s.groups|, |s.examples|);
    GroupOkGrows(cur, k, |s.groups|, |s.examples|, |s.groups|, |s.examples| + 1);
    GroupOkAppendChild(cur, k, |s.groups|, |s.examples| + 1, ExampleChild(|s.examples|));
    TreeOkUpdate(s.groups, |s.examples|, k, cur.(children := cur.children + [ExampleChild(|s.examples|)]), [], |s.examples| + 1);
    assert s.groups[k := cur.(children := cur.children + [ExampleChild(|s.examples|)])] + [] ==
      s.groups[k := cur.(children := cur.children + [ExampleChild(|s.examples|)])];
    s.(examples := s.examples + [example],
       groups := s.groups[k := cur.(children := cur.children + [ExampleChild(|s.examples|)])])
  }

  /** World.fit */
  function FIt(s: WorldState, description: string, flags: Flags, file: string, line: nat, closure: ClosureId): (t: WorldState)
    requires WF(s) && s.current.Some?
    ensures WF(t) && t.current == s.current && ParentsKept(s, t)
  {
    It(s, description, Focus(flags), file, line, closure)
  }

  /** World.xit */
  function XIt(s: WorldState, description: string, flags: Flags, file: string, line: nat, closure: ClosureId): (t: WorldState)
    requires WF(s) && s.current.Some?
    ensures WF(t) && t.current == s.current && ParentsKept(s, t)
  {
    It(s, description, MarkPending(flags), file, line, closure)
  }

  /** The current group with `hooks` in place of its hook lists. */
  function WithGroupHooks(s: WorldState, hooks: Hooks): (t: WorldState)
    requires WF(s) && s.current.Some?
    ensures WF(t) && t.current == s.current && ParentsKept(s, t)
  {
    var k := s.current.value;
    assert GroupOk(s.groups[k], k, |s.groups|, |s.examples|);
    TreeOkUpdate(s.groups, |s.examples|, k, s.groups[k].(hooks := hooks), [], |s.examples|);
    assert s.groups[k := s.groups[k].(hooks := hooks)] + [] == s.groups[k := s.groups[k].(hooks := hooks)];
    s.(groups := s.groups[k := s.groups[k].(hooks := hooks)])
  }

  /** World.beforeEach, both overloads: the hook's tag says which. */
  function BeforeEach(s: WorldState, hook: Hook): (t: WorldState)
    requires WF(s) && s.current.Some?
    ensures WF(t) && t.current == s.current && ParentsKept(s, t)
  {
    var hooks := s.groups[s.current.value].hooks;
    WithGroupHooks(s, hooks.(befores := hooks.befores + [hook]))
  }

  /** World.afterEach, both overloads. */
  function AfterEach(s: WorldState, hook: Hook): (t: WorldState)
    requires WF(s) && s.current.Some?
    ensures WF(t) && t.current == s.current && ParentsKept(s, t)
  {
    var hooks := s.groups[s.current.value].hooks;
    WithGroupHooks(s, hooks.(afters := hooks.afters + [hook]))
  }

  /** World.beforeSuite */
  function BeforeSuite(s: WorldState, closure: ClosureId): (t: WorldState)
    ensures t.groups == s.groups && t.examples == s.examples && t.current == s.current
  {
    s.(suiteHooks := s.suiteHooks.(befores := s.suiteHooks.befores + [Plain(closure)]))
  }

  /** World.afterSuite */
  function AfterSuite(s: WorldState, closure: ClosureId): (t: WorldState)
    ensures t.groups == s.groups && t.examples == s.examples && t.current == s.current
  {
    s.(suiteHooks := s.suiteHooks.(afters := s.suiteHooks.afters + [Plain(closure)]))
  }

  /** World.pending: the closure is not run and nothing is registered; one line is printed. */
  function Pending(s: WorldState, description: string): (t: WorldState)
    ensures t.groups == s.groups && t.examples == s.examples && t.current == s.current
  {
    s.(log := s.log + ["Pending: " + description])
  }

  /** World.sharedExamples, through registerSharedExample. */
  function SharedExamples(s: WorldState, name: string, body: seq<Cmd>): (r: Result<WorldState>)
    ensures r.Ok? <==> name !in s.sharedExamples
    ensures r.Ok? ==> r.value == s.(sharedExamples := s.sharedExamples[name := body])
  {
    if name in s.sharedExamples then Err(DuplicateSharedExample(name))
    else Ok(s.(sharedExamples := s.sharedExamples[name := body]))
  }

  /**
   * World.describe: refuses to run without a current group; otherwise opens
   * a new group under it, runs the body there and moves the cursor to the
   * new group's parent.
   */
  function Describe(s: WorldState, description: string, flags: Flags, body: seq<Cmd>, fuel: nat): (r: Result<WorldState>)
    requires WF(s)
    ensures s.current.None? ==> r == Err(NoCurrentGroup)
    ensures r.Ok? ==> WF(r.value) && r.value.current == s.current && ParentsKept(s, r.value)
    ensures r.Ok? ==> |s.groups| < |r.value.groups|
    decreases fuel, CmdsSize(body), 2
  {
    if s.current.None? then Err(NoCurrentGroup)
    else
      var group := |s.groups|;
      var s1 := AppendGroup(s, description, flags).(current := Some(group));
      var s2 :- Exec(s1, body, fuel);
      Ok(s2.(current := s2.groups[group].parent))
  }

  /** World.context */
  function Context(s: WorldState, description: string, flags: Flags, body: seq<Cmd>, fuel: nat): (r: Result<WorldState>)
    requires WF(s)
    ensures s.current.None? ==> r == Err(NoCurrentGroup)
    ensures r.Ok? ==> WF(r.value) && r.value.current == s.current && ParentsKept(s, r.value)
    decreases fuel, CmdsSize(body), 3
  {
    Describe(s, description, flags, body, fuel)
  }

  /** World.fdescribe */
  function FDescribe(s: WorldState, description: string, flags: Flags, body: seq<Cmd>, fuel: nat): (r: Result<WorldState>)
    requires WF(s)
    ensures s.current.None? ==> r == Err(NoCurrentGroup)
    ensures r.Ok? ==> WF(r.value) && r.value.current == s.current && ParentsKept(s, r.value)
    decreases fuel, CmdsSize(body), 3
  {
    Describe(s, description, Focus(flags), body, fuel)
  }

  /** World.xdescribe */
  function XDescribe(s: WorldState, description: string, flags: Flags, body: seq<Cmd>, fuel: nat): (r: Result<WorldState>)
    requires WF(s)
    ensures s.current.None? ==> r == Err(NoCurrentGroup)
    ensures r.Ok? ==> WF(r.value) && r.value.current == s.current && ParentsKept(s, r.value)
    decreases fuel, CmdsSize(body), 3
  {
    Describe(s, description, MarkPending(flags), body, fuel)
  }

  /** ExampleGroup.walkDownExamples from the current group, applying the itBehavesLike callback. */
  function WalkDownExamples(s: WorldState, callsite: Callsite): (t: WorldState)
    requires WF(s) && s.current.Some?
    ensures WF(t) && t.groups == s.groups && t.current == s.current && |t.examples| == |s.examples|
  {
    TreeExamplesExist(s.groups, |s.examples|, s.current.value);
    s.(examples := Reattribute(s.examples, ExamplesBelow(s.groups, s.current.value), callsite))
  }

  /**
   * World.itBehavesLike: looks the shared example up, opens a group named
   * after it, expands the shared body there, re-attributes every example
   * below that group to the call site and moves the cursor back.
   */
  function ItBehavesLike(s: WorldState, name: string, flags: Flags, file: string, line: nat, fuel: nat): (r: Result<WorldState>)
    requires WF(s) && s.current.Some?
    ensures name !in s.sharedExamples ==> r == Err(UndefinedSharedExample(name))
    ensures r.Ok? ==> WF(r.value) && r.value.current == s.current && ParentsKept(s, r.value)
    decreases fuel, 0, 2
  {
    var callsite := Callsite(file, line);
    if name !in s.sharedExamples then Err(UndefinedSharedExample(name))
    else if fuel == 0 then Err(ExpansionTooDeep(name))
    else
      var closure := s.sharedExamples[name];
      var group := |s.groups|;
      var s1 := AppendGroup(s, name, flags).(current := Some(group));
      var s2 :- Exec(s1, closure, fuel - 1);
      var s3 := WalkDownExamples(s2, callsite);
      Ok(s3.(current := s3.groups[group].parent))
  }

  /**
   * World.rootExampleGroupForSpecClass: the spec class's root group, created
   * (without a parent, named after the class, with no flags) the first time
   * the class asks for it and returned unchanged afterwards.
   */
  function WithRoot(s: WorldState, specClass: string): (t: WorldState)
    requires WF(s)
    ensures WF(t) && specClass in t.roots && t.current == s.current
    ensures specClass in s.roots ==> t == s
    ensures specClass !in s.roots ==>
      && t.groups == s.groups + [Group(specClass, map[], None, [], NoHooks)]
      && t.roots == s.roots[specClass := |s.groups|]
      && t.examples == s.examples
  {
    if specClass in s.roots then s
    else
      var root := Group(specClass, map[], None, [], NoHooks);
      TreeOkAddRoot(s.groups, |s.examples|, root);
      s.(groups := s.groups + [root], roots := s.roots[specClass := |s.groups|])
  }

  lemma TreeOkAddRoot(groups: seq<Group>, nExamples: nat, root: Group)
    requires TreeOk(groups, nExamples) && root.parent == None && root.children == []
    ensures TreeOk(groups + [root], nExamples)
  {
    forall g | 0 <= g < |groups|
      ensures GroupOk((groups + [root])[g], g, |groups| + 1, nExamples)
    {
      assert GroupOk(groups[g], g, |groups|, nExamples);
      GroupOkGrows(groups[g], g, |groups|, nExamples, |groups| + 1, nExamples);
    }
  }

  /** One declaration of a closure body, dispatched to its DSL transition. */
  function ExecCmd(s: WorldState, c: Cmd, fuel: nat): (r: Result<WorldState>)
    requires WF(s) && s.current.Some?
    ensures r.Ok? ==> WF(r.value) && r.value.current == s.current && ParentsKept(s, r.value)
    decreases fuel, CmdSize(c), 0
  {
    match c
    case Describe(d, f, body) => Describe(s, d, f, body, fuel)
    case Context(d, f, body) => Context(s, d, f, body, fuel)
    case FDescribe(d, f, body) => FDescribe(s, d, f, body, fuel)
    case XDescribe(d, f, body) => XDescribe(s, d, f, body, fuel)
    case BeforeEach(h) => Ok(BeforeEach(s, h))
    case AfterEach(h) => Ok(AfterEach(s, h))
    case BeforeSuite(cl) => Ok(BeforeSuite(s, cl))
    case AfterSuite(cl) => Ok(AfterSuite(s, cl))
    case It(d, f, file, line, cl) => Ok(It(s, d, f, file, line, cl))
    case FIt(d, f, file, line, cl) => Ok(FIt(s, d, f, file, line, cl))
    case XIt(d, f, file, line, cl) => Ok(XIt(s, d, f, file, line, cl))
    case ItBehavesLike(name, f, file, line) => ItBehavesLike(s, name, f, file, line, fuel)
    case Pending(d, _) => Ok(Pending(s, d))
    case SharedExamples(name, body) => SharedExamples(s, name, body)
  }

  /**
   * Running a closure body: its declarations in order, stopping at the
   * first error. The cursor ends where it started.
   */
  function Exec(s: WorldState, cmds: seq<Cmd>, fuel: nat): (r: Result<WorldState>)
    requires WF(s) && s.current.Some?
    ensures r.Ok? ==> WF(r.value) && r.value.current == s.current && ParentsKept(s, r.value)
    decreases fuel, CmdsSize(cmds), 1
  {
    if cmds == [] then Ok(s)
    else
      var s1 :- ExecCmd(s, cmds[0], fuel);
      Exec(s1, cmds[1..], fuel)
  }
}
