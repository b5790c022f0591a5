/**
 * A spec worked through on concrete values:
 *
 *   describe("A") { beforeEach(h1); it("t1"); describe("B") { beforeEach(h2); it("t2") } }
 *
 * registered by a fresh spec class "ASpec". Each step of the registration
 * is one small lemma about a named intermediate World state.
 */
module Scenarios {
  import opened Entities
  import opened Tree
  import DslSpec
  import DslProperties
  import opened QuickSpecModel

  const Fresh: WorldState := WorldState([], [], None, NoHooks, map[], [], map[])

  const T1: Example := Example("t1", Callsite("ASpec.swift", 3), map[], 10, false)
  const T2: Example := Example("t2", Callsite("ASpec.swift", 6), map[], 11, false)

  const InnerBody: seq<Cmd> := [BeforeEach(Plain(2)), It("t2", map[], "ASpec.swift", 6, 11)]
  const OuterHead: seq<Cmd> := [BeforeEach(Plain(1)), It("t1", map[], "ASpec.swift", 3, 10)]
  const OuterBody: seq<Cmd> := OuterHead + [Describe("B", map[], InnerBody)]
  const NestedSpec: seq<Cmd> := [Describe("A", map[], OuterBody)]

  const RootGroup: Group := Group("ASpec", map[], None, [GroupChild(1)], NoHooks)

  /** The World when the body of describe("A") starts. */
  const OuterStart: WorldState := WorldState(
    [RootGroup, Group("A", map[], Some(0), [], NoHooks)],
    [], Some(1), NoHooks, map[], [], map["ASpec" := 0])

  /** ... after beforeEach(h1) and it("t1"). */
  const AfterT1: WorldState := OuterStart.(
    groups := [RootGroup, Group("A", map[], Some(0), [ExampleChild(0)], Hooks([Plain(1)], []))],
    examples := [T1])

  /** ... when the body of describe("B") starts. */
  const InnerStart: WorldState := AfterT1.(
    groups := [RootGroup, Group("A", map[], Some(0), [ExampleChild(0), GroupChild(2)], Hooks([Plain(1)], [])),
               Group("B", map[], Some(1), [], NoHooks)],
    current := Some(2))

  /** The tree NestedSpec builds, with the cursor cleared. */
  const NestedTree: WorldState := InnerStart.(
    groups := InnerStart.groups[2 := Group("B", map[], Some(1), [ExampleChild(1)], Hooks([Plain(2)], []))],
    examples := [T1, T2],
    current := None)

  /** A body of one hook and one example registers them in order. */
  lemma HookThenExample(s: WorldState, h: Hook, d: string, file: string, line: nat, cl: ClosureId, fuel: nat)
    requires WF(s) && s.current.Some?
    ensures DslSpec.Exec(s, [BeforeEach(h), It(d, map[], file, line, cl)], fuel) ==
      Ok(DslSpec.It(DslSpec.BeforeEach(s, h), d, map[], file, line, cl))
  {
    var cmds := [BeforeEach(h), It(d, map[], file, line, cl)];
    var s1 := DslSpec.BeforeEach(s, h);
    var s2 := DslSpec.It(s1, d, map[], file, line, cl);
    assert DslSpec.Exec(s2, cmds[2..], fuel) == Ok(s2);
    assert DslSpec.Exec(s1, cmds[1..], fuel) == Ok(s2);
  }

  lemma InnerRuns()
    ensures WF(InnerStart)
    ensures DslSpec.Exec(InnerStart, InnerBody, 0) == Ok(NestedTree.(current := Some(2)))
  {
    var s := InnerStart;
    assert GroupOk(s.groups[0], 0, 3, 1) && GroupOk(s.groups[1], 1, 3, 1) && GroupOk(s.groups[2], 2, 3, 1);
    HookThenExample(s, Plain(2), "t2", "ASpec.swift", 6, 11, 0);
    var s1 := DslSpec.BeforeEach(s, Plain(2));
    var b1 := Group("B", map[], Some(1), [], Hooks([Plain(2)], []));
    assert NoHooks.befores + [Plain(2)] == [Plain(2)];
    assert s1.groups == [s.groups[0], s.groups[1], b1];
    var s2 := DslSpec.It(s1, "t2", map[], "ASpec.swift", 6, 11);
    assert b1.children + [ExampleChild(1)] == [ExampleChild(1)];
    assert s2.groups == NestedTree.groups;
    assert s2.examples == NestedTree.examples;
  }

  lemma OuterHeadRuns()
    ensures WF(OuterStart)
    ensures DslSpec.Exec(OuterStart, OuterHead, 0) == Ok(AfterT1)
  {
    var s := OuterStart;
    assert GroupOk(s.groups[0], 0, 2, 0) && GroupOk(s.groups[1], 1, 2, 0);
    HookThenExample(s, Plain(1), "t1", "ASpec.swift", 3, 10, 0);
    var s1 := DslSpec.BeforeEach(s, Plain(1));
    assert NoHooks.befores + [Plain(1)] == [Plain(1)];
    assert s1.groups == [s.groups[0], Group("A", map[], Some(0), [], Hooks([Plain(1)], []))];
    var s2 := DslSpec.It(s1, "t1", map[], "ASpec.swift", 3, 10);
    assert s1.groups[1].children + [ExampleChild(0)] == [ExampleChild(0)];
    assert s2.groups == AfterT1.groups;
    assert s2.examples == [] + [T1] == AfterT1.examples;
  }

  lemma DescribeBRuns()
    ensures WF(AfterT1)
    ensures DslSpec.Exec(AfterT1, [Describe("B", map[], InnerBody)], 0) == Ok(NestedTree.(current := Some(1)))
  {
    OuterHeadRuns();
    var s1 := DslSpec.AppendGroup(AfterT1, "B", map[]).(current := Some(2));
    assert [ExampleChild(0)] + [GroupChild(2)] == [ExampleChild(0), GroupChild(2)];
    assert s1.groups == InnerStart.groups;
    InnerRuns();
    var done := NestedTree.(current := Some(1));
    assert DslSpec.Exec(done, [Describe("B", map[], InnerBody)][1..], 0) == Ok(done);
  }

  lemma DescribeARuns()
    ensures WF(OuterStart.(groups := [Group("ASpec", map[], None, [], NoHooks)], current := Some(0)))
    ensures DslSpec.Exec(OuterStart.(groups := [Group("ASpec", map[], None, [], NoHooks)], current := Some(0)), NestedSpec, 0)
      == Ok(NestedTree.(current := Some(0)))
  {
    var s0 := OuterStart.(groups := [Group("ASpec", map[], None, [], NoHooks)], current := Some(0));
    assert GroupOk(s0.groups[0], 0, 1, 0);
    var s1 := DslSpec.AppendGroup(s0, "A", map[]).(current := Some(1));
    assert [] + [GroupChild(1)] == [GroupChild(1)];
    assert s1.groups == OuterStart.groups;
    assert s1 == OuterStart;
    OuterHeadRuns();
    DescribeBRuns();
    DslProperties.ExecConcat(OuterStart, OuterHead, [Describe("B", map[], InnerBody)], 0);
    assert DslSpec.Exec(s1, OuterBody, 0) == Ok(NestedTree.(current := Some(1)));
    var done := NestedTree.(current := Some(0));
    assert DslSpec.Describe(s0, "A", map[], OuterBody, 0) == Ok(done);
    assert DslSpec.Exec(done, NestedSpec[1..], 0) == Ok(done);
  }

  /**
   * Registering the spec gives A under the root and B under A, each with
   * its own hook, lists t1 before t2 below the root, and leaves no
   * current group.
   */
  lemma NestedDescribes()
    ensures Gather(Fresh, "ASpec", NestedSpec, 0) == Ok(NestedTree)
    ensures ExamplesBelow(NestedTree.groups, 0) == [0, 1]
  {
    var s0 := DslSpec.WithRoot(Fresh, "ASpec");
    assert [] + [Group("ASpec", map[], None, [], NoHooks)] == [Group("ASpec", map[], None, [], NoHooks)];
    assert s0.(current := Some(0)) == OuterStart.(groups := [Group("ASpec", map[], None, [], NoHooks)], current := Some(0));
    DescribeARuns();
    var groups := NestedTree.groups;
    assert ExamplesBelow(groups, 2) == [1] by {
      assert ExamplesFrom(groups, 2, 1) == [];
      assert ChildExamples(groups, 2, ExampleChild(1)) == [1];
    }
    assert ExamplesBelow(groups, 1) == [0, 1] by {
      assert ExamplesFrom(groups, 1, 2) == [];
      assert ChildExamples(groups, 1, GroupChild(2)) == [1];
      assert ExamplesFrom(groups, 1, 1) == [1];
      assert ChildExamples(groups, 1, ExampleChild(0)) == [0];
    }
    assert ExamplesFrom(groups, 0, 1) == [];
    assert ChildExamples(groups, 0, GroupChild(1)) == [0, 1];
  }

  /** A shared example "S" of one example, declared in Shared.swift. */
  const SharedBody: seq<Cmd> := [It("s1", map[], "Shared.swift", 4, 20)]

  /** The root of "ASpec" is current and "S" has been registered. */
  const SharedStart: WorldState := WorldState(
    [Group("ASpec", map[], None, [], NoHooks)], [], Some(0), NoHooks,
    map["S" := SharedBody], [], map["ASpec" := 0])

  /** After itBehavesLike("S") at ASpec.swift line 9. */
  const SharedDone: WorldState := SharedStart.(
    groups := [Group("ASpec", map[], None, [GroupChild(1)], NoHooks), Group("S", map[], Some(0), [ExampleChild(0)], NoHooks)],
    examples := [Example("s1", Callsite("ASpec.swift", 9), map[], 20, true)])

  /**
   * The example that the shared body declares at Shared.swift line 4 ends
   * up attributed to the itBehavesLike call site, marked shared, inside a
   * group named "S"; an unknown name and an exhausted expansion bound fail.
   */
  lemma SharedExampleTakesCallSite()
    ensures WF(SharedStart)
    ensures DslSpec.ItBehavesLike(SharedStart, "S", map[], "ASpec.swift", 9, 1) == Ok(SharedDone)
    ensures DslSpec.ItBehavesLike(SharedStart, "T", map[], "ASpec.swift", 9, 1) == Err(UndefinedSharedExample("T"))
    ensures DslSpec.ItBehavesLike(SharedStart, "S", map[], "ASpec.swift", 9, 0) == Err(ExpansionTooDeep("S"))
  {
    var s := SharedStart;
    assert GroupOk(s.groups[0], 0, 1, 0);
    var s1 := DslSpec.AppendGroup(s, "S", map[]).(current := Some(1));
    assert [] + [GroupChild(1)] == [GroupChild(1)];
    var s2 := DslSpec.It(s1, "s1", map[], "Shared.swift", 4, 20);
    assert DslSpec.Exec(s1, SharedBody, 0) == Ok(s2) by {
      assert DslSpec.Exec(s2, SharedBody[1..], 0) == Ok(s2);
    }
    assert [] + [ExampleChild(0)] == [ExampleChild(0)];
    assert s2.groups == SharedDone.groups;
    assert ExamplesBelow(s2.groups, 1) == [0] by {
      assert ExamplesFrom(s2.groups, 1, 1) == [];
      assert ChildExamples(s2.groups, 1, ExampleChild(0)) == [0];
    }
    var ex := Example("s1", Callsite("Shared.swift", 4), map[], 20, false);
    assert s2.examples == [ex];
    assert Reattribute([ex], [0], Callsite("ASpec.swift", 9)) == SharedDone.examples by {
      assert [0][..0] == [];
    }
  }

  /** A beforeEach at the top of spec() is a hook of the class's root group. */
  lemma TopLevelHookOnRoot()
    ensures Gather(Fresh, "XSpec", [BeforeEach(Plain(7))], 0) ==
      Ok(Fresh.(groups := [Group("XSpec", map[], None, [], Hooks([Plain(7)], []))], roots := map["XSpec" := 0]))
  {
    var s0 := DslSpec.WithRoot(Fresh, "XSpec").(current := Some(0));
    assert [] + [Group("XSpec", map[], None, [], NoHooks)] == [Group("XSpec", map[], None, [], NoHooks)];
    assert GroupOk(s0.groups[0], 0, 1, 0);
    var s1 := DslSpec.BeforeEach(s0, Plain(7));
    assert NoHooks.befores + [Plain(7)] == [Plain(7)];
    assert s1.groups == [Group("XSpec", map[], None, [], Hooks([Plain(7)], []))];
    assert DslSpec.Exec(s1, [BeforeEach(Plain(7))][1..], 0) == Ok(s1);
  }
}
