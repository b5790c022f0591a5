/**
 * What registration guarantees, proved about the DslSpec transitions:
 * which parts of the World a closure body can change (only the current
 * group, by appending, and the groups it creates itself), where the
 * declarations of a describe body land, how itBehavesLike re-attributes
 * examples, and the effect of each single declaration.
 */
module DslProperties {
  import opened Entities
  import opened Tree
  import DslSpec

  /** `b` is `a` with children and hooks appended, and nothing else changed. */
  predicate Extends(a: Group, b: Group)
  {
    && b.description == a.description
    && b.flags == a.flags
    && b.parent == a.parent
    && a.children <= b.children
    && a.hooks.befores <= b.hooks.befores
    && a.hooks.afters <= b.hooks.afters
  }

  /** Children from position `from` on refer only to examples numbered `lo` or above. */
  predicate FreshExamples(children: seq<Child>, from: nat, lo: nat)
  {
    forall i :: from <= i < |children| && children[i].ExampleChild? ==> lo <= children[i].example
  }

  /**
   * The effect a closure body run with the cursor at group k may have:
   * the cursor is back at k; groups other than k are untouched; k only
   * gains children and hooks; earlier examples are untouched; every new
   * group descends from k and holds only new examples, as do k's new
   * children; suite hooks and the log only grow.
   */
  predicate Frame(s: WorldState, t: WorldState)
  {
    && s.current.Some? && s.current.value < |s.groups|
    && |s.groups| <= |t.groups| && |s.examples| <= |t.examples|
    && t.current == s.current
    && (forall g :: 0 <= g < |s.groups| && g != s.current.value ==> t.groups[g] == s.groups[g])
    && Extends(s.groups[s.current.value], t.groups[s.current.value])
    && (forall e :: 0 <= e < |s.examples| ==> t.examples[e] == s.examples[e])
    && (forall g :: |s.groups| <= g < |t.groups| ==>
          t.groups[g].parent.Some? && (t.groups[g].parent.value == s.current.value || |s.groups| <= t.groups[g].parent.value))
    && (forall g :: |s.groups| <= g < |t.groups| ==> FreshExamples(t.groups[g].children, 0, |s.examples|))
    && FreshExamples(t.groups[s.current.value].children, |s.groups[s.current.value].children|, |s.examples|)
    && s.suiteHooks.befores <= t.suiteHooks.befores
    && s.suiteHooks.afters <= t.suiteHooks.afters
    && s.log <= t.log
  }

  lemma FrameRefl(s: WorldState)
    requires WF(s) && s.current.Some?
    ensures Frame(s, s)
  {
  }

  lemma FrameTrans(s: WorldState, m: WorldState, t: WorldState)
    requires Frame(s, m) && Frame(m, t)
    ensures Frame(s, t)
  {
    var k := s.current.value;
    forall g | |s.groups| <= g < |t.groups|
      ensures FreshExamples(t.groups[g].children, 0, |s.examples|)
    {
      if g < |m.groups| {
        assert t.groups[g] == m.groups[g];
      } else {
        assert FreshExamples(t.groups[g].children, 0, |m.examples|);
      }
    }
    forall g | |s.groups| <= g < |t.groups|
      ensures t.groups[g].parent.Some? && (t.groups[g].parent.value == k || |s.groups| <= t.groups[g].parent.value)
    {
      if g < |m.groups| {
        assert t.groups[g] == m.groups[g];
      }
    }
    var ck := t.groups[k].children;
    forall i | |s.groups[k].children| <= i < |ck| && ck[i].ExampleChild?
      ensures |s.examples| <= ck[i].example
    {
      if i < |m.groups[k].children| {
        assert ck[i] == m.groups[k].children[i];
      }
    }
  }

  /** A single non-nesting declaration keeps to the frame. */
  lemma {:induction false} ExecCmdFrameLeaf(s: WorldState, c: Cmd, fuel: nat)
    requires WF(s) && s.current.Some?
    requires !c.Describe? && !c.Context? && !c.FDescribe? && !c.XDescribe? && !c.ItBehavesLike?
    requires DslSpec.ExecCmd(s, c, fuel).Ok?
    ensures Frame(s, DslSpec.ExecCmd(s, c, fuel).value)
  {
    var k := s.current.value;
    var t := DslSpec.ExecCmd(s, c, fuel).value;
    match c {
      case It(d, f, file, line, cl) => ItFrame(s, d, f, file, line, cl);
      case FIt(d, f, file, line, cl) => ItFrame(s, d, Focus(f), file, line, cl);
      case XIt(d, f, file, line, cl) => ItFrame(s, d, MarkPending(f), file, line, cl);
      case BeforeEach(_) => assert t.groups == s.groups[k := t.groups[k]];
      case AfterEach(_) => assert t.groups == s.groups[k := t.groups[k]];
      case BeforeSuite(_) =>
      case AfterSuite(_) =>
      case Pending(_, _) =>
      case SharedExamples(_, _) =>
    }
  }

  lemma ItFrame(s: WorldState, description: string, flags: Flags, file: string, line: nat, closure: ClosureId)
    requires WF(s) && s.current.Some?
    ensures Frame(s, DslSpec.It(s, description, flags, file, line, closure))
  {
    var t := DslSpec.It(s, description, flags, file, line, closure);
    var k := s.current.value;
    var ck := t.groups[k].children;
    assert ck == s.groups[k].children + [ExampleChild(|s.examples|)];
    assert FreshExamples(ck, |s.groups[k].children|, |s.examples|);
  }

  /**
   * Opening a group under k and running a body there keeps to k's frame,
   * given that the body kept to the new group's frame.
   */
  lemma NestedFrame(s: WorldState, description: string, flags: Flags, s2: WorldState)
    requires WF(s) && s.current.Some?
    requires Frame(DslSpec.AppendGroup(s, description, flags).(current := Some(|s.groups|)), s2)
    ensures Frame(s, s2.(current := s2.groups[|s.groups|].parent))
  {
    var k := s.current.value;
    var G := |s.groups|;
    var s1 := DslSpec.AppendGroup(s, description, flags).(current := Some(G));
    var t := s2.(current := s2.groups[G].parent);
    assert s1.groups[G].parent == Some(k);
    assert t.current == s.current;
    assert t.groups[k] == s1.groups[k];
    assert s1.groups[k].children == s.groups[k].children + [GroupChild(G)];
    forall g | G <= g < |t.groups|
      ensures FreshExamples(t.groups[g].children, 0, |s.examples|)
    {
      if g == G {
        assert s1.groups[G].children == [];
        assert FreshExamples(s2.groups[G].children, |s1.groups[G].children|, |s1.examples|);
      } else {
        assert FreshExamples(s2.groups[g].children, 0, |s1.examples|);
      }
    }
    assert t.groups[k].children == s.groups[k].children + [GroupChild(G)];
  }

  /**
   * The group the body of itBehavesLike ran in, once the body is done,
   * holds below it only examples the body declared.
   */
  lemma FreshSubtree(s1: WorldState, s2: WorldState)
    requires Frame(s1, s2) && WF(s2)
    requires s1.current.value == |s1.groups| - 1 && s1.groups[s1.current.value].children == []
    ensures ExamplesWithin(s2.groups, s1.current.value, |s1.examples|, |s2.examples|)
  {
    var G := s1.current.value;
    forall h | G <= h < |s2.groups|
      ensures ChildrenWithin(s2.groups[h], h, |s2.groups|, |s1.examples|, |s2.examples|)
    {
      assert GroupOk(s2.groups[h], h, |s2.groups|, |s2.examples|);
      assert FreshExamples(s2.groups[h].children, 0, |s1.examples|);
      forall i | 0 <= i < |s2.groups[h].children|
        ensures ChildWithin(s2.groups[h].children[i], h, |s2.groups|, |s1.examples|, |s2.examples|)
      {
        assert ChildOk(s2.groups[h].children[i], h, |s2.groups|, |s2.examples|);
      }
    }
  }

  /** The walk of itBehavesLike after its body leaves earlier examples alone. */
  lemma WalkFrame(s: WorldState, name: string, flags: Flags, s2: WorldState, callsite: Callsite)
    requires WF(s) && s.current.Some? && WF(s2)
    requires Frame(DslSpec.AppendGroup(s, name, flags).(current := Some(|s.groups|)), s2)
    ensures Frame(DslSpec.AppendGroup(s, name, flags).(current := Some(|s.groups|)), DslSpec.WalkDownExamples(s2, callsite))
  {
    var G := |s.groups|;
    var s1 := DslSpec.AppendGroup(s, name, flags).(current := Some(G));
    var s3 := DslSpec.WalkDownExamples(s2, callsite);
    FreshSubtree(s1, s2);
    ExamplesBelowWithin(s2.groups, G, |s1.examples|, |s2.examples|, G);
    var below := ExamplesBelow(s2.groups, G);
    forall e | 0 <= e < |s1.examples|
      ensures s3.examples[e] == s1.examples[e]
    {
      assert e !in below;
    }
  }

  lemma {:induction false} DescribeFrame(s: WorldState, description: string, flags: Flags, body: seq<Cmd>, fuel: nat)
    requires WF(s) && s.current.Some?
    requires DslSpec.Describe(s, description, flags, body, fuel).Ok?
    ensures Frame(s, DslSpec.Describe(s, description, flags, body, fuel).value)
    decreases fuel, CmdsSize(body), 2
  {
    var s1 := DslSpec.AppendGroup(s, description, flags).(current := Some(|s.groups|));
    ExecFrame(s1, body, fuel);
    NestedFrame(s, description, flags, DslSpec.Exec(s1, body, fuel).value);
  }

  lemma {:induction false} ItBehavesLikeFrame(s: WorldState, name: string, flags: Flags, file: string, line: nat, fuel: nat)
    requires WF(s) && s.current.Some?
    requires DslSpec.ItBehavesLike(s, name, flags, file, line, fuel).Ok?
    ensures Frame(s, DslSpec.ItBehavesLike(s, name, flags, file, line, fuel).value)
    decreases fuel, 0, 2
  {
    var s1 := DslSpec.AppendGroup(s, name, flags).(current := Some(|s.groups|));
    var s2 := DslSpec.Exec(s1, s.sharedExamples[name], fuel - 1).value;
    ExecFrame(s1, s.sharedExamples[name], fuel - 1);
    WalkFrame(s, name, flags, s2, Callsite(file, line));
    var s3 := DslSpec.WalkDownExamples(s2, Callsite(file, line));
    NestedFrame(s, name, flags, s3);
  }

  lemma {:induction false} ExecCmdFrame(s: WorldState, c: Cmd, fuel: nat)
    requires WF(s) && s.current.Some?
    requires DslSpec.ExecCmd(s, c, fuel).Ok?
    ensures Frame(s, DslSpec.ExecCmd(s, c, fuel).value)
    decreases fuel, CmdSize(c), 0
  {
    match c
    case Describe(d, f, body) => DescribeFrame(s, d, f, body, fuel);
    case Context(d, f, body) => DescribeFrame(s, d, f, body, fuel);
    case FDescribe(d, f, body) => DescribeFrame(s, d, Focus(f), body, fuel);
    case XDescribe(d, f, body) => DescribeFrame(s, d, MarkPending(f), body, fuel);
    case ItBehavesLike(name, f, file, line) => ItBehavesLikeFrame(s, name, f, file, line, fuel);
    case _ => ExecCmdFrameLeaf(s, c, fuel);
  }

  /** Whatever a closure body declares, it keeps to the frame of the group it runs in. */
  lemma {:induction false} ExecFrame(s: WorldState, cmds: seq<Cmd>, fuel: nat)
    requires WF(s) && s.current.Some?
    requires DslSpec.Exec(s, cmds, fuel).Ok?
    ensures Frame(s, DslSpec.Exec(s, cmds, fuel).value)
    decreases fuel, CmdsSize(cmds), 1
  {
    if cmds == [] {
      FrameRefl(s);
    } else {
      var s1 := DslSpec.ExecCmd(s, cmds[0], fuel).value;
      ExecCmdFrame(s, cmds[0], fuel);
      ExecFrame(s1, cmds[1..], fuel);
      FrameTrans(s, s1, DslSpec.Exec(s1, cmds[1..], fuel).value);
    }
  }

  /**
   * Declaration order is listing order: the examples listed below the
   * cursor's group after a step are those listed before it, followed by
   * every example declared in the step, in the order they were declared.
   */
  predicate ListsInOrder(s: WorldState, t: WorldState)
  {
    && s.current.Some? && s.current.value < |s.groups| <= |t.groups| && |s.examples| <= |t.examples|
    && ExamplesBelow(t.groups, s.current.value) ==
       ExamplesBelow(s.groups, s.current.value) + Span(|s.examples|, |t.examples|)
  }

  /** Opening a group under k and running a body there lists the body's examples below k. */
  lemma NestedListing(s: WorldState, description: string, flags: Flags, s2: WorldState)
    requires WF(s) && s.current.Some?
    requires Frame(DslSpec.AppendGroup(s, description, flags).(current := Some(|s.groups|)), s2)
    requires ListsInOrder(DslSpec.AppendGroup(s, description, flags).(current := Some(|s.groups|)), s2)
    ensures ExamplesBelow(s2.groups, |s.groups|) == Span(|s.examples|, |s2.examples|)
    ensures ListsInOrder(s, s2.(current := s2.groups[|s.groups|].parent))
  {
    var k := s.current.value;
    var G := |s.groups|;
    var s1 := DslSpec.AppendGroup(s, description, flags).(current := Some(G));
    assert ExamplesBelow(s1.groups, G) == [];
    assert s2.groups[k] == s1.groups[k];
    BelowAppend(s.groups, s2.groups, |s.examples|, k, GroupChild(G));
  }

  lemma ItListing(s: WorldState, description: string, flags: Flags, file: string, line: nat, closure: ClosureId)
    requires WF(s) && s.current.Some?
    ensures ListsInOrder(s, DslSpec.It(s, description, flags, file, line, closure))
  {
    var t := DslSpec.It(s, description, flags, file, line, closure);
    BelowAppend(s.groups, t.groups, |s.examples|, s.current.value, ExampleChild(|s.examples|));
  }

  lemma {:induction false} DescribeListing(s: WorldState, description: string, flags: Flags, body: seq<Cmd>, fuel: nat)
    requires WF(s) && s.current.Some?
    requires DslSpec.Describe(s, description, flags, body, fuel).Ok?
    ensures ListsInOrder(s, DslSpec.Describe(s, description, flags, body, fuel).value)
    decreases fuel, CmdsSize(body), 2
  {
    var s1 := DslSpec.AppendGroup(s, description, flags).(current := Some(|s.groups|));
    ExecFrame(s1, body, fuel);
    ExecListing(s1, body, fuel);
    NestedListing(s, description, flags, DslSpec.Exec(s1, body, fuel).value);
  }

  lemma {:induction false} ItBehavesLikeListing(s: WorldState, name: string, flags: Flags, file: string, line: nat, fuel: nat)
    requires WF(s) && s.current.Some?
    requires DslSpec.ItBehavesLike(s, name, flags, file, line, fuel).Ok?
    ensures ListsInOrder(s, DslSpec.ItBehavesLike(s, name, flags, file, line, fuel).value)
    decreases fuel, 0, 2
  {
    var s1 := DslSpec.AppendGroup(s, name, flags).(current := Some(|s.groups|));
    var s2 := DslSpec.Exec(s1, s.sharedExamples[name], fuel - 1).value;
    ExecFrame(s1, s.sharedExamples[name], fuel - 1);
    ExecListing(s1, s.sharedExamples[name], fuel - 1);
    WalkFrame(s, name, flags, s2, Callsite(file, line));
    NestedListing(s, name, flags, DslSpec.WalkDownExamples(s2, Callsite(file, line)));
  }

  lemma {:induction false} ExecCmdListing(s: WorldState, c: Cmd, fuel: nat)
    requires WF(s) && s.current.Some?
    requires DslSpec.ExecCmd(s, c, fuel).Ok?
    ensures ListsInOrder(s, DslSpec.ExecCmd(s, c, fuel).value)
    decreases fuel, CmdSize(c), 0
  {
    var t := DslSpec.ExecCmd(s, c, fuel).value;
    match c
    case Describe(d, f, body) => DescribeListing(s, d, f, body, fuel);
    case Context(d, f, body) => DescribeListing(s, d, f, body, fuel);
    case FDescribe(d, f, body) => DescribeListing(s, d, Focus(f), body, fuel);
    case XDescribe(d, f, body) => DescribeListing(s, d, MarkPending(f), body, fuel);
    case ItBehavesLike(name, f, file, line) => ItBehavesLikeListing(s, name, f, file, line, fuel);
    case It(d, f, file, line, cl) => ItListing(s, d, f, file, line, cl);
    case FIt(d, f, file, line, cl) => ItListing(s, d, Focus(f), file, line, cl);
    case XIt(d, f, file, line, cl) => ItListing(s, d, MarkPending(f), file, line, cl);
    case BeforeEach(_) => BelowAgree(s.groups, t.groups, |s.examples|, s.current.value);
    case AfterEach(_) => BelowAgree(s.groups, t.groups, |s.examples|, s.current.value);
    case BeforeSuite(_) =>
    case AfterSuite(_) =>
    case Pending(_, _) =>
    case SharedExamples(_, _) =>
  }

  /**
   * Whatever a closure body declares, the examples listed below the group
   * it runs in are the earlier ones followed by the body's examples, in
   * declaration order.
   */
  lemma {:induction false} ExecListing(s: WorldState, cmds: seq<Cmd>, fuel: nat)
    requires WF(s) && s.current.Some?
    requires DslSpec.Exec(s, cmds, fuel).Ok?
    ensures ListsInOrder(s, DslSpec.Exec(s, cmds, fuel).value)
    decreases fuel, CmdsSize(cmds), 1
  {
    if cmds != [] {
      var s1 := DslSpec.ExecCmd(s, cmds[0], fuel).value;
      var t := DslSpec.Exec(s1, cmds[1..], fuel).value;
      ExecCmdListing(s, cmds[0], fuel);
      ExecListing(s1, cmds[1..], fuel);
      SpanConcat(|s.examples|, |s1.examples|, |t.examples|);
    }
  }

  /**
   * A closure body runs declaration by declaration: running `xs + ys` is
   * running `xs` and then, unless it stopped with an error, `ys` from where
   * `xs` left off.
   */
  lemma {:induction false} ExecConcat(s: WorldState, xs: seq<Cmd>, ys: seq<Cmd>, fuel: nat)
    requires WF(s) && s.current.Some?
    ensures DslSpec.Exec(s, xs + ys, fuel) ==
      match DslSpec.Exec(s, xs, fuel)
      case Err(e) => Err(e)
      case Ok(m) => DslSpec.Exec(m, ys, fuel)
    decreases |xs|
  {
    if xs == [] {
      assert xs + ys == ys;
    } else {
      assert (xs + ys)[0] == xs[0];
      assert (xs + ys)[1..] == xs[1..] + ys;
      match DslSpec.ExecCmd(s, xs[0], fuel) {
        case Err(_) =>
        case Ok(s1) => ExecConcat(s1, xs[1..], ys, fuel);
      }
    }
  }

  /**
   * describe appends exactly one group, with the given description and
   * flags, at the end of the current group's children; everything its body
   * declares lands inside that group: no group that existed before
   * changes, every later group has a parent from the new subtree, and the
   * examples listed below the new group are exactly the body's examples,
   * in declaration order, so the current group lists them after its
   * earlier ones. The cursor is back where it was.
   */
  lemma DescribeAppendsOneGroup(s: WorldState, description: string, flags: Flags, body: seq<Cmd>, fuel: nat)
    requires WF(s) && s.current.Some?
    requires DslSpec.Describe(s, description, flags, body, fuel).Ok?
    ensures var t := DslSpec.Describe(s, description, flags, body, fuel).value;
            var k := s.current.value;
            var G := |s.groups|;
      && G < |t.groups|
      && t.groups[G].description == description
      && t.groups[G].flags == flags
      && t.groups[G].parent == Some(k)
      && t.groups[k].children == s.groups[k].children + [GroupChild(G)]
      && t.groups[k].hooks == s.groups[k].hooks
      && (forall g :: 0 <= g < G && g != k ==> t.groups[g] == s.groups[g])
      && (forall g :: G < g < |t.groups| ==> t.groups[g].parent.Some? && G <= t.groups[g].parent.value)
      && |s.examples| <= |t.examples|
      && (forall e :: 0 <= e < |s.examples| ==> t.examples[e] == s.examples[e])
      && ExamplesBelow(t.groups, G) == Span(|s.examples|, |t.examples|)
      && (forall e :: |s.examples| <= e < |t.examples| <==> e in ExamplesBelow(t.groups, G))
      && ExamplesBelow(t.groups, k) == ExamplesBelow(s.groups, k) + ExamplesBelow(t.groups, G)
      && t.current == s.current
  {
    var k := s.current.value;
    var G := |s.groups|;
    var s1 := DslSpec.AppendGroup(s, description, flags).(current := Some(G));
    var s2 := DslSpec.Exec(s1, body, fuel).value;
    ExecFrame(s1, body, fuel);
    ExecListing(s1, body, fuel);
    NestedListing(s, description, flags, s2);
  }

  /** fdescribe opens a group whose flags are the given ones with focused set. */
  lemma FDescribeFocusesGroup(s: WorldState, description: string, flags: Flags, body: seq<Cmd>, fuel: nat)
    requires WF(s) && s.current.Some?
    requires DslSpec.FDescribe(s, description, flags, body, fuel).Ok?
    ensures var t := DslSpec.FDescribe(s, description, flags, body, fuel).value;
      && |s.groups| < |t.groups|
      && t.groups[|s.groups|].flags == Focus(flags)
      && t.groups[|s.groups|].description == description
      && FocusedKey in t.groups[|s.groups|].flags && t.groups[|s.groups|].flags[FocusedKey]
  {
    DescribeAppendsOneGroup(s, description, Focus(flags), body, fuel);
  }

  /** xdescribe opens a group whose flags are the given ones with pending set. */
  lemma XDescribeMarksGroupPending(s: WorldState, description: string, flags: Flags, body: seq<Cmd>, fuel: nat)
    requires WF(s) && s.current.Some?
    requires DslSpec.XDescribe(s, description, flags, body, fuel).Ok?
    ensures var t := DslSpec.XDescribe(s, description, flags, body, fuel).value;
      && |s.groups| < |t.groups|
      && t.groups[|s.groups|].flags == MarkPending(flags)
      && t.groups[|s.groups|].description == description
      && PendingKey in t.groups[|s.groups|].flags && t.groups[|s.groups|].flags[PendingKey]
  {
    DescribeAppendsOneGroup(s, description, MarkPending(flags), body, fuel);
  }

  /**
   * The describe wrappers: context is describe, and fdescribe/xdescribe are
   * describe on the flags with focused or pending set.
   */
  lemma DescribeVariantsDelegate(s: WorldState, description: string, flags: Flags, body: seq<Cmd>, fuel: nat)
    requires WF(s)
    ensures DslSpec.Context(s, description, flags, body, fuel) == DslSpec.Describe(s, description, flags, body, fuel)
    ensures DslSpec.FDescribe(s, description, flags, body, fuel) == DslSpec.Describe(s, description, Focus(flags), body, fuel)
    ensures DslSpec.XDescribe(s, description, flags, body, fuel) == DslSpec.Describe(s, description, MarkPending(flags), body, fuel)
  {
  }

  /** The it wrappers: fit/xit are it on the flags with focused or pending set. */
  lemma ItVariantsDelegate(s: WorldState, description: string, flags: Flags, file: string, line: nat, closure: ClosureId)
    requires WF(s) && s.current.Some?
    ensures DslSpec.FIt(s, description, flags, file, line, closure) == DslSpec.It(s, description, Focus(flags), file, line, closure)
    ensures DslSpec.XIt(s, description, flags, file, line, closure) == DslSpec.It(s, description, MarkPending(flags), file, line, closure)
  {
  }

  /**
   * it appends one example, with its description, flags and call site and
   * not marked shared, at the end of the current group's children, and
   * changes nothing else.
   */
  lemma ItAppendsOneExample(s: WorldState, description: string, flags: Flags, file: string, line: nat, closure: ClosureId)
    requires WF(s) && s.current.Some?
    ensures var k := s.current.value;
      DslSpec.It(s, description, flags, file, line, closure) ==
        s.(examples := s.examples + [Example(description, Callsite(file, line), flags, closure, false)],
           groups := s.groups[k := s.groups[k].(children := s.groups[k].children + [ExampleChild(|s.examples|)])])
  {
  }

  /**
   * beforeEach and afterEach (either overload) append the hook to the
   * current group's before or after list, and change nothing else.
   */
  lemma EachHooksAppend(s: WorldState, hook: Hook)
    requires WF(s) && s.current.Some?
    ensures var k := s.current.value;
      DslSpec.BeforeEach(s, hook) ==
        s.(groups := s.groups[k := s.groups[k].(hooks := Hooks(s.groups[k].hooks.befores + [hook], s.groups[k].hooks.afters))])
    ensures var k := s.current.value;
      DslSpec.AfterEach(s, hook) ==
        s.(groups := s.groups[k := s.groups[k].(hooks := Hooks(s.groups[k].hooks.befores, s.groups[k].hooks.afters + [hook]))])
  {
  }

  /** beforeSuite and afterSuite append to the suite hooks only, never to a group. */
  lemma SuiteHooksAppend(s: WorldState, closure: ClosureId)
    ensures DslSpec.BeforeSuite(s, closure) ==
      s.(suiteHooks := Hooks(s.suiteHooks.befores + [Plain(closure)], s.suiteHooks.afters))
    ensures DslSpec.AfterSuite(s, closure) ==
      s.(suiteHooks := Hooks(s.suiteHooks.befores, s.suiteHooks.afters + [Plain(closure)]))
  {
  }

  /** pending registers nothing and does not run its body; it only logs one line. */
  lemma PendingRegistersNothing(s: WorldState, description: string, body: seq<Cmd>, fuel: nat)
    requires WF(s) && s.current.Some?
    ensures DslSpec.ExecCmd(s, Pending(description, body), fuel) == Ok(s.(log := s.log + ["Pending: " + description]))
  {
  }

  /**
   * itBehavesLike appends one group named after the shared example, with
   * the given flags, under the current group; afterwards every example
   * below that group, nested shared expansions included, is a shared
   * example attributed to the itBehavesLike call site; earlier examples
   * are unchanged and the cursor is back where it was.
   */
  lemma ItBehavesLikeReattributes(s: WorldState, name: string, flags: Flags, file: string, line: nat, fuel: nat)
    requires WF(s) && s.current.Some?
    requires DslSpec.ItBehavesLike(s, name, flags, file, line, fuel).Ok?
    ensures var t := DslSpec.ItBehavesLike(s, name, flags, file, line, fuel).value;
            var k := s.current.value;
            var G := |s.groups|;
      && G < |t.groups|
      && t.groups[G].description == name
      && t.groups[G].flags == flags
      && t.groups[G].parent == Some(k)
      && t.groups[k].children == s.groups[k].children + [GroupChild(G)]
      && t.groups[k].hooks == s.groups[k].hooks
      && (forall g :: 0 <= g < G && g != k ==> t.groups[g] == s.groups[g])
      && (forall g :: G < g < |t.groups| ==> t.groups[g].parent.Some? && G <= t.groups[g].parent.value)
      && |s.examples| <= |t.examples|
      && ExamplesBelow(t.groups, G) == Span(|s.examples|, |t.examples|)
      && (forall e :: |s.examples| <= e < |t.examples| <==> e in ExamplesBelow(t.groups, G))
      && (forall e :: e in ExamplesBelow(t.groups, G) ==>
            e < |t.examples| && t.examples[e].isSharedExample && t.examples[e].callsite == Callsite(file, line))
      && (forall e :: 0 <= e < |s.examples| ==> t.examples[e] == s.examples[e])
      && t.current == s.current
  {
    var k := s.current.value;
    var G := |s.groups|;
    var s1 := DslSpec.AppendGroup(s, name, flags).(current := Some(G));
    var s2 := DslSpec.Exec(s1, s.sharedExamples[name], fuel - 1).value;
    var s3 := DslSpec.WalkDownExamples(s2, Callsite(file, line));
    ExecFrame(s1, s.sharedExamples[name], fuel - 1);
    ExecListing(s1, s.sharedExamples[name], fuel - 1);
    WalkFrame(s, name, flags, s2, Callsite(file, line));
    ExpansionShape(s, name, flags, s3);
    ExpansionListing(s, name, flags, s2, Callsite(file, line));
  }

  /** The groups after opening a group under k and expanding a body there. */
  lemma ExpansionShape(s: WorldState, name: string, flags: Flags, s3: WorldState)
    requires WF(s) && s.current.Some?
    requires Frame(DslSpec.AppendGroup(s, name, flags).(current := Some(|s.groups|)), s3)
    ensures var k := s.current.value;
            var G := |s.groups|;
      && G < |s3.groups|
      && s3.groups[G].description == name
      && s3.groups[G].flags == flags
      && s3.groups[G].parent == Some(k)
      && s3.groups[k].children == s.groups[k].children + [GroupChild(G)]
      && s3.groups[k].hooks == s.groups[k].hooks
      && (forall g :: 0 <= g < G && g != k ==> s3.groups[g] == s.groups[g])
      && (forall g :: G < g < |s3.groups| ==> s3.groups[g].parent.Some? && G <= s3.groups[g].parent.value)
      && (forall e :: 0 <= e < |s.examples| ==> s3.examples[e] == s.examples[e])
  {
    var k := s.current.value;
    var s1 := DslSpec.AppendGroup(s, name, flags).(current := Some(|s.groups|));
    assert s3.groups[k] == s1.groups[k];
  }

  /** After the walk, the examples below the shared group are the body's, each at the call site. */
  lemma ExpansionListing(s: WorldState, name: string, flags: Flags, s2: WorldState, callsite: Callsite)
    requires WF(s) && s.current.Some? && WF(s2)
    requires Frame(DslSpec.AppendGroup(s, name, flags).(current := Some(|s.groups|)), s2)
    requires ListsInOrder(DslSpec.AppendGroup(s, name, flags).(current := Some(|s.groups|)), s2)
    ensures var s3 := DslSpec.WalkDownExamples(s2, callsite);
            var G := |s.groups|;
      && G < |s3.groups| && |s.examples| <= |s3.examples|
      && ExamplesBelow(s3.groups, G) == Span(|s.examples|, |s3.examples|)
      && (forall e :: |s.examples| <= e < |s3.examples| <==> e in ExamplesBelow(s3.groups, G))
      && (forall e :: e in ExamplesBelow(s3.groups, G) ==>
            e < |s3.examples| && s3.examples[e].isSharedExample && s3.examples[e].callsite == callsite)
  {
    var G := |s.groups|;
    var s1 := DslSpec.AppendGroup(s, name, flags).(current := Some(G));
    assert ExamplesBelow(s1.groups, G) == [];
    TreeExamplesExist(s2.groups, |s2.examples|, G);
  }

  /**
   * itBehavesLike is describe over the registered shared body, one level
   * of the expansion bound down, followed by the walk that re-attributes
   * the examples below the new group to the call site.
   */
  lemma ItBehavesLikeIsDescribeThenWalk(s: WorldState, name: string, flags: Flags, file: string, line: nat, fuel: nat)
    requires WF(s) && s.current.Some? && name in s.sharedExamples && fuel > 0
    ensures DslSpec.ItBehavesLike(s, name, flags, file, line, fuel) ==
      match DslSpec.Describe(s, name, flags, s.sharedExamples[name], fuel - 1)
      case Err(e) => Err(e)
      case Ok(v) => Ok(DslSpec.WalkDownExamples(v.(current := Some(|s.groups|)), Callsite(file, line)).(current := s.current))
  {
  }

  /**
   * The expansion bound only cuts off expansions: a registration that
   * completes with some bound completes the same way with any larger one.
   */
  lemma {:induction false} ExecFuelMono(s: WorldState, cmds: seq<Cmd>, fuel: nat, fuel': nat)
    requires WF(s) && s.current.Some? && fuel <= fuel'
    requires DslSpec.Exec(s, cmds, fuel).Ok?
    ensures DslSpec.Exec(s, cmds, fuel') == DslSpec.Exec(s, cmds, fuel)
    decreases fuel, CmdsSize(cmds), 1
  {
    if cmds != [] {
      ExecCmdFuelMono(s, cmds[0], fuel, fuel');
      ExecFuelMono(DslSpec.ExecCmd(s, cmds[0], fuel).value, cmds[1..], fuel, fuel');
    }
  }

  lemma {:induction false} ExecCmdFuelMono(s: WorldState, c: Cmd, fuel: nat, fuel': nat)
    requires WF(s) && s.current.Some? && fuel <= fuel'
    requires DslSpec.ExecCmd(s, c, fuel).Ok?
    ensures DslSpec.ExecCmd(s, c, fuel') == DslSpec.ExecCmd(s, c, fuel)
    decreases fuel, CmdSize(c), 0
  {
    match c
    case Describe(d, f, body) => DescribeFuelMono(s, d, f, body, fuel, fuel');
    case Context(d, f, body) => DescribeFuelMono(s, d, f, body, fuel, fuel');
    case FDescribe(d, f, body) => DescribeFuelMono(s, d, Focus(f), body, fuel, fuel');
    case XDescribe(d, f, body) => DescribeFuelMono(s, d, MarkPending(f), body, fuel, fuel');
    case ItBehavesLike(name, f, file, line) => ItBehavesLikeFuelMono(s, name, f, file, line, fuel, fuel');
    case _ =>
  }

  lemma {:induction false} DescribeFuelMono(s: WorldState, description: string, flags: Flags, body: seq<Cmd>, fuel: nat, fuel': nat)
    requires WF(s) && fuel <= fuel'
    requires DslSpec.Describe(s, description, flags, body, fuel).Ok?
    ensures DslSpec.Describe(s, description, flags, body, fuel') == DslSpec.Describe(s, description, flags, body, fuel)
    decreases fuel, CmdsSize(body), 2
  {
    var s1 := DslSpec.AppendGroup(s, description, flags).(current := Some(|s.groups|));
    ExecFuelMono(s1, body, fuel, fuel');
  }

  lemma {:induction false} ItBehavesLikeFuelMono(s: WorldState, name: string, flags: Flags, file: string, line: nat, fuel: nat, fuel': nat)
    requires WF(s) && s.current.Some? && fuel <= fuel'
    requires DslSpec.ItBehavesLike(s, name, flags, file, line, fuel).Ok?
    ensures DslSpec.ItBehavesLike(s, name, flags, file, line, fuel') == DslSpec.ItBehavesLike(s, name, flags, file, line, fuel)
    decreases fuel, 0, 2
  {
    var s1 := DslSpec.AppendGroup(s, name, flags).(current := Some(|s.groups|));
    ExecFuelMono(s1, s.sharedExamples[name], fuel - 1, fuel' - 1);
  }
}

