/**
 * QuickSpec.swift: constructing a spec registers its examples exactly once,
 * with the World's cursor bracketed around spec(); allTests lists one named
 * entry per example.
 */
module QuickSpecModel {
  import opened Entities
  import opened Tree
  import DslSpec
  import opened WorldDsl
  import DslProperties
  import DslCompletion

  /**
   * gatherExamples: point the cursor at the spec class's root group, run
   * spec(), then clear the cursor.
   */
  function Gather(s: WorldState, specClass: string, spec: seq<Cmd>, fuel: nat): (r: Result<WorldState>)
    requires WF(s)
    ensures r.Ok? ==> WF(r.value) && r.value.current == None
  {
    var s1 := DslSpec.WithRoot(s, specClass);
    var s2 :- DslSpec.Exec(s1.(current := Some(s1.roots[specClass])), spec, fuel);
    Ok(s2.(current := None))
  }

  /**
   * While spec() runs, the cursor starts at the class's root group and is
   * back there when spec() returns, just before gatherExamples clears it;
   * top-level declarations become children or hooks of the root (which
   * keeps its description, flags and parent), and no group outside the
   * root's subtree changes; the examples spec() declares are listed below
   * the root after its earlier ones, in declaration order.
   */
  lemma {:induction false} GatherBracketsSpec(s: WorldState, specClass: string, spec: seq<Cmd>, fuel: nat)
    requires WF(s)
    requires Gather(s, specClass, spec, fuel).Ok?
    ensures var s1 := DslSpec.WithRoot(s, specClass);
            var root := s1.roots[specClass];
            var during := DslSpec.Exec(s1.(current := Some(root)), spec, fuel);
      && during.Ok?
      && during.value.current == Some(root)
      && Gather(s, specClass, spec, fuel).value == during.value.(current := None)
      && |s1.groups| <= |during.value.groups|
      && DslProperties.Extends(s1.groups[root], during.value.groups[root])
      && (forall g :: 0 <= g < |s1.groups| && g != root ==> during.value.groups[g] == s1.groups[g])
      && (forall g :: |s1.groups| <= g < |during.value.groups| ==>
            during.value.groups[g].parent.Some? &&
            (during.value.groups[g].parent.value == root || |s1.groups| <= during.value.groups[g].parent.value))
      && |s1.examples| <= |during.value.examples|
      && ExamplesBelow(during.value.groups, root) ==
         ExamplesBelow(s1.groups, root) + Span(|s1.examples|, |during.value.examples|)
  {
    var s1 := DslSpec.WithRoot(s, specClass);
    var root := s1.roots[specClass];
    DslProperties.ExecFrame(s1.(current := Some(root)), spec, fuel);
    DslProperties.ExecListing(s1.(current := Some(root)), spec, fuel);
  }

  /** A registration that completes with some expansion bound completes the same way with any larger one. */
  lemma GatherFuelMono(s: WorldState, specClass: string, spec: seq<Cmd>, fuel: nat, fuel': nat)
    requires WF(s) && fuel <= fuel'
    requires Gather(s, specClass, spec, fuel).Ok?
    ensures Gather(s, specClass, spec, fuel') == Gather(s, specClass, spec, fuel)
  {
    var s1 := DslSpec.WithRoot(s, specClass);
    DslProperties.ExecFuelMono(s1.(current := Some(s1.roots[specClass])), spec, fuel, fuel');
  }

  /**
   * gatherExamples fails only for a shared-example reason, never for a
   * missing cursor, and a spec() without shared examples always registers.
   */
  lemma GatherCompletes(s: WorldState, specClass: string, spec: seq<Cmd>, fuel: nat)
    requires WF(s)
    ensures Gather(s, specClass, spec, fuel).Err? ==>
      DslCompletion.SharedExampleError(Gather(s, specClass, spec, fuel).error)
    ensures DslCompletion.NoShared(spec) ==> Gather(s, specClass, spec, fuel).Ok?
  {
    var s1 := DslSpec.WithRoot(s, specClass);
    DslCompletion.ExecErrorIsShared(s1.(current := Some(s1.roots[specClass])), spec, fuel);
    if DslCompletion.NoShared(spec) {
      DslCompletion.ExecCompletes(s1.(current := Some(s1.roots[specClass])), spec, fuel);
    }
  }

  /** The root group of a spec class is created once and then reused. */
  lemma RootGroupIsMemoized(s: WorldState, specClass: string)
    requires WF(s)
    ensures var s1 := DslSpec.WithRoot(s, specClass);
      && DslSpec.WithRoot(s1, specClass) == s1
      && (specClass in s.roots ==> s1.roots[specClass] == s.roots[specClass])
      && (specClass !in s.roots ==> s1.roots[specClass] == |s.groups| && s1.groups[|s.groups|].parent == None)
  {
  }

  /** One allTests entry: the example's name and the example its closure runs. */
  datatype TestEntry = TestEntry(name: string, example: nat)

  /** allTests: one entry per example of the class, in order, named by `nameOf`. */
  function AllTests(examples: seq<nat>, nameOf: nat -> string): (r: seq<TestEntry>)
    ensures |r| == |examples|
    ensures forall i :: 0 <= i < |r| ==> r[i].name == nameOf(examples[i]) && r[i].example == examples[i]
  {
    if examples == [] then []
    else [TestEntry(nameOf(examples[0]), examples[0])] + AllTests(examples[1..], nameOf)
  }

  class QuickSpec {
    const world: World
    const specClass: string
    const spec: seq<Cmd>  // what this class's spec() declares

    /** init: registration runs once, when the spec is constructed. */
    constructor (world: World, specClass: string, spec: seq<Cmd>, fuel: nat)
      requires world.Valid()
      modifies world
      ensures this.world == world && this.specClass == specClass && this.spec == spec
      ensures Gather(old(world.State()), specClass, spec, fuel).Ok? ==>
        world.State() == Gather(old(world.State()), specClass, spec, fuel).value
    {
      this.world := world;
      this.specClass := specClass;
      this.spec := spec;
      new;
      var outcome := GatherExamples(fuel);
    }

    method GatherExamples(fuel: nat) returns (outcome: Outcome)
      requires world.Valid()
      modifies world
      ensures Reflects(Gather(old(world.State()), specClass, spec, fuel), outcome, world.State())
    {
      var root := world.RootExampleGroupForSpecClass(specClass);
      world.currentExampleGroup := Some(root);
      outcome := world.Run(spec, fuel);
      if outcome.Failed? {
        return;
      }
      world.currentExampleGroup := None;
    }
  }
}
