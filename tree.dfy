/**
 * The shape of the example-group tree held in the World's arenas, the
 * pre-order listing of the examples below a group, and the re-attribution
 * that itBehavesLike applies to them.
 */
module Tree {
  import opened Entities

  /** A child entry refers to an existing example or to a later-created group. */
  predicate ChildOk(ch: Child, g: nat, nGroups: nat, nExamples: nat)
  {
    match ch
    case ExampleChild(e) => e < nExamples
    case GroupChild(c) => g < c < nGroups
  }

  /** Group `g`'s parent was created before it, and all its children exist. */
  predicate GroupOk(grp: Group, g: nat, nGroups: nat, nExamples: nat)
  {
    && (grp.parent.Some? ==> grp.parent.value < g)
    && forall i :: 0 <= i < |grp.children| ==> ChildOk(grp.children[i], g, nGroups, nExamples)
  }

  predicate TreeOk(groups: seq<Group>, nExamples: nat)
  {
    forall g :: 0 <= g < |groups| ==> GroupOk(groups[g], g, |groups|, nExamples)
  }

  /** The World invariant: the cursor and every stored index point at existing entries. */
  predicate WF(s: WorldState)
  {
    && TreeOk(s.groups, |s.examples|)
    && (s.current.Some? ==> s.current.value < |s.groups|)
    && (forall n :: n in s.roots ==> s.roots[n] < |s.groups|)
  }

  lemma GroupOkGrows(grp: Group, g: nat, nGroups: nat, nExamples: nat, nGroups': nat, nExamples': nat)
    requires GroupOk(grp, g, nGroups, nExamples)
    requires nGroups <= nGroups' && nExamples <= nExamples'
    ensures GroupOk(grp, g, nGroups', nExamples')
  {
    forall i | 0 <= i < |grp.children|
      ensures ChildOk(grp.children[i], g, nGroups', nExamples')
    {
      assert ChildOk(grp.children[i], g, nGroups, nExamples);
    }
  }

  /**
   * The examples transitively below group `g`, in pre-order declaration
   * order: what walkDownExamples visits. An example is listed exactly when
   * one of the group's children contributes it: it is that child, or it is
   * listed below that child group.
   */
  function ExamplesBelow(groups: seq<Group>, g: nat): (r: seq<nat>)
    requires g < |groups|
    ensures forall j, e :: 0 <= j < |groups[g].children| && e in ChildExamples(groups, g, groups[g].children[j]) ==> e in r
    ensures forall e :: e in r ==>
      exists j :: 0 <= j < |groups[g].children| && e in ChildExamples(groups, g, groups[g].children[j])
    decreases |groups| - g, |groups[g].children| + 1
  {
    ExamplesFrom(groups, g, 0)
  }

  /** The examples below children i.. of group `g`. */
  function ExamplesFrom(groups: seq<Group>, g: nat, i: nat): (r: seq<nat>)
    requires g < |groups|
    ensures forall j, e :: i <= j < |groups[g].children| && e in ChildExamples(groups, g, groups[g].children[j]) ==> e in r
    ensures forall e :: e in r ==>
      exists j :: i <= j < |groups[g].children| && e in ChildExamples(groups, g, groups[g].children[j])
    decreases |groups| - g, |groups[g].children| - i
  {
    if i >= |groups[g].children| then []
    else ChildExamples(groups, g, groups[g].children[i]) + ExamplesFrom(groups, g, i + 1)
  }

  /** The examples one child of group `g` contributes: itself, or the examples below it. */
  function ChildExamples(groups: seq<Group>, g: nat, ch: Child): seq<nat>
    requires g < |groups|
    decreases |groups| - g, 0
  {
    match ch
    case ExampleChild(e) => [e]
    case GroupChild(c) => if g < c < |groups| then ExamplesBelow(groups, c) else []
  }

  /** The example numbers lo, lo + 1, ..., hi - 1: the examples declared between two states. */
  function Span(lo: nat, hi: nat): (r: seq<nat>)
    requires lo <= hi
    ensures |r| == hi - lo
    ensures forall i :: 0 <= i < |r| ==> r[i] == lo + i
    ensures forall e :: e in r <==> lo <= e < hi
    decreases hi - lo
  {
    if lo == hi then [] else [lo] + Span(lo + 1, hi)
  }

  lemma SpanConcat(lo: nat, mid: nat, hi: nat)
    requires lo <= mid <= hi
    ensures Span(lo, mid) + Span(mid, hi) == Span(lo, hi)
  {
    assert forall i :: 0 <= i < hi - lo ==> (Span(lo, mid) + Span(mid, hi))[i] == lo + i;
  }

  /**
   * The listing below group `c` depends only on the children lists of `c`
   * and the groups after it: two arenas that agree there list the same
   * examples, whatever else differs (hooks, earlier groups, groups added
   * at the end).
   */
  lemma {:induction false} BelowAgree(a: seq<Group>, b: seq<Group>, n: nat, c: nat)
    requires TreeOk(a, n) && c < |a| <= |b|
    requires forall h :: c <= h < |a| ==> b[h].children == a[h].children
    ensures ExamplesBelow(b, c) == ExamplesBelow(a, c)
    decreases |a| - c, |a[c].children| + 1
  {
    FromAgree(a, b, n, c, 0);
  }

  lemma {:induction false} FromAgree(a: seq<Group>, b: seq<Group>, n: nat, c: nat, i: nat)
    requires TreeOk(a, n) && c < |a| <= |b|
    requires forall h :: c <= h < |a| ==> b[h].children == a[h].children
    ensures ExamplesFrom(b, c, i) == ExamplesFrom(a, c, i)
    decreases |a| - c, |a[c].children| - i
  {
    if i < |a[c].children| {
      assert GroupOk(a[c], c, |a|, n);
      assert ChildOk(a[c].children[i], c, |a|, n);
      match a[c].children[i] {
        case ExampleChild(_) =>
        case GroupChild(x) => BelowAgree(a, b, n, x);
      }
      FromAgree(a, b, n, c, i + 1);
    }
  }

  /**
   * Appending a child to group `k`, with the groups after `k` keeping
   * their children, appends that child's examples to the listing below `k`.
   */
  lemma BelowAppend(a: seq<Group>, b: seq<Group>, n: nat, k: nat, ch: Child)
    requires TreeOk(a, n) && k < |a| <= |b|
    requires b[k].children == a[k].children + [ch]
    requires forall h :: k < h < |a| ==> b[h].children == a[h].children
    ensures ExamplesBelow(b, k) == ExamplesBelow(a, k) + ChildExamples(b, k, ch)
  {
    FromAppend(a, b, n, k, ch, 0);
  }

  lemma {:induction false} FromAppend(a: seq<Group>, b: seq<Group>, n: nat, k: nat, ch: Child, i: nat)
    requires TreeOk(a, n) && k < |a| <= |b|
    requires b[k].children == a[k].children + [ch]
    requires forall h :: k < h < |a| ==> b[h].children == a[h].children
    requires i <= |a[k].children|
    ensures ExamplesFrom(b, k, i) == ExamplesFrom(a, k, i) + ChildExamples(b, k, ch)
    decreases |a[k].children| - i
  {
    if i == |a[k].children| {
      assert b[k].children[i] == ch;
      assert ExamplesFrom(b, k, i + 1) == [];
    } else {
      assert b[k].children[i] == a[k].children[i];
      assert GroupOk(a[k], k, |a|, n);
      assert ChildOk(a[k].children[i], k, |a|, n);
      match a[k].children[i] {
        case ExampleChild(_) =>
        case GroupChild(x) => BelowAgree(a, b, n, x);
      }
      FromAppend(a, b, n, k, ch, i + 1);
    }
  }

  /**
   * Every group from `first` on holds only examples in [lo, hi) and only
   * later groups as children.
   */
  predicate ExamplesWithin(groups: seq<Group>, first: nat, lo: nat, hi: nat)
  {
    forall h :: first <= h < |groups| ==> ChildrenWithin(groups[h], h, |groups|, lo, hi)
  }

  predicate ChildrenWithin(grp: Group, h: nat, nGroups: nat, lo: nat, hi: nat)
  {
    forall i :: 0 <= i < |grp.children| ==> ChildWithin(grp.children[i], h, nGroups, lo, hi)
  }

  predicate ChildWithin(ch: Child, h: nat, nGroups: nat, lo: nat, hi: nat)
  {
    match ch
    case ExampleChild(e) => lo <= e < hi
    case GroupChild(c) => h < c < nGroups
  }

  lemma {:induction false} ExamplesBelowWithin(groups: seq<Group>, first: nat, lo: nat, hi: nat, g: nat)
    requires ExamplesWithin(groups, first, lo, hi)
    requires first <= g < |groups|
    ensures forall j :: 0 <= j < |ExamplesBelow(groups, g)| ==> lo <= ExamplesBelow(groups, g)[j] < hi
    decreases |groups| - g, |groups[g].children| + 1
  {
    ExamplesFromWithin(groups, first, lo, hi, g, 0);
  }

  lemma {:induction false} ExamplesFromWithin(groups: seq<Group>, first: nat, lo: nat, hi: nat, g: nat, i: nat)
    requires ExamplesWithin(groups, first, lo, hi)
    requires first <= g < |groups|
    ensures forall j :: 0 <= j < |ExamplesFrom(groups, g, i)| ==> lo <= ExamplesFrom(groups, g, i)[j] < hi
    decreases |groups| - g, |groups[g].children| - i
  {
    if i < |groups[g].children| {
      assert ChildrenWithin(groups[g], g, |groups|, lo, hi);
      assert ChildWithin(groups[g].children[i], g, |groups|, lo, hi);
      var here := ChildExamples(groups, g, groups[g].children[i]);
      match groups[g].children[i] {
        case ExampleChild(e) =>
        case GroupChild(c) =>
          ExamplesBelowWithin(groups, first, lo, hi, c);
          assert here == ExamplesBelow(groups, c);
      }
      ExamplesFromWithin(groups, first, lo, hi, g, i + 1);
      assert ExamplesFrom(groups, g, i) == here + ExamplesFrom(groups, g, i + 1);
    }
  }

  /** A well-formed tree lists only existing examples below any group. */
  lemma TreeExamplesExist(groups: seq<Group>, nExamples: nat, g: nat)
    requires TreeOk(groups, nExamples) && g < |groups|
    ensures forall j :: 0 <= j < |ExamplesBelow(groups, g)| ==> ExamplesBelow(groups, g)[j] < nExamples
  {
    forall h | 0 <= h < |groups|
      ensures ChildrenWithin(groups[h], h, |groups|, 0, nExamples)
    {
      assert GroupOk(groups[h], h, |groups|, nExamples);
      forall i | 0 <= i < |groups[h].children|
        ensures ChildWithin(groups[h].children[i], h, |groups|, 0, nExamples)
      {
        assert ChildOk(groups[h].children[i], h, |groups|, nExamples);
      }
    }
    ExamplesBelowWithin(groups, 0, 0, nExamples, g);
  }

  /** What the walk in itBehavesLike does to one example. */
  function AttributeTo(ex: Example, callsite: Callsite): Example
  {
    ex.(isSharedExample := true, callsite := callsite)
  }

  /**
   * The examples after the walk over `ids` marks each visited one as a
   * shared-example instance declared at `callsite`.
   */
  function Reattribute(examples: seq<Example>, ids: seq<nat>, callsite: Callsite): (r: seq<Example>)
    requires forall j :: 0 <= j < |ids| ==> ids[j] < |examples|
    ensures |r| == |examples|
    ensures forall e :: 0 <= e < |r| && e in ids ==> r[e].isSharedExample && r[e].callsite == callsite
    ensures forall e :: 0 <= e < |r| && e in ids ==>
      r[e].description == examples[e].description && r[e].flags == examples[e].flags && r[e].closure == examples[e].closure
    ensures forall e :: 0 <= e < |r| && e !in ids ==> r[e] == examples[e]
  {
    if ids == [] then examples
    else
      var last := ids[|ids| - 1];
      var before := Reattribute(examples, ids[..|ids| - 1], callsite);
      assert forall e :: e in ids <==> e in ids[..|ids| - 1] || e == last;
      before[last := AttributeTo(before[last], callsite)]
  }
}
