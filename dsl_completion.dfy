/**
 * When registration completes. Inside spec() the cursor is never nil, so a
 * describe nested at any depth finds its current group; the only
 * declarations that can stop registration are the shared-example ones.
 */
module DslCompletion {
  import opened Entities
  import opened Tree
  import DslSpec

  /** No sharedExamples and no itBehavesLike among `cmds`, at any describe nesting. */
  predicate NoShared(cmds: seq<Cmd>)
  {
    forall i :: 0 <= i < |cmds| ==> NoSharedCmd(cmds[i])
  }

  predicate NoSharedCmd(c: Cmd)
  {
    match c
    case Describe(_, _, body) => forall i :: 0 <= i < |body| ==> NoSharedCmd(body[i])
    case Context(_, _, body) => forall i :: 0 <= i < |body| ==> NoSharedCmd(body[i])
    case FDescribe(_, _, body) => forall i :: 0 <= i < |body| ==> NoSharedCmd(body[i])
    case XDescribe(_, _, body) => forall i :: 0 <= i < |body| ==> NoSharedCmd(body[i])
    case ItBehavesLike(_, _, _, _) => false
    case SharedExamples(_, _) => false
    case _ => true
  }

  /** The errors only shared examples can raise: a missing cursor is never one. */
  predicate SharedExampleError(e: Error)
  {
    e.UndefinedSharedExample? || e.DuplicateSharedExample? || e.ExpansionTooDeep?
  }

  /** A body without shared examples, run with a cursor, always completes, whatever the bound. */
  lemma {:induction false} ExecCompletes(s: WorldState, cmds: seq<Cmd>, fuel: nat)
    requires WF(s) && s.current.Some? && NoShared(cmds)
    ensures DslSpec.Exec(s, cmds, fuel).Ok?
    decreases fuel, CmdsSize(cmds), 1
  {
    if cmds != [] {
      ExecCmdCompletes(s, cmds[0], fuel);
      assert NoShared(cmds[1..]) by {
        forall i | 0 <= i < |cmds[1..]| ensures NoSharedCmd(cmds[1..][i]) {
          assert cmds[1..][i] == cmds[i + 1];
        }
      }
      ExecCompletes(DslSpec.ExecCmd(s, cmds[0], fuel).value, cmds[1..], fuel);
    }
  }

  lemma {:induction false} ExecCmdCompletes(s: WorldState, c: Cmd, fuel: nat)
    requires WF(s) && s.current.Some? && NoSharedCmd(c)
    ensures DslSpec.ExecCmd(s, c, fuel).Ok?
    decreases fuel, CmdSize(c), 0
  {
    match c
    case Describe(d, f, body) => DescribeCompletes(s, d, f, body, fuel);
    case Context(d, f, body) => DescribeCompletes(s, d, f, body, fuel);
    case FDescribe(d, f, body) => DescribeCompletes(s, d, Focus(f), body, fuel);
    case XDescribe(d, f, body) => DescribeCompletes(s, d, MarkPending(f), body, fuel);
    case _ =>
  }

  lemma {:induction false} DescribeCompletes(s: WorldState, description: string, flags: Flags, body: seq<Cmd>, fuel: nat)
    requires WF(s) && s.current.Some? && NoShared(body)
    ensures DslSpec.Describe(s, description, flags, body, fuel).Ok?
    decreases fuel, CmdsSize(body), 2
  {
    ExecCompletes(DslSpec.AppendGroup(s, description, flags).(current := Some(|s.groups|)), body, fuel);
  }

  /** Run with a cursor, a body that stops does so for a shared-example reason only. */
  lemma {:induction false} ExecErrorIsShared(s: WorldState, cmds: seq<Cmd>, fuel: nat)
    requires WF(s) && s.current.Some?
    ensures DslSpec.Exec(s, cmds, fuel).Err? ==> SharedExampleError(DslSpec.Exec(s, cmds, fuel).error)
    decreases fuel, CmdsSize(cmds), 1
  {
    if cmds != [] {
      ExecCmdErrorIsShared(s, cmds[0], fuel);
      if DslSpec.ExecCmd(s, cmds[0], fuel).Ok? {
        ExecErrorIsShared(DslSpec.ExecCmd(s, cmds[0], fuel).value, cmds[1..], fuel);
      }
    }
  }

  lemma {:induction false} ExecCmdErrorIsShared(s: WorldState, c: Cmd, fuel: nat)
    requires WF(s) && s.current.Some?
    ensures DslSpec.ExecCmd(s, c, fuel).Err? ==> SharedExampleError(DslSpec.ExecCmd(s, c, fuel).error)
    decreases fuel, CmdSize(c), 0
  {
    match c
    case Describe(d, f, body) => DescribeErrorIsShared(s, d, f, body, fuel);
    case Context(d, f, body) => DescribeErrorIsShared(s, d, f, body, fuel);
    case FDescribe(d, f, body) => DescribeErrorIsShared(s, d, Focus(f), body, fuel);
    case XDescribe(d, f, body) => DescribeErrorIsShared(s, d, MarkPending(f), body, fuel);
    case ItBehavesLike(name, f, file, line) => ItBehavesLikeErrorIsShared(s, name, f, file, line, fuel);
    case _ =>
  }

  lemma {:induction false} DescribeErrorIsShared(s: WorldState, description: string, flags: Flags, body: seq<Cmd>, fuel: nat)
    requires WF(s) && s.current.Some?
    ensures DslSpec.Describe(s, description, flags, body, fuel).Err? ==>
      SharedExampleError(DslSpec.Describe(s, description, flags, body, fuel).error)
    decreases fuel, CmdsSize(body), 2
  {
    ExecErrorIsShared(DslSpec.AppendGroup(s, description, flags).(current := Some(|s.groups|)), body, fuel);
  }

  lemma {:induction false} ItBehavesLikeErrorIsShared(s: WorldState, name: string, flags: Flags, file: string, line: nat, fuel: nat)
    requires WF(s) && s.current.Some?
    ensures DslSpec.ItBehavesLike(s, name, flags, file, line, fuel).Err? ==>
      SharedExampleError(DslSpec.ItBehavesLike(s, name, flags, file, line, fuel).error)
    decreases fuel, 0, 2
  {
    if name in s.sharedExamples && fuel > 0 {
      ExecErrorIsShared(DslSpec.AppendGroup(s, name, flags).(current := Some(|s.groups|)), s.sharedExamples[name], fuel - 1);
    }
  }
}
