/**
 What holds at each program point of each handler of `McpPipeline`, and that returns undo it.

 - Expected is a table: for a tool and a program counter, the globals, the stack of undo actions and the held restores
   of a call that found the globals g. InReplay is the part of it inside replayBundle.
 - StepFollowsTable: every instruction leads from one row to the next; ReplayFollowsTable: those of replayBundle.
 - ReturnRestores: in each row in which the handler can return, popping all undo actions gives g back and releases
   the mutex last.
 - LeaveRestores: where replayBundle returns, popping its own undo actions gives g back and leads to the next row.
 */
module McpTable {
  import opened Wrappers
  import opened ProcessState
  import opened McpPipeline

  const OUTER: Stack<Undo> := Push(Unlock, Empty)

  /** The state inside replayBundle, `offset` instructions after its `Enter`. */
  function InReplay(offset: int, slot: nat, call: Call, i: nat, g: Globals): Local {
    var replay := Replay(i, slot);
    var m := call.At(slot);
    var outer := Push(OUTER, Empty);
    var d1 := Push(PutSource(g.source), Empty);
    var d2 := Push(ClearGap, d1);
    var d3 := Push(PutIdentity(g.identity), d2);
    var d4 := Push(PutPlatform(g.platform), d3);
    var g1 := g.(source := replay);
    var g2 := g1.(gapCount := Some(replay));
    if offset <= 0 || offset >= 8 then Local(g, outer, Empty)
    else if offset == 1 then Local(g, Push(Empty, outer), Empty)
    else if offset == 2 then Local(g1, Push(d1, outer), Empty)
    else if offset == 3 then Local(g2, Push(d2, outer), Empty)
    else if offset == 4 then Local(g2.(identity := IdentityOf(m)), Push(d3, outer), Empty)
    else Local(ReplayView(g, replay, m), Push(d4, outer), Empty)
  }

  /** Globals and undo stacks of call `i` when it is about to execute instruction `pc`. */
  function Expected(call: Call, i: nat, pc: nat, g: Globals): Local {
    var base := Local(g, Push(OUTER, Empty), Empty);
    var renamed := g.(identity := IdentityOf(call.first));
    var pinned := renamed.(platform := PlatformOf(call.first));
    var undo1 := Push(PutIdentity(g.identity), Empty);
    if pc <= 1 then Local(g, Push(Empty, Empty), Empty)
    else
      match call.tool
      case ToolHealth => base
      case ToolCapture =>
        if pc < 4 then base
        else Local(g.(source := Recorder(i, g.source)), Push(Push(PutSource(g.source), OUTER), Empty), Empty)
      case ToolReplay => InReplay(pc - 4, 0, call, i, g)
      case ToolDiff => if pc < 14 then InReplay(pc - 6, 0, call, i, g) else InReplay(pc - 14, 1, call, i, g)
      case ToolShareLive => base
      case ToolShareBundle =>
        var undo2 := Push(PutPlatform(g.platform), undo1);
        if pc <= 14 then InReplay(pc - 6, 0, call, i, g)
        else if pc == 15 then Local(renamed, Push(OUTER, Empty), undo1)
        else if pc == 16 then Local(pinned, Push(OUTER, Empty), undo2)
        else Local(pinned, Push(Append(undo2, OUTER), Empty), Empty)
      case ToolShareSnapshot =>
        var hosted := g.(identity := SnapshotIdentity(call.first));
        if pc <= 5 then base
        else if pc == 6 then Local(hosted, Push(OUTER, Empty), undo1)
        else Local(hosted, Push(Append(undo1, OUTER), Empty), Empty)
  }

  /** replayBundle's own instructions follow its part of the table. */
  lemma {:induction false} ReplayFollowsTable(offset: nat, slot: nat, call: Call, i: nat, g: Globals)
    requires offset < 7 && g.gapCount == None
    ensures Effect(ReplayBody(slot)[offset], InReplay(offset, slot, call, i, g), call, i)
         == InReplay(offset + 1, slot, call, i, g)
  {
    if offset < 3 {
      ReplayInstalls(offset, slot, call, i, g);
    } else {
      ReplayOverrides(offset, slot, call, i, g);
    }
  }

  lemma ReplayInstalls(offset: nat, slot: nat, call: Call, i: nat, g: Globals)
    requires offset < 3 && g.gapCount == None
    ensures Effect(ReplayBody(slot)[offset], InReplay(offset, slot, call, i, g), call, i)
         == InReplay(offset + 1, slot, call, i, g)
  {
  }

  lemma ReplayOverrides(offset: nat, slot: nat, call: Call, i: nat, g: Globals)
    requires 3 <= offset < 7 && g.gapCount == None
    ensures Effect(ReplayBody(slot)[offset], InReplay(offset, slot, call, i, g), call, i)
         == InReplay(offset + 1, slot, call, i, g)
  {
  }

  /** Every instruction takes its call from one row of the table to the next. */
  lemma {:induction false} StepFollowsTable(call: Call, i: nat, pc: nat, g: Globals)
    requires 1 <= pc < |Program(call.tool)| && Program(call.tool)[pc] != Leave
    requires g.gapCount == None
    ensures Effect(Program(call.tool)[pc], Expected(call, i, pc, g), call, i) == Expected(call, i, pc + 1, g)
  {
    if pc > 1 {
      assert Program(call.tool)[pc] == Body(call.tool)[pc - 2];
      match call.tool
      case ToolReplay => StepFollowsReplay(call, i, pc, g);
      case ToolDiff => StepFollowsDiff(call, i, pc, g);
      case ToolShareBundle => StepFollowsShareBundle(call, i, pc, g);
      case _ =>
    }
  }

  lemma StepFollowsReplay(call: Call, i: nat, pc: nat, g: Globals)
    requires call.tool == ToolReplay && g.gapCount == None
    requires 2 <= pc < |Program(call.tool)| && Body(call.tool)[pc - 2] != Leave
    ensures Effect(Body(call.tool)[pc - 2], Expected(call, i, pc, g), call, i) == Expected(call, i, pc + 1, g)
  {
    if 4 <= pc < 11 {
      assert Body(call.tool)[pc - 2] == ReplayBody(0)[pc - 4];
      ReplayFollowsTable(pc - 4, 0, call, i, g);
    }
  }

  lemma {:induction false} StepFollowsDiff(call: Call, i: nat, pc: nat, g: Globals)
    requires call.tool == ToolDiff && g.gapCount == None
    requires 2 <= pc < |Program(call.tool)| && Body(call.tool)[pc - 2] != Leave
    ensures Effect(Body(call.tool)[pc - 2], Expected(call, i, pc, g), call, i) == Expected(call, i, pc + 1, g)
  {
    if 6 <= pc < 13 {
      assert Body(call.tool)[pc - 2] == ReplayBody(0)[pc - 6];
      ReplayFollowsTable(pc - 6, 0, call, i, g);
    } else if 14 <= pc {
      StepFollowsSecondReplay(call, i, pc, g);
    }
  }

  lemma StepFollowsSecondReplay(call: Call, i: nat, pc: nat, g: Globals)
    requires call.tool == ToolDiff && g.gapCount == None
    requires 14 <= pc < |Program(call.tool)| && Body(call.tool)[pc - 2] != Leave
    ensures Effect(Body(call.tool)[pc - 2], Expected(call, i, pc, g), call, i) == Expected(call, i, pc + 1, g)
  {
    assert Body(call.tool)[pc - 2] == if pc < 22 then ReplayBody(1)[pc - 14] else Check;
    if pc < 21 {
      ReplayFollowsTable(pc - 14, 1, call, i, g);
    }
  }

  lemma {:induction false} StepFollowsShareBundle(call: Call, i: nat, pc: nat, g: Globals)
    requires call.tool == ToolShareBundle && g.gapCount == None
    requires 2 <= pc < |Program(call.tool)| && Body(call.tool)[pc - 2] != Leave
    ensures Effect(Body(call.tool)[pc - 2], Expected(call, i, pc, g), call, i) == Expected(call, i, pc + 1, g)
  {
    if 6 <= pc < 13 {
      assert Body(call.tool)[pc - 2] == ReplayBody(0)[pc - 6];
      ReplayFollowsTable(pc - 6, 0, call, i, g);
    } else if 14 <= pc {
      assert Body(call.tool)[pc - 2] == [HoldIdentity(0), HoldPlatform(0), DeferHeld, Probe, Check][pc - 14];
      StepFollowsHeld(call, i, pc, g);
    }
  }

  lemma StepFollowsHeld(call: Call, i: nat, pc: nat, g: Globals)
    requires call.tool == ToolShareBundle && g.gapCount == None && 14 <= pc < 19
    ensures var instr := [HoldIdentity(0), HoldPlatform(0), DeferHeld, Probe, Check][pc - 14];
      Effect(instr, Expected(call, i, pc, g), call, i) == Expected(call, i, pc + 1, g)
  {
    if pc <= 15 {
      HoldingFollowsTable(call, i, pc, g);
    }
  }

  lemma HoldingFollowsTable(call: Call, i: nat, pc: nat, g: Globals)
    requires call.tool == ToolShareBundle && g.gapCount == None && 14 <= pc <= 15
    ensures var instr := [HoldIdentity(0), HoldPlatform(0), DeferHeld, Probe, Check][pc - 14];
      Effect(instr, Expected(call, i, pc, g), call, i) == Expected(call, i, pc + 1, g)
  {
  }

  /** An undo stack that releases the mutex last, and only then. */
  predicate EndsInUnlock(us: Stack<Undo>) {
    us.Push? && (us.top == Unlock <==> us.rest == Empty) && (us.rest == Empty || EndsInUnlock(us.rest))
  }

  predicate NeverUnlocks(us: Stack<Undo>) {
    us == Empty || (us.top != Unlock && NeverUnlocks(us.rest))
  }

  lemma AppendEmpty(us: Stack<Undo>)
    ensures Append(us, Empty) == us
  {
  }

  /** Wherever a handler can return, its defers restore the globals and release the mutex last. */
  lemma ReturnRestores(call: Call, i: nat, pc: nat, g: Globals)
    requires 2 <= pc <= |Program(call.tool)| && (pc < |Program(call.tool)| ==> Program(call.tool)[pc] == Check)
    requires g.gapCount == None
    ensures var l := Expected(call, i, pc, g);
      l.held == Empty && EndsInUnlock(Flatten(l.frames)) && PopAll(l.globals, Flatten(l.frames)) == g
  {
    var l := Expected(call, i, pc, g);
    assert pc < |Program(call.tool)| ==> Body(call.tool)[pc - 2] == Check;
    var undo1 := Push(PutIdentity(g.identity), Empty);
    match call.tool
    case ToolCapture =>
      if pc >= 4 { UnwindOne(l.globals, PutSource(g.source), OUTER); }
      OneFrameUnwinds(l, g);
    case ToolShareBundle =>
      if pc >= 15 { assert pc >= 17; ShareUnwinds(l, g, undo1); }
      OneFrameUnwinds(l, g);
    case ToolShareSnapshot =>
      if pc >= 6 {
        assert Append(undo1, OUTER) == Push(PutIdentity(g.identity), OUTER);
        UnwindOne(l.globals, PutIdentity(g.identity), OUTER);
      }
      OneFrameUnwinds(l, g);
    case _ =>
      BaseAtReturn(call, i, pc, g);
      OneFrameUnwinds(l, g);
  }

  lemma OneFrameUnwinds(l: Local, g: Globals)
    requires l.frames.Push? && l.frames.rest == Empty
    requires l.frames.top == OUTER ==> l.globals == g
    requires l.frames.top != OUTER ==> EndsInUnlock(l.frames.top) && PopAll(l.globals, l.frames.top) == g
    ensures EndsInUnlock(Flatten(l.frames)) && PopAll(l.globals, Flatten(l.frames)) == g
  {
    AppendEmpty(l.frames.top);
    assert Flatten(l.frames) == l.frames.top;
  }

  /** The replaying and live tools have no undo action of their own where they can return. */
  lemma BaseAtReturn(call: Call, i: nat, pc: nat, g: Globals)
    requires 2 <= pc <= |Program(call.tool)| && (pc < |Program(call.tool)| ==> Body(call.tool)[pc - 2] == Check)
    requires call.tool in {ToolHealth, ToolReplay, ToolDiff, ToolShareLive}
    ensures Expected(call, i, pc, g) == Local(g, Push(OUTER, Empty), Empty)
  {
    match call.tool
    case ToolReplay => assert pc <= 4 || pc >= 12;
    case ToolDiff => assert pc <= 6 || pc >= 22;
    case _ =>
  }

  lemma ShareUnwinds(l: Local, g: Globals, undo1: Stack<Undo>)
    requires undo1 == Push(PutIdentity(g.identity), Empty)
    requires l.frames == Push(Append(Push(PutPlatform(g.platform), undo1), OUTER), Empty)
    requires l.globals.(identity := g.identity, platform := g.platform) == g
    ensures EndsInUnlock(l.frames.top) && PopAll(l.globals, l.frames.top) == g
  {
    assert Append(undo1, OUTER) == Push(PutIdentity(g.identity), OUTER);
    assert l.frames.top == Push(PutPlatform(g.platform), Append(undo1, OUTER));
    UnwindOne(l.globals, PutPlatform(g.platform), l.frames.top.rest);
    UnwindOne(l.globals.(platform := g.platform), PutIdentity(g.identity), OUTER);
  }

  lemma UnwindOne(g: Globals, u: Undo, rest: Stack<Undo>)
    ensures PopAll(g, Push(u, rest)) == PopAll(Undone(g, u), rest)
    ensures u != Unlock && EndsInUnlock(rest) ==> EndsInUnlock(Push(u, rest))
    ensures u != Unlock && NeverUnlocks(rest) ==> NeverUnlocks(Push(u, rest))
  {
  }

  lemma {:induction false} AtLeave(call: Call, i: nat, pc: nat, g: Globals) returns (slot: nat)
    requires 2 <= pc < |Program(call.tool)| && Program(call.tool)[pc] == Leave
    ensures Expected(call, i, pc, g) == InReplay(7, slot, call, i, g)
    ensures Expected(call, i, pc + 1, g) == Local(g, Push(OUTER, Empty), Empty)
  {
    assert Body(call.tool)[pc - 2] == Leave;
    slot := if call.tool == ToolDiff && pc >= 14 then 1 else 0;
    if call.tool == ToolReplay {
      assert pc == 11;
    } else if call.tool == ToolShareBundle {
      assert pc == 13;
    } else {
      assert call.tool == ToolDiff && (pc == 13 || pc == 21);
    }
  }

  /** When replayBundle returns, its own defers bring the caller's globals back. */
  lemma {:induction false} LeaveRestores(call: Call, i: nat, pc: nat, g: Globals)
    requires 2 <= pc < |Program(call.tool)| && Program(call.tool)[pc] == Leave
    requires g.gapCount == None
    ensures var l := Expected(call, i, pc, g);
      l.held == Empty && l.frames.Push? && l.frames.rest == Push(OUTER, Empty) &&
      NeverUnlocks(l.frames.top) && PopAll(l.globals, l.frames.top) == g
    ensures Expected(call, i, pc + 1, g) == Local(g, Push(OUTER, Empty), Empty)
  {
    var slot := AtLeave(call, i, pc, g);
    ReplayUnwinds(slot, call, i, g);
  }

  lemma ReplayUnwinds(slot: nat, call: Call, i: nat, g: Globals)
    requires g.gapCount == None
    ensures var l := InReplay(7, slot, call, i, g);
      NeverUnlocks(l.frames.top) && PopAll(l.globals, l.frames.top) == g
  {
    var l := InReplay(7, slot, call, i, g);
    var d1 := Push(PutSource(g.source), Empty);
    var d2 := Push(ClearGap, d1);
    var d3 := Push(PutIdentity(g.identity), d2);
    var g3 := l.globals.(platform := g.platform);
    var g2 := g3.(identity := g.identity);
    UnwindOne(g2.(gapCount := None), PutSource(g.source), Empty);
    UnwindOne(g2, ClearGap, d1);
    UnwindOne(g3, PutIdentity(g.identity), d2);
    UnwindOne(l.globals, PutPlatform(g.platform), d3);
  }
}
