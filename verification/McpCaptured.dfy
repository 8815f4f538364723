/** Which host the reads of each MCP tool are told they run on, field by field. */
module McpCaptured {
  import opened Wrappers
  import opened ProcessState
  import opened McpPipeline
  import opened McpTable
  import opened McpSafety
  import opened McpRender

  /** Between the installation of the bundle in this slot and the return of replayBundle. */
  ghost predicate Replaying(tool: Tool, at: nat, slot: nat) {
    at <= |Program(tool)| &&
    exists e :: 0 <= e < at && Program(tool)[e] == InstallReplay(slot) && Leave !in Program(tool)[e..at]
  }

  lemma InstallsAndLeaves(tool: Tool, e: nat, slot: nat)
    requires e < |Program(tool)| && Program(tool)[e] == InstallReplay(slot)
    ensures tool == ToolReplay ==> e == 5 && slot == 0 && Program(tool)[11] == Leave
    ensures tool == ToolDiff ==> (e == 7 && slot == 0 && Program(tool)[13] == Leave) || (e == 15 && slot == 1)
    ensures tool == ToolShareBundle ==> e == 7 && slot == 0 && Program(tool)[13] == Leave
    ensures tool in {ToolReplay, ToolDiff, ToolShareBundle}
  {
    assert e >= 2 && Body(tool)[e - 2] == InstallReplay(slot);
    match tool
    case ToolReplay => assert Program(tool)[11] == Body(tool)[9] == Leave;
    case ToolDiff | ToolShareBundle => assert Program(tool)[13] == Body(tool)[11] == Leave;
    case _ => assert false;
  }

  /** The collectors of the tool run over the bundle in this slot. */
  ghost predicate CollectsFrom(tool: Tool, slot: nat) {
    exists at: nat :: at < |Program(tool)| && Program(tool)[at] == Collect && Replaying(tool, at, slot)
  }

  lemma NoLeaveWithin(tool: Tool, e: nat, at: nat)
    requires e + 5 == at && at < |Program(tool)| && tool in {ToolReplay, ToolDiff, ToolShareBundle}
    requires Program(tool)[e] == InstallReplay(0) || Program(tool)[e] == InstallReplay(1)
    ensures Leave !in Program(tool)[e..at] && Program(tool)[at] == Collect
  {
    var slot := if Program(tool)[e] == InstallReplay(0) then 0 else 1;
    InstallsAndLeaves(tool, e, slot);
    forall p | e <= p <= at ensures Program(tool)[p] == ReplayBody(slot)[1 + p - e] {
      WithinReplay(tool, e, p, slot);
    }
    forall k | 0 <= k < 5 ensures Program(tool)[e..at][k] != Leave {
      assert Program(tool)[e..at][k] == Program(tool)[e + k] == ReplayBody(slot)[1 + k];
    }
  }

  lemma WithinReplay(tool: Tool, e: nat, p: nat, slot: nat)
    requires e <= p <= e + 5 < |Program(tool)|
    requires (tool == ToolReplay && e == 5 && slot == 0) || (tool == ToolShareBundle && e == 7 && slot == 0)
      || (tool == ToolDiff && ((e == 7 && slot == 0) || (e == 15 && slot == 1)))
    ensures Program(tool)[p] == ReplayBody(slot)[1 + p - e]
  {
    assert Program(tool)[p] == Body(tool)[p - 2];
  }

  /** dsd_replay and dsd_share collect from their bundle, dsd_diff from both of its, and no other tool from any. */
  lemma {:induction false} CollectsFromIff(tool: Tool, slot: nat)
    ensures CollectsFrom(tool, slot) <==>
      (slot == 0 && tool in {ToolReplay, ToolDiff, ToolShareBundle}) || (slot == 1 && tool == ToolDiff)
  {
    if CollectsFrom(tool, slot) {
      var at: nat :| at < |Program(tool)| && Program(tool)[at] == Collect && Replaying(tool, at, slot);
      var e :| 0 <= e < at && Program(tool)[e] == InstallReplay(slot) && Leave !in Program(tool)[e..at];
      InstallsAndLeaves(tool, e, slot);
    }
    if slot == 0 && tool in {ToolReplay, ToolDiff, ToolShareBundle} {
      var e := if tool == ToolReplay then 5 else 7;
      assert Program(tool)[e] == Body(tool)[e - 2] == ReplayBody(0)[1] == InstallReplay(0);
      NoLeaveWithin(tool, e, e + 5);
      assert Replaying(tool, e + 5, slot);
    }
    if slot == 1 && tool == ToolDiff {
      assert Program(tool)[15] == Body(tool)[13] == ReplayBody(1)[1] == InstallReplay(1);
      NoLeaveWithin(tool, 15, 20);
      assert Replaying(tool, 20, slot);
    }
  }

  /** Where the replaying tools read inside a replay. */
  lemma {:induction false} ReplayingPoints(tool: Tool, at: nat, slot: nat)
    requires Replaying(tool, at, slot)
    requires 2 <= at < |Program(tool)| && Body(tool)[at - 2] in {Probe, Collect}
    ensures tool in {ToolReplay, ToolShareBundle} ==> slot == 0 && at < 14 && (tool == ToolReplay ==> at < 12)
    ensures tool == ToolDiff ==> if at < 14 then slot == 0 else slot == 1
    ensures tool in {ToolReplay, ToolDiff, ToolShareBundle}
  {
    var program := Program(tool);
    var e :| 0 <= e < at && program[e] == InstallReplay(slot) && Leave !in program[e..at];
    InstallsAndLeaves(tool, e, slot);
    ReadPoints(tool, at);
    forall p | e <= p < at ensures program[p] != Leave {
      assert program[p] == program[e..at][p - e];
    }
  }

  lemma {:induction false} ReplayingView(call: Call, i: nat, at: nat, slot: nat, g: Globals)
    requires Replaying(call.tool, at, slot)
    requires at < |Program(call.tool)| && Program(call.tool)[at] in {Probe, Collect}
    ensures OwnView(call, i, at, g) == ReplayView(g, Replay(i, slot), if slot == 0 then call.first else call.second)
  {
    assert Program(call.tool)[0] == Lock && Program(call.tool)[1] == DeferUnlock;
    assert at >= 2 && Body(call.tool)[at - 2] == Program(call.tool)[at];
    ReplayingPoints(call.tool, at, slot);
  }

  /**
   In every run: a read that dsd_replay, dsd_diff or dsd_share issues inside a replay goes to the bundle of that
   replay and sees, in each field, the host on which this bundle was captured.
   */
  lemma {:induction false} ReplayedReadsSeeCapturedHost(g: Globals, s: State, k: nat, slot: nat)
    requires Startup(g) && Reachable(g, s) && k < |s.trace| && !s.trace[k].stray && s.trace[k].reader < |s.threads|
    requires Replaying(s.threads[s.trace[k].reader].call.tool, s.trace[k].at, slot)
    ensures var e := s.trace[k];
      var call := s.threads[e.reader].call;
      && e.seen.source == Replay(e.reader, slot) && e.seen.gapCount == Some(Replay(e.reader, slot))
      && CapturedHost(e.seen, if slot == 0 then call.first else call.second)
  {
    var e := s.trace[k];
    var call := s.threads[e.reader].call;
    var m := if slot == 0 then call.first else call.second;
    ReachableInv(g, s);
    assert OwnEvent(s.threads, e, g);
    ReadsAreOwn(g, s, k);
    ReplayingView(call, e.reader, e.at, slot, g);
    PinnedIsCapturedHost(g.(source := Replay(e.reader, slot), gapCount := Some(Replay(e.reader, slot))), m);
  }

  /** The name or OS that is shown: what the globals pin, or what the server has itself where they pin nothing. */
  predicate ShowsOr(shown: string, pinned: string, live: string) {
    if pinned == "" then shown == live else shown == pinned
  }

  /** The globals that a rendering of this call sees. */
  ghost predicate RendersAs(call: Call, seen: Globals, g: Globals) {
    match call.tool
    case ToolShareBundle => CapturedHost(seen, call.first)
    case ToolShareSnapshot =>
      Stripped(call.first.host, seen.identity.host) && seen.identity.os == "" && seen.platform == g.platform
    case _ => seen.identity == g.identity && seen.platform == g.platform
  }

  lemma {:induction false} RenderView(call: Call, i: nat, g: Globals)
    requires Startup(g) && RenderPoint(call.tool).Some?
    ensures var view := OwnView(call, i, RenderPoint(call.tool).value, g);
      RendersAs(call, view, g) && view.gapCount == None && !Backend(view.source).Replay?
  {
    PinnedIsCapturedHost(g, call.first);
    StripControlStrips(call.first.host);
    assert Backend(Recorder(i, Live)) == Live;
  }

  /**
   In every run: a shared bundle is rendered as the host it was captured on, a shared snapshot under the host name it
   records, and everything else, dsd_replay included, as the server; never from a bundle.
   */
  lemma {:induction false} RenderingsSee(g: Globals, s: State, k: nat, live: Identity)
    requires Startup(g) && Reachable(g, s) && RenderRead(s, k)
    ensures var e := s.trace[k];
      RendersAs(s.threads[e.reader].call, e.seen, g) && e.seen.gapCount == None && !Backend(e.seen.source).Replay?
    ensures var pinned, shown := s.trace[k].seen.identity, Shown(s.trace[k].seen.identity, live);
      ShowsOr(shown.host, pinned.host, live.host) && ShowsOr(shown.os, pinned.os, live.os)
  {
    ReadsAreOwn(g, s, k);
    RenderView(s.threads[s.trace[k].reader].call, s.trace[k].reader, g);
  }
}
