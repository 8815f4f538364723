/** Rendering: which host's identity and platform the report of each MCP tool is written under. */
module McpRender {
  import opened Wrappers
  import opened ProcessState
  import opened McpPipeline
  import opened McpTable
  import opened McpSafety
  import opened McpRelease
  import opened McpStrays

  /** The program point at which a tool renders its report; the diff is encoded without reading anything. */
  function RenderPoint(tool: Tool): Option<nat> {
    match tool
    case ToolHealth => Some(4)
    case ToolCapture => Some(6)
    case ToolReplay => Some(12)
    case ToolDiff => None
    case ToolShareLive => Some(7)
    case ToolShareBundle => Some(17)
    case ToolShareSnapshot => Some(7)
  }

  lemma RenderingReads(tool: Tool)
    requires RenderPoint(tool).Some?
    ensures RenderPoint(tool).value < |Program(tool)| && Program(tool)[RenderPoint(tool).value] == Probe
  {
    var at := RenderPoint(tool).value;
    assert Program(tool)[at] == Body(tool)[at - 2];
  }

  /** The identity of the host that the report is about. */
  function ReportedIdentity(call: Call, g: Globals): Identity {
    match call.tool
    case ToolReplay | ToolShareBundle => IdentityOf(call.first)
    case ToolShareSnapshot => SnapshotIdentity(call.first)
    case _ => g.identity
  }

  function ReportedPlatform(call: Call, g: Globals): Platform {
    match call.tool
    case ToolReplay | ToolShareBundle => PlatformOf(call.first)
    case _ => g.platform
  }

  /** Event k of the run is a read of its call's rendering. */
  ghost predicate RenderRead(s: State, k: nat) {
    && k < |s.trace| && !s.trace[k].stray && s.trace[k].reader < |s.threads|
    && RenderPoint(s.threads[s.trace[k].reader].call.tool) == Some(s.trace[k].at)
  }

  /**
   In every run: rendering sees the identity and platform of the host it reports on, except in dsd_replay, whose
   overrides are undone by then; there it does exactly when the server itself runs under the same ones.
   */
  lemma RenderSeesReportedIff(g: Globals, s: State, k: nat)
    requires Startup(g) && Reachable(g, s) && RenderRead(s, k)
    ensures var call, seen := s.threads[s.trace[k].reader].call, s.trace[k].seen;
      && (seen.identity == ReportedIdentity(call, g) <==>
            (call.tool == ToolReplay ==> IdentityOf(call.first) == g.identity))
      && (seen.platform == ReportedPlatform(call, g) <==>
            (call.tool == ToolReplay ==> PlatformOf(call.first) == g.platform))
      && (call.tool in {ToolReplay, ToolShareBundle} ==>
            (CapturedHost(seen, call.first) <==> (call.tool == ToolReplay ==> CapturedHost(g, call.first))))
  {
    ReadsAreOwn(g, s, k);
    PinnedIsCapturedHost(g, s.threads[s.trace[k].reader].call.first);
  }

  /** What the report then shows, for every host name and OS that the server has itself. */
  lemma RenderShowsReportedIff(g: Globals, s: State, k: nat, live: Identity)
    requires Startup(g) && Reachable(g, s) && RenderRead(s, k)
    ensures var call, seen := s.threads[s.trace[k].reader].call, s.trace[k].seen;
      Shown(seen.identity, live) == Shown(ReportedIdentity(call, g), live) <==>
        (call.tool == ToolReplay ==> Shown(IdentityOf(call.first), live) == Shown(g.identity, live))
  {
    RenderSeesReportedIff(g, s, k);
    ReadsAreOwn(g, s, k);
  }

  /** A snapshot names its host but not its OS, so rendering takes the OS of the server. */
  lemma SnapshotShowsServerOS(g: Globals, s: State, k: nat, live: Identity)
    requires Startup(g) && Reachable(g, s) && RenderRead(s, k)
    requires s.threads[s.trace[k].reader].call.tool == ToolShareSnapshot
    ensures Shown(s.trace[k].seen.identity, live).os == live.os
  {
    RenderSeesReportedIff(g, s, k);
  }

  // ----- a run of dsd_replay

  /** The holder finishes the defers of the function that is returning and goes on behind it. */
  lemma {:induction false} LeavesReplay(s: State, i: nat, g: Globals) returns (acts: seq<Action>, t: State)
    requires Inv(s, g) && Startup(g) && s.mutex == Some(i) && s.threads[i].phase == Leaving
    ensures Reaches(s, acts, t) && AbandonsNothing(acts) && Inv(t, g) && t.mutex == Some(i)
    ensures t.threads[i].phase == Running && t.threads[i].pc == s.threads[i].pc + 1
    ensures t.threads[i].call == s.threads[i].call
    decreases if s.threads[i].frames.Push? then Depth(s.threads[i].frames.top) else 0
  {
    assert Holds(s.threads[i], i, s.globals, g);
    var u := Next(s, Pop(i));
    NextKeepsInv(s, Pop(i), g);
    ReachesOne(s, Pop(i));
    if s.threads[i].frames.top == Empty {
      acts, t := [Pop(i)], u;
    } else {
      var rest;
      rest, t := LeavesReplay(u, i, g);
      ReachesTrans(s, [Pop(i)], u, rest, t);
      acts := [Pop(i)] + rest;
    }
  }

  lemma {:induction false} ReplayReturns(s: State, n: nat, g: Globals) returns (acts: seq<Action>, t: State)
    requires Inv(s, g) && Startup(g) && s.mutex == Some(n) && s.threads[n].phase == Running
    requires At(s, n, {Leave})
    ensures Reaches(s, acts, t) && AbandonsNothing(acts) && Inv(t, g) && t.mutex == Some(n)
    ensures t.threads[n].phase == Running && t.threads[n].pc == s.threads[n].pc + 1
    ensures t.threads[n].call == s.threads[n].call
  {
    var v := Next(s, Run(n));
    ReachesOne(s, Run(n));
    NextKeepsInv(s, Run(n), g);
    assert v.threads[n] == s.threads[n].(phase := Leaving) && v.mutex == Some(n);
    var b;
    b, t := LeavesReplay(v, n, g);
    ReachesTrans(s, [Run(n)], v, b, t);
    acts := [Run(n)] + b;
  }

  lemma {:induction false} ReplayRenders(s: State, call: Call, g: Globals) returns (acts: seq<Action>, t: State)
    requires Inv(s, g) && Startup(g) && s.mutex == None && call.tool == ToolReplay
    ensures Reaches(s, acts, t) && AbandonsNothing(acts) && Inv(t, g)
    ensures t.mutex == Some(|s.threads|) && t.threads[|s.threads|].call == call
    ensures t.threads[|s.threads|].phase == Running && t.threads[|s.threads|].pc == 12
  {
    var n := |s.threads|;
    var s' := Next(s, Spawn(call));
    ReachesOne(s, Spawn(call));
    NextKeepsInv(s, Spawn(call), g);
    LeaveIsEleventh();
    var a, u := AdvanceTo(s', n, 11, g);
    var b;
    b, t := ReplayReturns(u, n, g);
    ReachesTrans(s, [Spawn(call)], s', a, u);
    ReachesTrans(s, [Spawn(call)] + a, u, b, t);
    acts := [Spawn(call)] + a + b;
  }

  lemma LeaveIsEleventh()
    ensures |Program(ToolReplay)| == 14 && Program(ToolReplay)[11] == Leave && Program(ToolReplay)[12] == Probe
    ensures forall pc :: 0 <= pc < 11 ==> Program(ToolReplay)[pc] != Leave
  {
    assert Program(ToolReplay) == [Lock, DeferUnlock, Check, Check] + ReplayBody(0) + [Probe, Check];
  }

  /** dsd_replay of a bundle captured on "db1" on any server that goes by another name: the report names the server. */
  lemma ReplayRendersServer(g: Globals) returns (s: State, k: nat)
    requires Startup(g) && g.identity.host != "db1"
    ensures Reachable(g, s) && RenderRead(s, k)
    ensures s.threads[s.trace[k].reader].call == Call(ToolReplay, CapturedOnDb1(), CapturedOnDb1())
    ensures s.trace[k].seen.identity == g.identity != ReportedIdentity(s.threads[s.trace[k].reader].call, g)
  {
    s, k := ReplayRun(Call(ToolReplay, CapturedOnDb1(), CapturedOnDb1()), g);
    RenderSeesReportedIff(g, s, k);
    ReadsAreOwn(g, s, k);
  }

  /** A dsd_replay of any bundle gets as far as rendering. */
  lemma ReplayRun(call: Call, g: Globals) returns (s: State, k: nat)
    requires Startup(g) && call.tool == ToolReplay
    ensures Reachable(g, s) && RenderRead(s, k) && s.threads[s.trace[k].reader].call == call
  {
    var s0 := Init(true, g);
    var acts, t := ReplayRenders(s0, call, g);
    LeaveIsEleventh();
    var a := Read(0, false);
    ReachesOne(t, a);
    ReachesTrans(s0, acts, t, [a], Next(t, a));
    s, k := Next(t, a), |t.trace|;
    assert s.trace == t.trace + [Event(0, 12, false, false, t.globals)];
  }

  function CapturedOnDb1(): (m: Manifest)
    ensures IdentityOf(m).host == "db1"
  {
    StripNothing();
    Manifest("db1", "Debian 12", "debian", "systemd", "linux")
  }

  lemma StripNothing()
    ensures StripControl("db1") == "db1"
  {
  }
}
