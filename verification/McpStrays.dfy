/** Abandoned collectors: what mcpPipelineMu does not guarantee, and exactly when. */
module McpStrays {
  import opened Wrappers
  import opened ProcessState
  import opened McpPipeline
  import opened McpTable
  import opened McpSafety
  import opened McpRelease

  ghost predicate HasStray(s: State) {
    exists i :: 0 <= i < |s.threads| && s.threads[i].strays != []
  }

  /** Some continuation of `s` has a read of this kind although no further collector is abandoned. */
  ghost predicate CanHappen(s: State, kind: Event -> bool) {
    exists acts, t, k :: Reaches(s, acts, t) && AbandonsNothing(acts) && |s.trace| <= k < |t.trace| && kind(t.trace[k])
  }

  // ----- a fresh call gets as far as its collectors

  /** The first program point at which a call of this tool collects. */
  function CollectPoint(tool: Tool): nat {
    if tool == ToolCapture then 5 else 10
  }

  /** One instruction of a call that is not at a function return. */
  lemma {:induction false} Advance(s: State, i: nat, g: Globals) returns (t: State)
    requires Inv(s, g) && Startup(g) && i < |s.threads| && s.threads[i].phase == Running
    requires s.threads[i].pc < |Program(s.threads[i].call.tool)| && !At(s, i, {Leave})
    requires if s.threads[i].pc == 0 then s.mutex == None else s.mutex == Some(i)
    ensures Reaches(s, [Run(i)], t) && Inv(t, g) && t.mutex == Some(i) && t.trace == s.trace && SameStrays(s, t)
    ensures t.threads[i].phase == Running && t.threads[i].pc == s.threads[i].pc + 1
    ensures t.threads[i].call == s.threads[i].call
  {
    if s.mutex == Some(i) {
      LockedPastLock(s, i, g);
    }
    ReachesOne(s, Run(i));
    ScheduledOnlyMoves(s, Run(i));
    ScheduledKeepsInv(s, Run(i), g);
    RunHolds(s, i, g);
    t := Next(s, Run(i));
  }

  lemma {:induction false} AdvanceTo(s: State, i: nat, upto: nat, g: Globals) returns (acts: seq<Action>, t: State)
    requires Inv(s, g) && Startup(g) && i < |s.threads| && s.threads[i].phase == Running
    requires s.threads[i].pc <= upto <= |Program(s.threads[i].call.tool)|
    requires forall pc :: 0 <= pc < upto ==> Program(s.threads[i].call.tool)[pc] != Leave
    requires if s.threads[i].pc == 0 then s.mutex == None && upto > 0 else s.mutex == Some(i)
    ensures Reaches(s, acts, t) && AbandonsNothing(acts) && t.trace == s.trace && SameStrays(s, t)
    ensures Inv(t, g) && t.mutex == Some(i) && t.threads[i].phase == Running
    ensures t.threads[i].pc == upto && t.threads[i].call == s.threads[i].call
    decreases upto - s.threads[i].pc
  {
    if s.threads[i].pc == upto {
      acts, t := [], s;
    } else {
      var s' := Advance(s, i, g);
      var rest;
      rest, t := AdvanceTo(s', i, upto, g);
      ReachesTrans(s, [Run(i)], s', rest, t);
      acts := [Run(i)] + rest;
    }
  }

  /** From any state with a free mutex a fresh call can get as far as its collectors, under its own view. */
  lemma {:induction false} FreshCallCollects(s: State, call: Call, g: Globals) returns (acts: seq<Action>, t: State)
    requires Inv(s, g) && Startup(g) && s.mutex == None
    requires call.tool == ToolCapture || call.tool == ToolReplay
    ensures Reaches(s, acts, t) && AbandonsNothing(acts) && Inv(t, g) && t.trace == s.trace
    ensures At(t, |s.threads|, {Collect}) && t.threads[|s.threads|].call == call
    ensures t.globals == OwnView(call, |s.threads|, CollectPoint(call.tool), g)
    ensures forall j :: 0 <= j < |s.threads| ==> t.threads[j].strays == s.threads[j].strays
    ensures |t.threads| == |s.threads| + 1
  {
    var n := |s.threads|;
    var s' := Next(s, Spawn(call));
    ReachesOne(s, Spawn(call));
    NextKeepsInv(s, Spawn(call), g);
    var rest;
    rest, t := AdvanceTo(s', n, CollectPoint(call.tool), g);
    ReachesTrans(s, [Spawn(call)], s', rest, t);
    acts := [Spawn(call)] + rest;
    CollectsUnderOwnView(t, n, g);
  }

  /** While a call is at a collection, the globals are the ones it installed. */
  lemma {:induction false} CollectsUnderOwnView(t: State, n: nat, g: Globals)
    requires Inv(t, g) && Startup(g) && At(t, n, {Collect})
    ensures t.mutex == Some(n) && t.globals == OwnView(t.threads[n].call, n, t.threads[n].pc, g)
  {
    var thread := t.threads[n];
    assert Program(thread.call.tool)[0] == Lock;
    assert Holds(thread, n, t.globals, g);
    TableView(thread.call, n, thread.pc, g);
  }

  // ----- with a stray, every kind of contamination can happen

  /** Call `owner` of this tool is collecting, and call `i` has a stray. */
  ghost predicate StrayMeets(u: State, i: nat, owner: nat, tool: Tool, g: Globals) {
    && i < |u.threads| && u.threads[i].strays != [] && i != owner
    && At(u, owner, {Collect})
    && u.globals == OwnView(BareCall(tool), owner, CollectPoint(tool), g)
  }

  function BareCall(tool: Tool): Call {
    var none := Manifest("", "", "", "", "");
    Call(tool, none, none)
  }

  /** Where there is a stray, it can meet a fresh capture or replay. */
  lemma {:induction false} StrayCanMeet(s: State, i: nat, tool: Tool, g: Globals)
    returns (acts: seq<Action>, u: State, owner: nat)
    requires Inv(s, g) && Startup(g) && i < |s.threads| && s.threads[i].strays != []
    requires tool == ToolCapture || tool == ToolReplay
    ensures Reaches(s, acts, u) && AbandonsNothing(acts) && u.trace == s.trace && StrayMeets(u, i, owner, tool, g)
  {
    var a, t := MutexIsReleased(s, g);
    var b;
    b, u := FreshCallCollects(t, BareCall(tool), g);
    ReachesTrans(s, a, t, b, u);
    acts, owner := a + b, |t.threads|;
  }

  /** It then reads through whatever is installed: a Recorder that tees, or a bundle that may refuse. */
  lemma {:induction false} StrayReads(u: State, i: nat, owner: nat, tool: Tool, g: Globals)
    returns (a: Action, e: Event)
    requires Startup(g) && StrayMeets(u, i, owner, tool, g) && (tool == ToolCapture || tool == ToolReplay)
    ensures a == StrayRead(i, 0, tool == ToolReplay) && Enabled(u, a) && Next(u, a).trace == u.trace + [e]
    ensures e.reader == i && e.stray && e.missed == (tool == ToolReplay) && e.seen == u.globals
    ensures tool == ToolReplay ==> u.globals.source.Replay? && u.globals.gapCount == Some(u.globals.source)
  {
    assert Backend(u.globals.source).Replay? <==> tool == ToolReplay;
    a := StrayRead(i, 0, tool == ToolReplay);
    e := Event(i, u.threads[i].strays[0], true, tool == ToolReplay, u.globals);
  }

  /** A read under the view that another call of this tool collects under. */
  ghost predicate ForeignRead(e: Event, tool: Tool, g: Globals) {
    exists call: Call, owner: nat :: call.tool == tool && e.reader != owner
      && e.seen == OwnView(call, owner, CollectPoint(tool), g)
  }

  lemma {:induction false} StrayMakesHappen(s: State, tool: Tool, kind: Event -> bool, g: Globals)
    requires Inv(s, g) && Startup(g) && HasStray(s)
    requires tool == ToolCapture || tool == ToolReplay
    requires forall e: Event :: ForeignRead(e, tool, g) ==> kind(e)
    ensures CanHappen(s, kind)
  {
    var i :| 0 <= i < |s.threads| && s.threads[i].strays != [];
    var acts, u, owner := StrayCanMeet(s, i, tool, g);
    var a, e := StrayReads(u, i, owner, tool, g);
    assert ForeignRead(e, tool, g);
    HappensNext(s, acts, u, a, e, kind);
  }

  lemma HappensNext(s: State, acts: seq<Action>, u: State, a: Action, e: Event, kind: Event -> bool)
    requires Reaches(s, acts, u) && AbandonsNothing(acts) && |s.trace| <= |u.trace|
    requires Enabled(u, a) && !a.Abandon? && Next(u, a).trace == u.trace + [e] && kind(e)
    ensures CanHappen(s, kind)
  {
    var t := Next(u, a);
    ReachesOne(u, a);
    ReachesTrans(s, acts, u, [a], t);
    assert t.trace[|u.trace|] == e;
    assert Reaches(s, acts + [a], t) && AbandonsNothing(acts + [a]);
  }

  // ----- without a stray, none can

  ghost predicate CleanSince(s: State, n: nat) {
    forall k :: n <= k < |s.trace| ==> !s.trace[k].stray && !Contaminates(s.trace[k])
  }

  /** Without strays, and without abandoning a collector, no read goes through another call's source. */
  lemma {:induction false} NoStrayNoContamination(s: State, acts: seq<Action>, t: State, g: Globals, n: nat)
    requires Inv(s, g) && Startup(g) && !HasStray(s) && Reaches(s, acts, t) && AbandonsNothing(acts)
    requires CleanSince(s, n)
    ensures CleanSince(t, n)
    decreases |acts|
  {
    if acts != [] {
      CleanStep(s, acts[0], g, n);
      assert forall k :: 0 <= k < |acts[1..]| ==> acts[1..][k] == acts[k + 1];
      NoStrayNoContamination(Next(s, acts[0]), acts[1..], t, g, n);
    }
  }

  lemma {:induction false} CleanStep(s: State, a: Action, g: Globals, n: nat)
    requires Inv(s, g) && Startup(g) && !HasStray(s) && Enabled(s, a) && !a.Abandon? && CleanSince(s, n)
    ensures Inv(Next(s, a), g) && !HasStray(Next(s, a)) && CleanSince(Next(s, a), n)
  {
    var s' := Next(s, a);
    NextKeepsInv(s, a, g);
    StraysOnlyByAbandoning(s, a);
    StillClean(s, s', g, n);
  }

  lemma StillClean(s: State, s': State, g: Globals, n: nat)
    requires Inv(s', g) && Startup(g) && CleanSince(s, n)
    requires s'.trace == s.trace || exists e :: s'.trace == s.trace + [e] && !e.stray
    ensures CleanSince(s', n)
  {
    if s'.trace != s.trace {
      var e :| s'.trace == s.trace + [e] && !e.stray;
      assert s'.trace[|s.trace|] == e;
      InCallReadIsClean(s', |s.trace|, g);
      forall k | n <= k < |s'.trace| ensures !s'.trace[k].stray && !Contaminates(s'.trace[k]) {
        if k < |s.trace| {
          assert s'.trace[k] == s.trace[k];
        }
      }
    }
  }

  lemma InCallReadIsClean(s: State, k: nat, g: Globals)
    requires Inv(s, g) && Startup(g) && k < |s.trace| && !s.trace[k].stray
    ensures !Contaminates(s.trace[k])
  {
    var e := s.trace[k];
    assert OwnEvent(s.threads, e, g);
    TableView(s.threads[e.reader].call, e.reader, e.at, g);
    OwnViewIsClean(s.threads[e.reader].call, e.reader, e.at, g);
  }

  lemma StraysOnlyByAbandoning(s: State, a: Action)
    requires Enabled(s, a) && !a.Abandon? && !HasStray(s)
    ensures !HasStray(Next(s, a))
    ensures Next(s, a).trace == s.trace ||
      exists e :: Next(s, a).trace == s.trace + [e] && !e.stray
  {
    if a.Run? || a.Fail? || a.Pop? {
      ScheduledOnlyMoves(s, a);
    }
  }

  /**
   The exact condition under which mcpPipelineMu keeps calls apart: from a reachable state a read can be recorded
   into a foreign bundle, can be answered from a foreign bundle, or can do either, without any new abandonment,
   if and only if an abandoned collector is outstanding.
   */
  lemma ContaminationIffStray(g: Globals, s: State)
    requires Startup(g) && Reachable(g, s)
    ensures CanHappen(s, Contaminates) <==> HasStray(s)
    ensures CanHappen(s, Recorded) <==> HasStray(s)
    ensures CanHappen(s, Served) <==> HasStray(s)
  {
    ReachableInv(g, s);
    if HasStray(s) {
      forall e: Event, owner: nat | e.seen.source == Recorder(owner, Live) && e.reader != owner ensures Recorded(e) {
        assert owner in Tees(e.seen.source);
      }
      StrayMakesHappen(s, ToolCapture, Recorded, g);
      StrayMakesHappen(s, ToolReplay, Served, g);
    } else {
      NothingHappens(s, Contaminates, g);
      NothingHappens(s, Recorded, g);
      NothingHappens(s, Served, g);
    }
  }

  lemma NothingHappens(s: State, kind: Event -> bool, g: Globals)
    requires Inv(s, g) && Startup(g) && !HasStray(s)
    requires forall e :: kind(e) ==> e.stray || Contaminates(e)
    ensures !CanHappen(s, kind)
  {
    if CanHappen(s, kind) {
      var acts, t, k :| Reaches(s, acts, t) && AbandonsNothing(acts) && |s.trace| <= k < |t.trace| && kind(t.trace[k]);
      NoStrayNoContamination(s, acts, t, g, |s.trace|);
      assert false;
    }
  }

  lemma Locking(s: State, call: Call)
    requires s == State(true, s.globals, None, [Thread(call, 0, Running, Push(Empty, Empty), Empty, [])], s.trace)
    ensures Reaches(s, [Run(0), Run(0)],
              State(true, s.globals, Some(0), [Thread(call, 2, Running, Push(OUTER, Empty), Empty, [])], s.trace))
  {
    assert Program(call.tool)[0] == Lock && Program(call.tool)[1] == DeferUnlock;
    var s1 := Next(s, Run(0));
    assert s1 == State(true, s.globals, Some(0), [Thread(call, 1, Running, Push(Empty, Empty), Empty, [])], s.trace);
    ReachesOne(s1, Run(0));
    assert [Run(0), Run(0)][1..] == [Run(0)];
  }

  /** Such states exist: a health call whose collector times out leaves a stray behind. */
  lemma TimeoutLeavesStray(g: Globals) returns (acts: seq<Action>, s: State)
    requires Startup(g)
    ensures Reaches(Init(true, g), acts, s) && HasStray(s)
  {
    var before, s' := HealthCollects(g);
    s := Next(s', Abandon(0));
    ReachesOne(s', Abandon(0));
    ReachesTrans(Init(true, g), before, s', [Abandon(0)], s);
    acts := before + [Abandon(0)];
    assert s.threads[0].strays == [3];
  }

  lemma HealthCollects(g: Globals) returns (acts: seq<Action>, s: State)
    requires Startup(g)
    ensures Reaches(Init(true, g), acts, s) && At(s, 0, {Collect})
    ensures s.threads[0].pc == 3 && s.threads[0].strays == []
  {
    var none := Manifest("", "", "", "", "");
    var call := Call(ToolHealth, none, none);
    var s0, s1 := Init(true, g), Next(Init(true, g), Spawn(call));
    ReachesOne(s0, Spawn(call));
    var s2 := State(true, g, Some(0), [Thread(call, 2, Running, Push(OUTER, Empty), Empty, [])], []);
    Locking(s1, call);
    ReachesTrans(s0, [Spawn(call)], s1, [Run(0), Run(0)], s2);
    assert Program(ToolHealth) == [Lock, DeferUnlock, Probe, Collect, Probe, Check];
    s := Next(s2, Run(0));
    acts := [Spawn(call)] + [Run(0), Run(0)] + [Run(0)];
    ReachesTrans(s0, [Spawn(call)] + [Run(0), Run(0)], s2, [Run(0)], s);
  }

  /** With the lock in place, a capture's bundle can still hold another call's read ... */
  lemma LockDoesNotStopStrays(g: Globals) returns (s: State, k: nat)
    requires Startup(g)
    ensures Reachable(g, s) && k < |s.trace| && Recorded(s.trace[k])
  {
    s, k := StrayRunShows(g, Recorded);
  }

  /** ... and a read can still be answered from a bundle that another call replays. */
  lemma LockDoesNotStopMisreads(g: Globals) returns (s: State, k: nat)
    requires Startup(g)
    ensures Reachable(g, s) && k < |s.trace| && Served(s.trace[k])
  {
    s, k := StrayRunShows(g, Served);
  }

  lemma StrayRunShows(g: Globals, kind: Event -> bool) returns (s: State, k: nat)
    requires Startup(g) && (kind == Recorded || kind == Served)
    ensures Reachable(g, s) && k < |s.trace| && kind(s.trace[k])
  {
    var a, s1 := TimeoutLeavesStray(g);
    ContaminationIffStray(g, s1);
    var b, t, m :| Reaches(s1, b, t) && AbandonsNothing(b) && |s1.trace| <= m < |t.trace| && kind(t.trace[m]);
    ReachesTrans(Init(true, g), a, s1, b, t);
    s, k := t, m;
  }
}
