/** The invariant of every run: mutual exclusion, restored globals and own reads, whatever the interleaving. */
module McpSafety {
  import opened Wrappers
  import opened ProcessState
  import opened McpPipeline
  import opened McpTable

  /** The call that holds the mutex is where the table says, or is undoing what it did. */
  ghost predicate Holds(t: Thread, i: nat, now: Globals, g: Globals) {
    match t.phase
    case Running =>
      1 <= t.pc <= |Program(t.call.tool)| &&
      Local(now, t.frames, t.held) == Expected(t.call, i, t.pc, g)
    case Leaving =>
      2 <= t.pc < |Program(t.call.tool)| && Program(t.call.tool)[t.pc] == Leave && t.held == Empty &&
      t.frames.Push? && t.frames.rest == Push(OUTER, Empty) &&
      NeverUnlocks(t.frames.top) && PopAll(now, t.frames.top) == g
    case Unwinding =>
      t.frames.Push? && t.frames.rest == Empty &&
      EndsInUnlock(t.frames.top) && PopAll(now, t.frames.top) == g
    case Done => false
  }

  /** A call that waits for the mutex or has released it has nothing to undo. */
  ghost predicate Idle(t: Thread) {
    || (t.phase == Running && t.pc == 0 && t.frames == Push(Empty, Empty) && t.held == Empty)
    || (t.phase == Unwinding && t.frames == Push(Empty, Empty))
    || t.phase == Done
  }

  ghost predicate StraysInv(t: Thread) {
    forall k :: 0 <= k < |t.strays| ==>
      t.strays[k] < |Program(t.call.tool)| && Program(t.call.tool)[t.strays[k]] == Collect
  }

  /** A read that is not a stray's saw exactly what its own call had installed. */
  ghost predicate OwnEvent(threads: seq<Thread>, e: Event, g: Globals) {
    e.reader < |threads| && e.at < |Program(threads[e.reader].call.tool)| &&
    Program(threads[e.reader].call.tool)[e.at] in {Probe, Collect} &&
    (!e.stray ==> e.seen == Expected(threads[e.reader].call, e.reader, e.at, g).globals)
  }

  ghost predicate LockInv(s: State, g: Globals) {
    match s.mutex
    case None => s.globals == g
    case Some(i) => i < |s.threads| && Holds(s.threads[i], i, s.globals, g)
  }

  ghost predicate Inv(s: State, g: Globals) {
    && s.locking
    && LockInv(s, g)
    && (forall j :: 0 <= j < |s.threads| && s.mutex != Some(j) ==> Idle(s.threads[j]))
    && (forall j :: 0 <= j < |s.threads| ==> StraysInv(s.threads[j]))
    && (forall k :: 0 <= k < |s.trace| ==> OwnEvent(s.threads, s.trace[k], g))
  }

  /** Events stay own events as long as no call is forgotten or changed. */
  lemma EventsStay(threads: seq<Thread>, threads': seq<Thread>, trace: seq<Event>, g: Globals)
    requires |threads| <= |threads'|
    requires forall j :: 0 <= j < |threads| ==> threads'[j].call == threads[j].call
    requires forall k :: 0 <= k < |trace| ==> OwnEvent(threads, trace[k], g)
    ensures forall k :: 0 <= k < |trace| ==> OwnEvent(threads', trace[k], g)
  {
    forall k | 0 <= k < |trace| ensures OwnEvent(threads', trace[k], g) {
      assert OwnEvent(threads, trace[k], g);
    }
  }

  lemma {:induction false} RunHolds(s: State, i: nat, g: Globals)
    requires s.locking && LockInv(s, g) && Startup(g) && Enabled(s, Run(i))
    requires s.mutex == Some(i) || Idle(s.threads[i])
    ensures s.mutex == None || s.mutex == Some(i)
    ensures Next(s, Run(i)).mutex == Some(i) && LockInv(Next(s, Run(i)), g)
  {
    var t := s.threads[i];
    var program := Program(t.call.tool);
    assert program[0] == Lock && program[1] == DeferUnlock && |program| > 2;
    if s.mutex == Some(i) {
      if t.pc >= |program| {
        ReturnRestores(t.call, i, t.pc, g);
      } else if program[t.pc] == Leave {
        LeaveRestores(t.call, i, t.pc, g);
      } else {
        StepFollowsTable(t.call, i, t.pc, g);
        LockOnce(t.call.tool, t.pc);
      }
    }
  }

  lemma LockOnce(tool: Tool, pc: nat)
    requires 1 <= pc < |Program(tool)|
    ensures Program(tool)[pc] != Lock
  {
    if pc >= 2 {
      assert Program(tool)[pc] == Body(tool)[pc - 2];
      assert Lock !in ReplayBody(0) && Lock !in ReplayBody(1);
      assert Lock !in Body(tool);
    }
  }

  lemma {:induction false} FailHolds(s: State, i: nat, g: Globals)
    requires s.locking && LockInv(s, g) && Startup(g) && Enabled(s, Fail(i))
    requires s.mutex == Some(i) || Idle(s.threads[i])
    ensures s.mutex == Some(i) && LockInv(Next(s, Fail(i)), g)
  {
    var t := s.threads[i];
    assert Program(t.call.tool)[0] == Lock && Program(t.call.tool)[1] == DeferUnlock;
    ReturnRestores(t.call, i, t.pc, g);
  }

  lemma {:induction false} PopHolds(s: State, i: nat, g: Globals)
    requires s.locking && LockInv(s, g) && Startup(g) && Enabled(s, Pop(i))
    requires s.mutex == Some(i) || Idle(s.threads[i])
    ensures LockInv(Next(s, Pop(i)), g)
    ensures Next(s, Pop(i)).mutex == s.mutex || (s.mutex == Some(i) && Next(s, Pop(i)).mutex == None)
    ensures Next(s, Pop(i)).mutex == Some(i) || Idle(Next(s, Pop(i)).threads[i])
  {
    var t := s.threads[i];
    if t.phase == Leaving && t.frames.top == Empty {
      LeaveRestores(t.call, i, t.pc, g);
    }
  }

  /** `s'` differs from `s` only in the globals, the mutex and what call `i` has left to do. */
  ghost predicate OnlyMoves(s: State, s': State, i: nat) {
    && s'.locking == s.locking && s'.trace == s.trace && |s'.threads| == |s.threads|
    && (forall j :: 0 <= j < |s.threads| && j != i ==> s'.threads[j] == s.threads[j])
    && (forall j :: 0 <= j < |s.threads| ==>
          s'.threads[j].call == s.threads[j].call && s'.threads[j].strays == s.threads[j].strays)
  }

  lemma ScheduledOnlyMoves(s: State, a: Action)
    requires Enabled(s, a) && (a.Run? || a.Fail? || a.Pop?)
    ensures OnlyMoves(s, Next(s, a), a.i)
  {
  }

  lemma MovingKeepsInv(s: State, s': State, i: nat, g: Globals)
    requires Inv(s, g) && OnlyMoves(s, s', i) && LockInv(s', g) && i < |s.threads|
    requires s'.mutex == Some(i) || Idle(s'.threads[i])
    requires s'.mutex == s.mutex || s.mutex == None || s.mutex == Some(i)
    requires s'.mutex == s.mutex || s'.mutex == None || s'.mutex == Some(i)
    ensures Inv(s', g)
  {
    EventsStay(s.threads, s'.threads, s.trace, g);
    forall j | 0 <= j < |s.threads| ensures StraysInv(s'.threads[j]) {
      assert StraysInv(s.threads[j]);
    }
  }

  lemma {:induction false} ScheduledKeepsInv(s: State, a: Action, g: Globals)
    requires Inv(s, g) && Startup(g) && Enabled(s, a) && (a.Run? || a.Fail? || a.Pop?)
    ensures Inv(Next(s, a), g)
  {
    ScheduledOnlyMoves(s, a);
    match a
    case Run(i) => RunHolds(s, i, g); MovingKeepsInv(s, Next(s, a), i, g);
    case Fail(i) => FailHolds(s, i, g); MovingKeepsInv(s, Next(s, a), i, g);
    case Pop(i) => PopHolds(s, i, g); MovingKeepsInv(s, Next(s, a), i, g);
  }

  lemma ReadKeepsInv(s: State, a: Action, g: Globals)
    requires Inv(s, g) && Startup(g) && Enabled(s, a) && (a.Read? || a.StrayRead?)
    ensures Inv(Next(s, a), g)
  {
    var t := s.threads[a.i];
    assert StraysInv(t) && Program(t.call.tool)[0] == Lock;
    var e := if a.Read? then Event(a.i, t.pc, false, a.missed, s.globals)
             else Event(a.i, t.strays[a.k], true, a.missed, s.globals);
    assert Next(s, a) == s.(trace := s.trace + [e]);
    assert OwnEvent(s.threads, e, g);
  }

  lemma SpawnKeepsInv(s: State, call: Call, g: Globals)
    requires Inv(s, g)
    ensures Inv(Next(s, Spawn(call)), g)
  {
    EventsStay(s.threads, Next(s, Spawn(call)).threads, s.trace, g);
  }

  /** Strays come and go at collection points only; nothing else about their call changes. */
  lemma StrayCountKeepsInv(s: State, i: nat, strays: seq<nat>, g: Globals)
    requires Inv(s, g) && i < |s.threads| && StraysInv(s.threads[i].(strays := strays))
    ensures Inv(With(s, i, s.threads[i].(strays := strays)), g)
  {
    EventsStay(s.threads, With(s, i, s.threads[i].(strays := strays)).threads, s.trace, g);
  }

  lemma {:induction false} BookkeepingKeepsInv(s: State, a: Action, g: Globals)
    requires Inv(s, g) && Startup(g) && Enabled(s, a) && (a.Spawn? || a.Abandon? || a.StrayEnd?)
    ensures Inv(Next(s, a), g)
  {
    match a
    case Spawn(call) => SpawnKeepsInv(s, call, g);
    case Abandon(i) =>
      assert StraysInv(s.threads[i]);
      StrayCountKeepsInv(s, i, s.threads[i].strays + [s.threads[i].pc], g);
    case StrayEnd(i, k) =>
      assert StraysInv(s.threads[i]);
      StrayCountKeepsInv(s, i, s.threads[i].strays[..k] + s.threads[i].strays[k + 1..], g);
  }

  lemma {:induction false} NextKeepsInv(s: State, a: Action, g: Globals)
    requires Inv(s, g) && Startup(g) && Enabled(s, a)
    ensures Inv(Next(s, a), g)
  {
    match a
    case Run(_) | Fail(_) | Pop(_) => ScheduledKeepsInv(s, a, g);
    case Read(_, _) | StrayRead(_, _, _) => ReadKeepsInv(s, a, g);
    case _ => BookkeepingKeepsInv(s, a, g);
  }

  lemma {:induction false} ReachesKeepsInv(s: State, acts: seq<Action>, t: State, g: Globals)
    requires Inv(s, g) && Startup(g) && Reaches(s, acts, t)
    ensures Inv(t, g)
    decreases |acts|
  {
    if acts != [] {
      NextKeepsInv(s, acts[0], g);
      ReachesKeepsInv(Next(s, acts[0]), acts[1..], t, g);
    }
  }

  lemma ReachableInv(g: Globals, s: State)
    requires Startup(g) && Reachable(g, s)
    ensures Inv(s, g)
  {
    var acts :| Reaches(Init(true, g), acts, s);
    ReachesKeepsInv(Init(true, g), acts, s, g);
  }

  // ----- what the lock guarantees, over every interleaving of any number of calls

  /** Whenever the mutex is free, after any mix of successes and early errors, nothing is left behind. */
  lemma FreeMutexMeansStartupGlobals(g: Globals, s: State)
    requires Startup(g) && Reachable(g, s) && s.mutex == None
    ensures s.globals == g
  {
    ReachableInv(g, s);
  }

  /** At most one call is between its Lock and its Unlock. */
  lemma MutualExclusion(g: Globals, s: State, i: nat, j: nat)
    requires Startup(g) && Reachable(g, s) && i < |s.threads| && j < |s.threads|
    requires !Idle(s.threads[i]) && !Idle(s.threads[j])
    ensures i == j && s.mutex == Some(i)
  {
    ReachableInv(g, s);
  }

  /** The globals that a call's own overrides leave in force at the program point `at` of a read. */
  function OwnView(call: Call, i: nat, at: nat, g: Globals): Globals {
    match call.tool
    case ToolHealth | ToolShareLive => g
    case ToolCapture => g.(source := Recorder(i, g.source))
    case ToolReplay => if at < 12 then ReplayView(g, Replay(i, 0), call.first) else g
    case ToolDiff => if at < 14 then ReplayView(g, Replay(i, 0), call.first)
      else ReplayView(g, Replay(i, 1), call.second)
    case ToolShareBundle =>
      if at < 14 then ReplayView(g, Replay(i, 0), call.first)
      else g.(identity := IdentityOf(call.first), platform := PlatformOf(call.first))
    case ToolShareSnapshot => g.(identity := SnapshotIdentity(call.first))
  }

  lemma {:induction false} TableView(call: Call, i: nat, at: nat, g: Globals)
    requires at < |Program(call.tool)| && Program(call.tool)[at] in {Probe, Collect}
    ensures Expected(call, i, at, g).globals == OwnView(call, i, at, g)
  {
    assert at >= 2 && Body(call.tool)[at - 2] in {Probe, Collect};
    ReadPoints(call.tool, at);
  }

  /** The program points at which the replaying tools read. */
  lemma ReadPoints(tool: Tool, at: nat)
    requires 2 <= at < |Program(tool)| && Body(tool)[at - 2] in {Probe, Collect}
    ensures tool == ToolCapture ==> at >= 4
    ensures tool == ToolReplay ==> at == 9 || at == 10 || at == 12
    ensures tool == ToolDiff ==> at == 11 || at == 12 || at == 19 || at == 20
    ensures tool == ToolShareBundle ==> at == 11 || at == 12 || at == 17
    ensures tool == ToolShareSnapshot ==> at == 7
  {
  }

  /**
   Every read that a call makes before it returns sees the source, gap counter and overrides that this call has in
   force there, and no other call's. Whether those are the ones it should have is asked in `McpRender`.
   */
  lemma ReadsAreOwn(g: Globals, s: State, k: nat)
    requires Startup(g) && Reachable(g, s) && k < |s.trace| && !s.trace[k].stray
    ensures s.trace[k].reader < |s.threads|
    ensures s.trace[k].seen == OwnView(s.threads[s.trace[k].reader].call, s.trace[k].reader, s.trace[k].at, g)
  {
    ReachableInv(g, s);
    assert OwnEvent(s.threads, s.trace[k], g);
    TableView(s.threads[s.trace[k].reader].call, s.trace[k].reader, s.trace[k].at, g);
  }

  /** The read was recorded into the bundle of a call that did not issue it. */
  predicate Recorded(e: Event) {
    exists owner :: owner in Tees(e.seen.source) && owner != e.reader
  }

  /** The read was answered from a bundle that a call which did not issue it replays. */
  predicate Served(e: Event) {
    Backend(e.seen.source).Replay? && Backend(e.seen.source).owner != e.reader
  }

  /** The read tees into, or goes through, the source of another call. */
  predicate Contaminates(e: Event) {
    Recorded(e) || Served(e)
  }

  lemma OwnViewIsClean(call: Call, i: nat, at: nat, g: Globals)
    requires Startup(g)
    ensures var source := OwnView(call, i, at, g).source;
      Tees(source) <= {i} && (Backend(source).Replay? ==> Backend(source).owner == i)
  {
    assert Tees(Live) == {} && Tees(Recorder(i, Live)) == {i} && Backend(Recorder(i, Live)) == Live;
  }

  /** Only a stray can read through another call's source or put a foreign read into a capture's bundle. */
  lemma OnlyStraysContaminate(g: Globals, s: State, k: nat)
    requires Startup(g) && Reachable(g, s) && k < |s.trace| && Contaminates(s.trace[k])
    ensures s.trace[k].stray
  {
    var e := s.trace[k];
    if !e.stray {
      ReadsAreOwn(g, s, k);
      OwnViewIsClean(s.threads[e.reader].call, e.reader, e.at, g);
    }
  }
}
