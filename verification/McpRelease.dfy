/**
 Runs of the handlers as sequences of actions, and that mcpPipelineMu is always released: the call that holds
 it always has a step to take, and can take only so many before it lets go.
 */
module McpRelease {
  import opened Wrappers
  import opened ProcessState
  import opened McpPipeline
  import opened McpTable
  import opened McpSafety

  ghost predicate AbandonsNothing(acts: seq<Action>) {
    forall k :: 0 <= k < |acts| ==> !acts[k].Abandon?
  }

  lemma {:induction false} ReachesTrans(s: State, a: seq<Action>, t: State, b: seq<Action>, u: State)
    requires Reaches(s, a, t) && Reaches(t, b, u)
    ensures Reaches(s, a + b, u)
    decreases |a|
  {
    if a == [] {
      assert a + b == b;
    } else {
      ReachesTrans(Next(s, a[0]), a[1..], t, b, u);
      assert (a + b)[1..] == a[1..] + b;
    }
  }

  lemma ReachesOne(s: State, a: Action)
    requires Enabled(s, a)
    ensures Reaches(s, [a], Next(s, a))
  {
    assert [a][1..] == [] && Reaches(Next(s, a), [], Next(s, a));
  }

  ghost predicate SameStrays(s: State, t: State) {
    |s.threads| == |t.threads| && forall j :: 0 <= j < |s.threads| ==> t.threads[j].strays == s.threads[j].strays
  }

  // ----- how much a call has left to do

  function Depth(us: Stack<Undo>): nat {
    match us
    case Empty => 0
    case Push(_, rest) => 1 + Depth(rest)
  }

  /** No handler ever has more defers to run. */
  const MAX_DEFERS: nat := 5

  /** An upper bound on the steps a call can take before it has released the mutex. */
  function Work(t: Thread): nat {
    var ahead := if t.pc <= |Program(t.call.tool)| then |Program(t.call.tool)| - t.pc else 0;
    var deferred := if t.frames.Push? then Depth(t.frames.top) else 0;
    match t.phase
    case Running => 8 * ahead + 8
    case Leaving => 8 * ahead + 1 + deferred
    case Unwinding => 1 + deferred
    case Done => 0
  }

  /** A step of the program or of the defers of call `i`. */
  predicate StepOf(a: Action, i: nat) {
    a == Run(i) || a == Fail(i) || a == Pop(i)
  }

  lemma {:induction false} LockedPastLock(s: State, i: nat, g: Globals)
    requires Inv(s, g) && s.mutex == Some(i) && s.threads[i].phase == Running
    ensures Enabled(s, Run(i))
  {
    var t := s.threads[i];
    assert Holds(t, i, s.globals, g);
    if t.pc < |Program(t.call.tool)| {
      LockOnce(t.call.tool, t.pc);
    }
  }

  lemma ReturnDefersFew(call: Call, i: nat, pc: nat, g: Globals)
    requires 2 <= pc <= |Program(call.tool)| && (pc < |Program(call.tool)| ==> Program(call.tool)[pc] == Check)
    requires g.gapCount == None
    ensures Depth(Flatten(Expected(call, i, pc, g).frames)) <= MAX_DEFERS
  {
    var l := Expected(call, i, pc, g);
    assert pc < |Program(call.tool)| ==> Body(call.tool)[pc - 2] == Check;
    var undo1 := Push(PutIdentity(g.identity), Empty);
    match call.tool
    case ToolCapture => AppendEmpty(l.frames.top);
    case ToolShareBundle =>
      AppendEmpty(l.frames.top);
      if pc >= 15 {
        assert pc >= 17;
        DepthOfAppend(Push(PutPlatform(g.platform), undo1), OUTER);
      }
    case ToolShareSnapshot =>
      AppendEmpty(l.frames.top);
      DepthOfAppend(undo1, OUTER);
    case _ =>
      BaseAtReturn(call, i, pc, g);
      AppendEmpty(OUTER);
  }

  lemma {:induction false} DepthOfAppend(us: Stack<Undo>, below: Stack<Undo>)
    ensures Depth(Append(us, below)) == Depth(us) + Depth(below)
  {
    if us.Push? { DepthOfAppend(us.rest, below); }
  }

  lemma {:induction false} ReturnWorks(s: State, a: Action, i: nat, g: Globals)
    requires Inv(s, g) && Startup(g) && s.mutex == Some(i) && Enabled(s, a)
    requires a == Fail(i) || (a == Run(i) && s.threads[i].pc >= |Program(s.threads[i].call.tool)|)
    ensures Work(Next(s, a).threads[i]) < Work(s.threads[i])
  {
    var t := s.threads[i];
    assert Holds(t, i, s.globals, g) && Program(t.call.tool)[0] == Lock && Program(t.call.tool)[1] == DeferUnlock;
    ReturnDefersFew(t.call, i, t.pc, g);
    assert Next(s, a).threads[i] == Unwound(t);
  }

  lemma ReplayDefersFour(slot: nat, call: Call, i: nat, g: Globals)
    ensures var frames := InReplay(7, slot, call, i, g).frames; frames.Push? && Depth(frames.top) == 4
  {
    var d1 := Push(PutSource(g.source), Empty);
    var d2 := Push(ClearGap, d1);
    var d3 := Push(PutIdentity(g.identity), d2);
    assert Depth(d1) == 1;
    assert Depth(d2) == 1 + Depth(d1);
    assert Depth(d3) == 1 + Depth(d2);
    assert InReplay(7, slot, call, i, g).frames.top == Push(PutPlatform(g.platform), d3);
  }

  lemma {:induction false} LeaveWorks(s: State, i: nat, g: Globals)
    requires Inv(s, g) && Startup(g) && s.mutex == Some(i) && Enabled(s, Run(i)) && At(s, i, {Leave})
    ensures Work(Next(s, Run(i)).threads[i]) < Work(s.threads[i])
  {
    var t := s.threads[i];
    assert Holds(t, i, s.globals, g) && Program(t.call.tool)[0] == Lock && Program(t.call.tool)[1] == DeferUnlock;
    var slot := AtLeave(t.call, i, t.pc, g);
    ReplayDefersFour(slot, t.call, i, g);
    assert Next(s, Run(i)).threads[i] == t.(phase := Leaving);
  }

  lemma {:induction false} InstrWorks(s: State, i: nat, g: Globals)
    requires Inv(s, g) && s.mutex == Some(i) && Enabled(s, Run(i))
    requires s.threads[i].pc < |Program(s.threads[i].call.tool)| && !At(s, i, {Leave})
    ensures Work(Next(s, Run(i)).threads[i]) < Work(s.threads[i])
  {
    var t := s.threads[i];
    assert Next(s, Run(i)).threads[i].pc == t.pc + 1 && Next(s, Run(i)).threads[i].phase == Running;
  }

  lemma {:induction false} PopWorks(s: State, i: nat, g: Globals)
    requires Inv(s, g) && s.mutex == Some(i) && Enabled(s, Pop(i))
    ensures Next(s, Pop(i)).mutex == Some(i) ==> Work(Next(s, Pop(i)).threads[i]) < Work(s.threads[i])
  {
    assert Holds(s.threads[i], i, s.globals, g);
  }

  /** Each step of the holder leaves it less to do, as long as it holds the mutex. */
  lemma {:induction false} HolderStepWorks(s: State, a: Action, i: nat, g: Globals)
    requires Inv(s, g) && Startup(g) && s.mutex == Some(i) && Enabled(s, a) && StepOf(a, i)
    ensures Next(s, a).mutex == Some(i) ==> Work(Next(s, a).threads[i]) < Work(s.threads[i])
  {
    if a == Pop(i) {
      PopWorks(s, i, g);
    } else if a == Fail(i) || s.threads[i].pc >= |Program(s.threads[i].call.tool)| {
      ReturnWorks(s, a, i, g);
    } else if At(s, i, {Leave}) {
      LeaveWorks(s, i, g);
    } else {
      InstrWorks(s, i, g);
    }
  }

  /** Nothing that anyone else does changes what the holder has left to do. */
  lemma {:induction false} OthersLeaveWork(s: State, a: Action, i: nat, g: Globals)
    requires Inv(s, g) && Startup(g) && s.mutex == Some(i) && Enabled(s, a) && !StepOf(a, i)
    ensures Next(s, a).mutex == Some(i) && Work(Next(s, a).threads[i]) == Work(s.threads[i])
  {
    if a.Run? || a.Fail? || a.Pop? {
      assert Idle(s.threads[a.i]);
      match a
      case Run(j) => RunHolds(s, j, g);
      case Fail(j) => FailHolds(s, j, g);
      case Pop(j) => PopHolds(s, j, g);
    }
  }

  /** Call `i` holds the mutex throughout the run. */
  ghost predicate HeldThroughout(s: State, acts: seq<Action>, i: nat)
    decreases |acts|
  {
    s.mutex == Some(i) && (acts != [] ==> Enabled(s, acts[0]) && HeldThroughout(Next(s, acts[0]), acts[1..], i))
  }

  function StepsOf(acts: seq<Action>, i: nat): nat {
    if acts == [] then 0 else (if StepOf(acts[0], i) then 1 else 0) + StepsOf(acts[1..], i)
  }

  /**
   However the calls are interleaved, a call that holds the mutex throughout a run takes at most `Work` steps in
   it, and at its end there is a step it can take: under every schedule that does not starve it, it lets go.
   */
  lemma {:induction false} HolderReleases(s: State, acts: seq<Action>, t: State, i: nat, g: Globals) returns (a: Action)
    requires Inv(s, g) && Startup(g) && Reaches(s, acts, t) && HeldThroughout(s, acts, i)
    ensures i < |t.threads| && StepsOf(acts, i) + Work(t.threads[i]) <= Work(s.threads[i])
    ensures Enabled(t, a) && StepOf(a, i)
    decreases |acts|
  {
    if acts == [] {
      a := if s.threads[i].phase == Running then Run(i) else Pop(i);
      assert Holds(s.threads[i], i, s.globals, g);
      if s.threads[i].phase == Running {
        LockedPastLock(s, i, g);
      }
    } else {
      NextKeepsInv(s, acts[0], g);
      if StepOf(acts[0], i) {
        HolderStepWorks(s, acts[0], i, g);
      } else {
        OthersLeaveWork(s, acts[0], i, g);
      }
      a := HolderReleases(Next(s, acts[0]), acts[1..], t, i, g);
    }
  }

  // ----- a run to the release

  /** The holder's work, or nothing where the mutex is free. */
  function HeldFor(s: State): nat {
    if s.mutex.Some? && s.mutex.value < |s.threads| then 1 + Work(s.threads[s.mutex.value]) else 0
  }

  lemma {:induction false} HolderAdvances(s: State, g: Globals) returns (a: Action)
    requires Inv(s, g) && Startup(g) && s.mutex.Some?
    ensures Enabled(s, a) && !a.Abandon? && Reaches(s, [a], Next(s, a))
    ensures Inv(Next(s, a), g) && Next(s, a).trace == s.trace && SameStrays(s, Next(s, a))
    ensures HeldFor(Next(s, a)) < HeldFor(s)
  {
    var i := s.mutex.value;
    assert Holds(s.threads[i], i, s.globals, g);
    a := if s.threads[i].phase == Running then Run(i) else Pop(i);
    if s.threads[i].phase == Running {
      LockedPastLock(s, i, g);
    }
    ScheduledOnlyMoves(s, a);
    ScheduledKeepsInv(s, a, g);
    HolderStepWorks(s, a, i, g);
    ReachesOne(s, a);
  }

  /** From every state the holder alone can run to the release, abandoning nothing and reading nothing. */
  lemma {:induction false} MutexIsReleased(s: State, g: Globals) returns (acts: seq<Action>, t: State)
    requires Inv(s, g) && Startup(g)
    ensures Reaches(s, acts, t) && AbandonsNothing(acts) && Inv(t, g)
    ensures t.mutex == None && t.trace == s.trace && SameStrays(s, t)
    decreases HeldFor(s)
  {
    if s.mutex == None {
      acts, t := [], s;
    } else {
      var a := HolderAdvances(s, g);
      var rest, u := MutexIsReleased(Next(s, a), g);
      ReachesTrans(s, [a], Next(s, a), rest, u);
      acts, t := [a] + rest, u;
    }
  }
}
