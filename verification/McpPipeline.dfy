/**
 The five MCP tool handlers as a transition system over any number of concurrent calls.

 A call is a program of instructions with a program counter and Go's stack of deferred actions;
 calls interleave one instruction, one read or one deferred action at a time. A collector that
 outlives its deadline is abandoned by runner.runOne and goes on reading through whatever source is
 active when it next runs: such a goroutine is a "stray" of its call.
 */
module McpPipeline {
  import opened Wrappers
  import opened ProcessState

  datatype Instr =
    | Lock
    | DeferUnlock
    | Check                    // an operation that may return early with an error
    | Probe                    // reads on the handler's own goroutine, rendering included
    | Collect                  // runner.RunAll: reads by collectors, which may be abandoned
    | InstallRecorder
    | Enter                    // call of a function with defers of its own
    | InstallReplay(slot: nat)
    | SetGap(slot: nat)
    | DeferIdentity(slot: nat)
    | DeferPlatform(slot: nat)
    | Leave                    // that function returns: its defers run
    | HoldIdentity(slot: nat)  // an override whose restore closure is kept in a local ...
    | HoldPlatform(slot: nat)
    | HoldHost(slot: nat)      // the same for a snapshot, which has a host name only
    | DeferHeld                // ... until `defer src.restore()`

  datatype Tool =
    | ToolHealth
    | ToolCapture
    | ToolReplay
    | ToolDiff
    | ToolShareLive
    | ToolShareBundle
    | ToolShareSnapshot

  /** A tool call and the manifests of the (at most two) bundles or snapshots it loads. */
  datatype Call = Call(tool: Tool, first: Manifest, second: Manifest) {
    function At(slot: nat): Manifest {
      if slot == 0 then first else second
    }
  }

  /** The body of replayBundle. */
  function ReplayBody(slot: nat): seq<Instr> {
    [Enter, InstallReplay(slot), SetGap(slot), DeferIdentity(slot), DeferPlatform(slot), Probe, Collect, Leave]
  }

  /** The body of each handler after `mcpPipelineMu.Lock(); defer mcpPipelineMu.Unlock()`. */
  function Body(tool: Tool): seq<Instr> {
    match tool
    case ToolHealth => [Probe, Collect, Probe, Check]
    case ToolCapture => [Check, InstallRecorder, Probe, Collect, Probe, Check]
    case ToolReplay => [Check, Check] + ReplayBody(0) + [Probe, Check]
    case ToolDiff => [Check, Check, Check, Check] + ReplayBody(0) + ReplayBody(1) + [Check]
    case ToolShareLive => [Check, Probe, Collect, Check, Probe, Probe, Check]
    case ToolShareBundle =>
      [Check, Check, Check, Check] + ReplayBody(0) + [HoldIdentity(0), HoldPlatform(0), DeferHeld, Probe, Check]
    case ToolShareSnapshot => [Check, Check, Check, HoldHost(0), DeferHeld, Probe, Check]
  }

  function Program(tool: Tool): seq<Instr> {
    [Lock, DeferUnlock] + Body(tool)
  }

  /** What one call can touch without the scheduler: the globals and its own stacks of undo actions. */
  datatype Local = Local(globals: Globals, frames: Stack<Stack<Undo>>, held: Stack<Undo>)

  /** `defer u`, in the function that is executing. */
  function Deferring(l: Local, u: Undo): Local {
    match l.frames
    case Push(frame, below) => l.(frames := Push(Push(u, frame), below))
    case Empty => l
  }

  function Append(us: Stack<Undo>, below: Stack<Undo>): Stack<Undo> {
    match us
    case Empty => below
    case Push(u, rest) => Push(u, Append(rest, below))
  }

  /** The effect of an instruction on the globals and on the call's undo actions. */
  function Effect(instr: Instr, l: Local, call: Call, i: nat): Local {
    var g := l.globals;
    match instr
    case DeferUnlock => Deferring(l, Unlock)
    case InstallRecorder =>
      Deferring(l.(globals := g.(source := Recorder(i, g.source))), PutSource(g.source))
    case Enter => l.(frames := Push(Empty, l.frames))
    case InstallReplay(slot) =>
      Deferring(l.(globals := g.(source := Replay(i, slot))), PutSource(g.source))
    case SetGap(slot) =>
      Deferring(l.(globals := g.(gapCount := Some(Replay(i, slot)))), ClearGap)
    case DeferIdentity(slot) =>
      Deferring(l.(globals := g.(identity := IdentityOf(call.At(slot)))), PutIdentity(g.identity))
    case DeferPlatform(slot) =>
      Deferring(l.(globals := g.(platform := PlatformOf(call.At(slot)))), PutPlatform(g.platform))
    case HoldIdentity(slot) =>
      l.(globals := g.(identity := IdentityOf(call.At(slot))), held := Push(PutIdentity(g.identity), l.held))
    case HoldHost(slot) =>
      l.(globals := g.(identity := SnapshotIdentity(call.At(slot))), held := Push(PutIdentity(g.identity), l.held))
    case HoldPlatform(slot) =>
      l.(globals := g.(platform := PlatformOf(call.At(slot))), held := Push(PutPlatform(g.platform), l.held))
    case DeferHeld =>
      (match l.frames
       case Push(frame, below) => Local(g, Push(Append(l.held, frame), below), Empty)
       case Empty => l)
    case _ => l
  }

  // ----- the transition system

  datatype Phase =
    | Running
    | Leaving    // running the defers of the function that is returning
    | Unwinding  // the handler is returning: running every defer that is left
    | Done

  /** `strays` are the program points of the collectors that this call abandoned. */
  datatype Thread = Thread(call: Call, pc: nat, phase: Phase, frames: Stack<Stack<Undo>>, held: Stack<Undo>,
                           strays: seq<nat>)

  /**
   A read issued on behalf of call `reader` at its program point `at`, the globals it saw, and whether it
   asked a bundle for an input that was never recorded.
   */
  datatype Event = Event(reader: nat, at: nat, stray: bool, missed: bool, seen: Globals)

  /** `locking` is false only in the counterfactual system without mcpPipelineMu. */
  datatype State = State(locking: bool, globals: Globals, mutex: Option<nat>, threads: seq<Thread>, trace: seq<Event>)

  datatype Action =
    | Spawn(call: Call)
    | Run(i: nat)
    | Fail(i: nat)
    | Pop(i: nat)
    | Read(i: nat, missed: bool)
    | Abandon(i: nat)
    | StrayRead(i: nat, k: nat, missed: bool)
    | StrayEnd(i: nat, k: nat)

  predicate Active(s: State, i: nat, phase: Phase) {
    i < |s.threads| && s.threads[i].phase == phase
  }

  predicate At(s: State, i: nat, instrs: set<Instr>) {
    Active(s, i, Running) && s.threads[i].pc < |Program(s.threads[i].call.tool)| &&
    Program(s.threads[i].call.tool)[s.threads[i].pc] in instrs
  }

  /** Only a bundle can refuse an input because it was never recorded. */
  predicate CanMiss(g: Globals, missed: bool) {
    missed ==> Backend(g.source).Replay?
  }

  predicate Enabled(s: State, a: Action) {
    match a
    case Spawn(_) => true
    case Run(i) => Active(s, i, Running) && (At(s, i, {Lock}) && s.locking ==> s.mutex == None)
    case Fail(i) => At(s, i, {Check})
    case Pop(i) => Active(s, i, Leaving) || Active(s, i, Unwinding)
    case Read(i, missed) => At(s, i, {Probe, Collect}) && CanMiss(s.globals, missed)
    case Abandon(i) => At(s, i, {Collect})
    case StrayRead(i, k, missed) => i < |s.threads| && k < |s.threads[i].strays| && CanMiss(s.globals, missed)
    case StrayEnd(i, k) => i < |s.threads| && k < |s.threads[i].strays|
  }

  function Flatten(frames: Stack<Stack<Undo>>): Stack<Undo> {
    match frames
    case Empty => Empty
    case Push(frame, below) => Append(frame, Flatten(below))
  }

  /** A return, normal or early: the defers of every active function run, innermost first. */
  function Unwound(t: Thread): Thread {
    t.(phase := Unwinding, frames := Push(Flatten(t.frames), Empty))
  }

  function With(s: State, i: nat, t: Thread): State
    requires i < |s.threads|
  {
    s.(threads := s.threads[i := t])
  }

  function RunOne(s: State, i: nat): State
    requires Enabled(s, Run(i))
  {
    var t := s.threads[i];
    var program := Program(t.call.tool);
    if t.pc >= |program| then With(s, i, Unwound(t))
    else if program[t.pc] == Leave then With(s, i, t.(phase := Leaving))
    else
      var l := Effect(program[t.pc], Local(s.globals, t.frames, t.held), t.call, i);
      var s' := With(s, i, t.(pc := t.pc + 1, frames := l.frames, held := l.held));
      if program[t.pc] == Lock && s.locking then s'.(mutex := Some(i)) else s'.(globals := l.globals)
  }

  function PopOne(s: State, i: nat): State
    requires Enabled(s, Pop(i))
  {
    var t := s.threads[i];
    match t.frames
    case Push(Push(u, rest), below) =>
      var s' := With(s, i, t.(frames := Push(rest, below)));
      if u == Unlock && s.locking then s'.(mutex := None) else s'.(globals := Undone(s.globals, u))
    case Push(Empty, below) =>
      if t.phase == Leaving then With(s, i, t.(phase := Running, pc := t.pc + 1, frames := below))
      else With(s, i, t.(phase := Done, frames := Empty))
    case Empty => With(s, i, t.(phase := Done))
  }

  function Next(s: State, a: Action): State
    requires Enabled(s, a)
  {
    match a
    case Spawn(call) => s.(threads := s.threads + [Thread(call, 0, Running, Push(Empty, Empty), Empty, [])])
    case Run(i) => RunOne(s, i)
    case Fail(i) => With(s, i, Unwound(s.threads[i]))
    case Pop(i) => PopOne(s, i)
    case Read(i, missed) => s.(trace := s.trace + [Event(i, s.threads[i].pc, false, missed, s.globals)])
    case Abandon(i) =>
      var t := s.threads[i];
      With(s, i, t.(strays := t.strays + [t.pc]))
    case StrayRead(i, k, missed) =>
      s.(trace := s.trace + [Event(i, s.threads[i].strays[k], true, missed, s.globals)])
    case StrayEnd(i, k) =>
      var t := s.threads[i];
      With(s, i, t.(strays := t.strays[..k] + t.strays[k + 1..]))
  }

  /** `t` is reached from `s` by performing `acts` in order. */
  ghost predicate Reaches(s: State, acts: seq<Action>, t: State)
    decreases |acts|
  {
    if acts == [] then s == t
    else Enabled(s, acts[0]) && Reaches(Next(s, acts[0]), acts[1..], t)
  }

  /** The server at startup: the live source, no gap counter, no call yet. */
  ghost predicate Startup(g: Globals) {
    g.source == Live && g.gapCount == None
  }

  function Init(locking: bool, g: Globals): State {
    State(locking, g, None, [], [])
  }

  ghost predicate Reachable(g: Globals, s: State) {
    exists acts :: Reaches(Init(true, g), acts, s)
  }
}
