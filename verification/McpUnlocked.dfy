/** What mcpPipelineMu is for: the same handlers without it. */
module McpUnlocked {
  import opened Wrappers
  import opened ProcessState
  import opened McpPipeline
  import opened McpTable
  import opened McpRelease

  /**
   Without mcpPipelineMu two captures can restore each other's Recorder: both calls have returned, no
   collector was abandoned, and the process goes on recording into the first capture's bundle for good.
   */
  lemma WithoutLockRecorderLeaks(g: Globals) returns (acts: seq<Action>, t: State)
    requires Startup(g)
    ensures Reaches(Init(false, g), acts, t) && AbandonsNothing(acts)
    ensures forall i :: 0 <= i < |t.threads| ==>
      t.threads[i].phase == Unwinding && t.threads[i].frames == Push(Empty, Empty)
    ensures t.globals == g.(source := Recorder(0, g.source))
  {
    var none := Manifest("", "", "", "", "");
    var call := Call(ToolCapture, none, none);
    var s0, s1 := Init(false, g), Next(Init(false, g), Spawn(call));
    var s2 := Next(s1, Spawn(call));
    var a1, t1 := UnlockedCaptureInstalls(s2, 0);
    var a2, t2 := UnlockedCaptureInstalls(t1, 1);
    var a3, t3 := UnlockedCaptureReturns(t2, 0, g.source);
    var a4, t4 := UnlockedCaptureReturns(t3, 1, Recorder(0, g.source));
    ReachesOne(s0, Spawn(call));
    ReachesOne(s1, Spawn(call));
    ReachesTrans(s0, [Spawn(call)], s1, [Spawn(call)], s2);
    var spawns := [Spawn(call)] + [Spawn(call)];
    ReachesTrans(s0, spawns, s2, a1, t1);
    ReachesTrans(s0, spawns + a1, t1, a2, t2);
    ReachesTrans(s0, spawns + a1 + a2, t2, a3, t3);
    ReachesTrans(s0, spawns + a1 + a2 + a3, t3, a4, t4);
    acts, t := spawns + a1 + a2 + a3 + a4, t4;
  }

  lemma {:induction false} UnlockedCaptureInstalls(s: State, i: nat) returns (acts: seq<Action>, t: State)
    requires !s.locking && i < |s.threads| && s.threads[i].call.tool == ToolCapture
    requires s.threads[i].phase == Running && s.threads[i].pc == 0 && s.threads[i].frames == Push(Empty, Empty)
    ensures Reaches(s, acts, t) && AbandonsNothing(acts) && !t.locking
    ensures t.globals == s.globals.(source := Recorder(i, s.globals.source))
    ensures var frames := Push(Push(PutSource(s.globals.source), OUTER), Empty);
      t.threads == s.threads[i := s.threads[i].(pc := 4, frames := frames)]
  {
    assert Program(ToolCapture) == [Lock, DeferUnlock, Check, InstallRecorder, Probe, Collect, Probe, Check];
    var s1 := Next(s, Run(i));
    ReachesOne(s, Run(i));
    var s2 := Next(s1, Run(i));
    ReachesOne(s1, Run(i));
    assert s2.threads == s.threads[i := s.threads[i].(pc := 2, frames := Push(OUTER, Empty))];
    ReachesTrans(s, [Run(i)], s1, [Run(i)], s2);
    t := UnlockedRecorderGoesIn(s2, i);
    ReachesTrans(s, [Run(i)] + [Run(i)], s2, [Run(i)] + [Run(i)], t);
    acts := [Run(i)] + [Run(i)] + ([Run(i)] + [Run(i)]);
  }

  lemma {:induction false} UnlockedRecorderGoesIn(s: State, i: nat) returns (t: State)
    requires !s.locking && i < |s.threads| && s.threads[i].call.tool == ToolCapture
    requires s.threads[i].phase == Running && s.threads[i].pc == 2 && s.threads[i].frames == Push(OUTER, Empty)
    ensures Reaches(s, [Run(i)] + [Run(i)], t) && !t.locking
    ensures t.globals == s.globals.(source := Recorder(i, s.globals.source))
    ensures var frames := Push(Push(PutSource(s.globals.source), OUTER), Empty);
      t.threads == s.threads[i := s.threads[i].(pc := 4, frames := frames)]
  {
    assert Program(ToolCapture) == [Lock, DeferUnlock, Check, InstallRecorder, Probe, Collect, Probe, Check];
    var s1 := Next(s, Run(i));
    ReachesOne(s, Run(i));
    assert s1.threads == s.threads[i := s.threads[i].(pc := 3)];
    t := Next(s1, Run(i));
    ReachesOne(s1, Run(i));
    ReachesTrans(s, [Run(i)], s1, [Run(i)], t);
  }

  /** An installed capture fails while saving its bundle: its defers put `inner` back. */
  lemma {:induction false} UnlockedCaptureReturns(s: State, i: nat, inner: Source) returns (acts: seq<Action>, t: State)
    requires !s.locking && i < |s.threads| && s.threads[i].call.tool == ToolCapture
    requires s.threads[i].phase == Running && s.threads[i].pc == 4
    requires s.threads[i].frames == Push(Push(PutSource(inner), OUTER), Empty)
    ensures Reaches(s, acts, t) && AbandonsNothing(acts) && !t.locking
    ensures t.globals == s.globals.(source := inner)
    ensures |t.threads| == |s.threads| && forall j :: 0 <= j < |s.threads| && j != i ==> t.threads[j] == s.threads[j]
    ensures t.threads[i].phase == Unwinding && t.threads[i].frames == Push(Empty, Empty)
  {
    assert Program(ToolCapture) == [Lock, DeferUnlock, Check, InstallRecorder, Probe, Collect, Probe, Check];
    var s3 := UnlockedCaptureRuns(s, i);
    t := UnlockedUnwinds(s3, i, inner);
    ReachesTrans(s, [Run(i)] + [Run(i)] + [Run(i)], s3, [Fail(i), Pop(i), Pop(i)], t);
    acts := [Run(i)] + [Run(i)] + [Run(i)] + [Fail(i), Pop(i), Pop(i)];
  }

  lemma UnlockedCaptureRuns(s: State, i: nat) returns (t: State)
    requires !s.locking && i < |s.threads| && s.threads[i].call.tool == ToolCapture
    requires s.threads[i].phase == Running && s.threads[i].pc == 4
    ensures Reaches(s, [Run(i)] + [Run(i)] + [Run(i)], t)
    ensures t == s.(threads := s.threads[i := s.threads[i].(pc := 7)])
  {
    assert Program(ToolCapture) == [Lock, DeferUnlock, Check, InstallRecorder, Probe, Collect, Probe, Check];
    var s1 := Next(s, Run(i));
    var s2 := Next(s1, Run(i));
    t := Next(s2, Run(i));
    ReachesTrans(s, [Run(i)], s1, [Run(i)], s2);
    ReachesTrans(s, [Run(i)] + [Run(i)], s2, [Run(i)], t);
  }

  lemma {:induction false} UnlockedUnwinds(s: State, i: nat, inner: Source) returns (t: State)
    requires !s.locking && At(s, i, {Check}) && s.threads[i].frames == Push(Push(PutSource(inner), OUTER), Empty)
    ensures Reaches(s, [Fail(i), Pop(i), Pop(i)], t) && !t.locking
    ensures t.globals == s.globals.(source := inner)
    ensures |t.threads| == |s.threads| && forall j :: 0 <= j < |s.threads| && j != i ==> t.threads[j] == s.threads[j]
    ensures t.threads[i].phase == Unwinding && t.threads[i].frames == Push(Empty, Empty)
  {
    AppendEmpty(Push(PutSource(inner), OUTER));
    assert Flatten(s.threads[i].frames) == Push(PutSource(inner), OUTER);
    var s1 := Next(s, Fail(i));
    assert s1.threads[i].frames == Push(Push(PutSource(inner), OUTER), Empty);
    var s2 := Next(s1, Pop(i));
    t := Next(s2, Pop(i));
    ReachesOne(s2, Pop(i));
    assert [Fail(i), Pop(i), Pop(i)][1..] == [Pop(i), Pop(i)] && [Pop(i), Pop(i)][1..] == [Pop(i)];
    assert Reaches(s1, [Pop(i), Pop(i)], t);
  }
}
