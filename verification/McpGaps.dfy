/**
 The gap counter of a replay under concurrency. runner.RunAll attributes to a collector every input that the
 bundle refused while the collector ran; the counter does not say who asked.
 */
module McpGaps {
  import opened Wrappers
  import opened ProcessState
  import opened McpPipeline
  import opened McpTable
  import opened McpSafety
  import opened McpRelease
  import opened McpStrays

  /** The read raised the counter of this replay. */
  predicate Counts(e: Event, replay: Source) {
    e.missed && Backend(e.seen.source) == replay
  }

  /** The counter of a replay: how many reads it has refused. */
  function Gaps(trace: seq<Event>, replay: Source): nat {
    if trace == [] then 0 else Gaps(trace[..|trace| - 1], replay) + if Counts(trace[|trace| - 1], replay) then 1 else 0
  }

  lemma {:induction false} GapsRise(trace: seq<Event>, from: nat, replay: Source)
    requires from <= |trace|
    ensures Gaps(trace[..from], replay) <= Gaps(trace, replay)
    ensures Gaps(trace[..from], replay) < Gaps(trace, replay) <==>
      exists k :: from <= k < |trace| && Counts(trace[k], replay)
    decreases |trace|
  {
    if from == |trace| {
      assert trace[..from] == trace;
    } else {
      var n := |trace| - 1;
      assert trace[..n][..from] == trace[..from];
      GapsRise(trace[..n], from, replay);
      if Counts(trace[n], replay) {
        assert from <= n < |trace|;
      } else if exists k :: from <= k < |trace| && Counts(trace[k], replay) {
        var k :| from <= k < |trace| && Counts(trace[k], replay);
        assert trace[..n][k] == trace[k];
      }
    }
  }

  /** One collector of call `i` runs from `u` to `t`, while others do what they may. */
  ghost predicate CollectorRuns(u: State, acts: seq<Action>, t: State, i: nat) {
    At(u, i, {Collect}) && Reaches(u, acts, t) && forall k :: 0 <= k < |acts| ==> acts[k] != Run(i)
  }

  /** What RunAll then reports: the gap counter, if one is installed, has risen. */
  ghost predicate NotRecorded(u: State, t: State) {
    u.globals.gapCount.Some? && Gaps(u.trace, u.globals.gapCount.value) < Gaps(t.trace, u.globals.gapCount.value)
  }

  /** The collector itself asked its bundle for an input that was never recorded. */
  ghost predicate HitGap(u: State, t: State, i: nat) {
    exists k :: |u.trace| <= k < |t.trace| && !t.trace[k].stray && t.trace[k].reader == i && t.trace[k].missed
  }

  /** An abandoned collector, of this call or another, asked that bundle for one meanwhile. */
  ghost predicate StrayHitGap(u: State, t: State) {
    exists k :: |u.trace| <= k < |t.trace| && t.trace[k].stray && Counts(t.trace[k], u.globals.source)
  }

  lemma {:induction false} TraceGrows(s: State, acts: seq<Action>, t: State)
    requires Reaches(s, acts, t)
    ensures s.trace <= t.trace && |s.threads| <= |t.threads|
    ensures forall j :: 0 <= j < |s.threads| ==> t.threads[j].call == s.threads[j].call
    decreases |acts|
  {
    if acts != [] {
      TraceGrows(Next(s, acts[0]), acts[1..], t);
    }
  }

  /** Until it returns from its collectors, a call stays where it is and keeps what it installed. */
  lemma {:induction false} StaysCollecting(u: State, acts: seq<Action>, t: State, i: nat, g: Globals)
    requires Inv(u, g) && Startup(g) && CollectorRuns(u, acts, t, i)
    ensures Inv(t, g) && At(t, i, {Collect}) && t.threads[i].pc == u.threads[i].pc && t.globals == u.globals
    ensures forall k :: |u.trace| <= k < |t.trace| ==> t.trace[k].seen == u.globals
    decreases |acts|
  {
    if acts != [] {
      var u' := Next(u, acts[0]);
      NextKeepsInv(u, acts[0], g);
      OneStepCollecting(u, acts[0], i, g);
      assert forall k :: 0 <= k < |acts[1..]| ==> acts[1..][k] == acts[k + 1];
      StaysCollecting(u', acts[1..], t, i, g);
      TraceGrows(u', acts[1..], t);
    }
  }

  lemma {:induction false} OneStepCollecting(u: State, a: Action, i: nat, g: Globals)
    requires Inv(u, g) && Startup(g) && At(u, i, {Collect}) && Enabled(u, a) && a != Run(i)
    ensures At(Next(u, a), i, {Collect}) && Next(u, a).threads[i].pc == u.threads[i].pc
      && Next(u, a).globals == u.globals
    ensures Next(u, a).trace == u.trace || exists e :: Next(u, a).trace == u.trace + [e] && e.seen == u.globals
  {
    CollectsUnderOwnView(u, i, g);
    if a.Run? || a.Fail? || a.Pop? {
      ScheduledOnlyMoves(u, a);
    }
  }

  /** While a collector of a replay runs, the counter rises through its own misses and those of strays only. */
  lemma {:induction false} OnlyOwnAndStrayMissesCount(u: State, acts: seq<Action>, t: State, i: nat, g: Globals, k: nat)
    requires Inv(u, g) && Startup(g) && CollectorRuns(u, acts, t, i) && |u.trace| <= k < |t.trace|
    requires u.globals.source.Replay?
    ensures t.trace[k].stray || t.trace[k].reader == i
    ensures Counts(t.trace[k], u.globals.source) <==> t.trace[k].missed
  {
    StaysCollecting(u, acts, t, i, g);
    var e := t.trace[k];
    assert OwnEvent(t.threads, e, g);
    if !e.stray {
      TableView(t.threads[e.reader].call, e.reader, e.at, g);
      OwnViewIsClean(t.threads[e.reader].call, e.reader, e.at, g);
      CollectsUnderOwnView(u, i, g);
      OwnViewIsClean(u.threads[i].call, i, u.threads[i].pc, g);
    }
  }

  /** A gap counter is installed only together with the replay it counts for. */
  lemma {:induction false} CounterCountsSource(u: State, i: nat, g: Globals)
    requires Inv(u, g) && Startup(g) && At(u, i, {Collect})
    ensures u.globals.gapCount.Some? ==> u.globals.source.Replay? && u.globals.gapCount.value == u.globals.source
  {
    CollectsUnderOwnView(u, i, g);
  }

  /**
   In every run: RunAll marks a collector "not recorded" exactly when a gap counter is installed and the
   collector, or an abandoned one, asked the bundle for an unrecorded input while it ran. So the mark says what
   it is documented to say, that the collector itself hit a gap, iff no abandoned one did instead.
   */
  lemma NotRecordedMeans(g: Globals, u: State, acts: seq<Action>, t: State, i: nat)
    requires Startup(g) && Reachable(g, u) && CollectorRuns(u, acts, t, i) && u.globals.gapCount.Some?
    ensures NotRecorded(u, t) <==> HitGap(u, t, i) || StrayHitGap(u, t)
    ensures (NotRecorded(u, t) <==> HitGap(u, t, i)) <==> (StrayHitGap(u, t) ==> HitGap(u, t, i))
  {
    ReachableInv(g, u);
    CounterCountsSource(u, i, g);
    TraceGrows(u, acts, t);
    var replay := u.globals.source;
    assert t.trace[..|u.trace|] == u.trace;
    GapsRise(t.trace, |u.trace|, replay);
    forall k | |u.trace| <= k < |t.trace|
      ensures (t.trace[k].stray || t.trace[k].reader == i) && (Counts(t.trace[k], replay) <==> t.trace[k].missed)
    {
      OnlyOwnAndStrayMissesCount(u, acts, t, i, g, k);
    }
  }

  // ----- whether it can go wrong

  /** Some continuation marks a collector although it asked for nothing its bundle lacks. */
  ghost predicate CanMisattribute(s: State) {
    exists before, u, acts, t, i :: Reaches(s, before, u) && AbandonsNothing(before) && AbandonsNothing(acts)
      && CollectorRuns(u, acts, t, i) && NotRecorded(u, t) && !HitGap(u, t, i)
  }

  /** Exactly when: an abandoned collector is outstanding. */
  lemma MisattributionIffStray(g: Globals, s: State)
    requires Startup(g) && Reachable(g, s)
    ensures CanMisattribute(s) <==> HasStray(s)
  {
    ReachableInv(g, s);
    if HasStray(s) {
      var i :| 0 <= i < |s.threads| && s.threads[i].strays != [];
      StrayMisattributes(s, i, g);
    } else if CanMisattribute(s) {
      var before, u, acts, t, i :| Reaches(s, before, u) && AbandonsNothing(before) && AbandonsNothing(acts)
        && CollectorRuns(u, acts, t, i) && NotRecorded(u, t) && !HitGap(u, t, i);
      NoStrayAttributes(g, s, before, u, acts, t, i);
    }
  }

  lemma {:induction false} StrayMisattributes(s: State, i: nat, g: Globals)
    requires Inv(s, g) && Startup(g) && i < |s.threads| && s.threads[i].strays != []
    ensures CanMisattribute(s)
  {
    var before, u, owner := StrayCanMeet(s, i, ToolReplay, g);
    var a, e := StrayReads(u, i, owner, ToolReplay, g);
    ReachesOne(u, a);
    OneStrayMiss(u, Next(u, a), e, owner);
    assert CollectorRuns(u, [a], Next(u, a), owner) && AbandonsNothing([a]);
  }

  lemma OneStrayMiss(u: State, t: State, e: Event, i: nat)
    requires t.trace == u.trace + [e] && e.stray && e.missed && e.seen == u.globals
    requires u.globals.source.Replay? && u.globals.gapCount == Some(u.globals.source)
    ensures NotRecorded(u, t) && !HitGap(u, t, i)
  {
    assert t.trace[..|u.trace|] == u.trace && t.trace[|u.trace|] == e;
    GapsRise(t.trace, |u.trace|, u.globals.source);
    assert Counts(e, u.globals.source);
  }

  lemma {:induction false} NoStrayAttributes(g: Globals, s: State, before: seq<Action>, u: State, acts: seq<Action>,
                                             t: State, i: nat)
    requires Startup(g) && Reachable(g, s) && !HasStray(s) && Reaches(s, before, u) && AbandonsNothing(before)
    requires AbandonsNothing(acts) && CollectorRuns(u, acts, t, i) && NotRecorded(u, t)
    ensures HitGap(u, t, i)
  {
    ReachableInv(g, s);
    ReachableThen(g, s, before, u);
    ReachesTrans(s, before, u, acts, t);
    NoStrayNoContamination(s, before + acts, t, g, |s.trace|);
    TraceGrows(s, before, u);
    NotRecordedMeans(g, u, acts, t, i);
  }

  lemma ReachableThen(g: Globals, s: State, acts: seq<Action>, t: State)
    requires Reachable(g, s) && Reaches(s, acts, t)
    ensures Reachable(g, t)
  {
    var first :| Reaches(Init(true, g), first, s);
    ReachesTrans(Init(true, g), first, s, acts, t);
  }

  /** A run, with the lock, in which a collector that asked for nothing is marked "not recorded". */
  lemma MisattributionHappens(g: Globals) returns (u: State, acts: seq<Action>, t: State, i: nat)
    requires Startup(g)
    ensures Reachable(g, u) && CollectorRuns(u, acts, t, i) && NotRecorded(u, t) && !HitGap(u, t, i)
  {
    var first, s := TimeoutLeavesStray(g);
    MisattributionIffStray(g, s);
    var before;
    before, u, acts, t, i :| Reaches(s, before, u) && AbandonsNothing(before) && AbandonsNothing(acts)
      && CollectorRuns(u, acts, t, i) && NotRecorded(u, t) && !HitGap(u, t, i);
    ReachableThen(g, s, before, u);
  }
}
