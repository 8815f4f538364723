/** Watch mode: the refresh loop, its cancel channels and its countdown goroutines, which step at any time. */
module Watch {
  import opened Insights
  import opened WatchDiff

  /**
   Where the loop is: about to render first, to make or replace a channel, to render, to start a countdown, or
   waiting.
   */
  datatype Pc = First | MakeFirst | Start | Waiting | Remake | Refresh | Returned

  /** A countdown holds the channel that was current when it was started. Times are nanoseconds. */
  datatype Countdown = Countdown(channel: nat, remaining: int, ticks: nat, live: bool)

  /** `channels[k]` tells whether channel k is open; `panicked` is set by closing a closed one. */
  datatype State = State(
    pc: Pc,
    channels: seq<bool>,
    current: nat,
    panicked: bool,
    countdowns: seq<Countdown>,
    runs: seq<seq<Insight>>,
    printed: seq<Delta>)

  /** The interval must be positive: NewTicker panics otherwise. */
  datatype Config = Config(interval: int, human: bool, sig: Signature)

  const SECOND: int := 1_000_000_000

  const INIT := State(First, [], 0, false, [], [], [])

  datatype Move =
    | Render(insights: seq<Insight>)
    | Make
    | Go
    | Tick
    | Done
    | CountTick(who: nat)
    | CountStop(who: nat)

  /** A countdown whose channel is closed may still tick: a select with two ready cases takes either. */
  predicate Enabled(c: Config, s: State, m: Move) {
    !s.panicked &&
    match m
    case Render(_) => s.pc == First || s.pc == Refresh
    case Make => s.pc == MakeFirst || s.pc == Remake
    case Go => s.pc == Start
    case Tick => s.pc == Waiting
    case Done => s.pc == Waiting
    case CountTick(who) => who < |s.countdowns| && s.countdowns[who].live && c.human
    case CountStop(who) =>
      who < |s.countdowns| && s.countdowns[who].live
      && (!c.human || (s.countdowns[who].channel < |s.channels| && !s.channels[s.countdowns[who].channel]))
  }

  /** close(cancelCh) */
  function Close(s: State): State {
    if s.current < |s.channels| && s.channels[s.current] then s.(channels := s.channels[s.current := false])
    else s.(panicked := true)
  }

  /** cancelCh = make(chan struct{}) */
  function MakeChannel(s: State): State {
    s.(channels := s.channels + [true], current := |s.channels|)
  }

  /** run: render, print what changed since the last rendering, remember it. */
  function Rendered(c: Config, s: State, insights: seq<Insight>): State {
    s.(runs := s.runs + [insights],
       printed := s.printed + if s.runs == [] then [] else [Changes(s.runs[|s.runs| - 1], insights, c.sig)])
  }

  function Ticked(d: Countdown): Countdown {
    var remaining := d.remaining - SECOND;
    d.(remaining := if remaining < 0 then 0 else remaining, ticks := d.ticks + 1)
  }

  function Apply(c: Config, s: State, m: Move): State
    requires Enabled(c, s, m)
  {
    match m
    case Render(insights) => Rendered(c, s, insights).(pc := if s.pc == First then MakeFirst else Start)
    case Make => MakeChannel(s).(pc := if s.pc == MakeFirst then Start else Refresh)
    case Go => s.(countdowns := s.countdowns + [Countdown(s.current, c.interval, 0, true)], pc := Waiting)
    case Tick => Close(s).(pc := Remake)
    case Done => Close(s).(pc := Returned)
    case CountTick(who) => s.(countdowns := s.countdowns[who := Ticked(s.countdowns[who])])
    case CountStop(who) => s.(countdowns := s.countdowns[who := s.countdowns[who].(live := false)])
  }

  /** t is reached from s by these moves. */
  predicate Run(c: Config, s: State, moves: seq<Move>, t: State)
    decreases |moves|
  {
    if moves == [] then s == t
    else Enabled(c, s, moves[0]) && Run(c, Apply(c, s, moves[0]), moves[1..], t)
  }

  // ----- what every step keeps

  ghost predicate ChannelsFit(s: State) {
    && !s.panicked
    && (s.channels == [] <==> s.pc in {First, MakeFirst})
    && (s.channels != [] ==> s.current == |s.channels| - 1)
    && forall k :: 0 <= k < |s.channels| ==> (s.channels[k] <==> k == s.current && s.pc in {Start, Waiting, Refresh})
  }

  ghost predicate CountdownsFit(c: Config, s: State) {
    && (forall i :: 0 <= i < |s.countdowns| ==> CountdownFits(c, s, i))
    && (forall i, j :: 0 <= i < j < |s.countdowns| ==> s.countdowns[i].channel < s.countdowns[j].channel)
  }

  ghost predicate CountdownFits(c: Config, s: State, i: nat)
    requires i < |s.countdowns|
  {
    var d := s.countdowns[i];
    && d.channel < |s.channels|
    && (s.pc in {Start, Refresh} ==> d.channel < s.current)
    && d.remaining == Left(c, d.ticks)
  }

  /** What a countdown has left after some ticks. */
  function Left(c: Config, ticks: nat): int {
    if c.interval - ticks * SECOND < 0 then 0 else c.interval - ticks * SECOND
  }

  ghost predicate PrintedFits(c: Config, s: State) {
    && (s.runs == [] <==> s.pc == First)
    && (s.runs == [] ==> s.printed == [])
    && (s.runs != [] ==> |s.printed| == |s.runs| - 1)
    && forall k :: 0 <= k < |s.printed| ==> s.printed[k] == Changes(s.runs[k], s.runs[k + 1], c.sig)
  }

  ghost predicate Inv(c: Config, s: State) {
    ChannelsFit(s) && CountdownsFit(c, s) && PrintedFits(c, s)
  }

  lemma InitHolds(c: Config)
    requires c.interval > 0
    ensures Inv(c, INIT)
  {
  }

  lemma LoopStepKeepsInv(c: Config, s: State, m: Move)
    requires c.interval > 0 && Inv(c, s) && Enabled(c, s, m) && !m.CountTick? && !m.CountStop?
    ensures Inv(c, Apply(c, s, m))
  {
    var t := Apply(c, s, m);
    assert ChannelsFit(t);
    assert PrintedFits(c, t);
    forall i | 0 <= i < |t.countdowns| ensures CountdownFits(c, t, i) {
      if i < |s.countdowns| {
        assert CountdownFits(c, s, i);
      }
    }
    forall i, j | 0 <= i < j < |t.countdowns| ensures t.countdowns[i].channel < t.countdowns[j].channel {
      assert CountdownFits(c, s, i);
    }
  }

  lemma CountStepKeepsInv(c: Config, s: State, m: Move)
    requires c.interval > 0 && Inv(c, s) && Enabled(c, s, m) && (m.CountTick? || m.CountStop?)
    ensures Inv(c, Apply(c, s, m))
  {
    var t := Apply(c, s, m);
    forall i | 0 <= i < |t.countdowns| ensures CountdownFits(c, t, i) {
      assert CountdownFits(c, s, i);
    }
  }

  lemma {:induction false} RunKeepsInv(c: Config, s: State, moves: seq<Move>, t: State)
    requires c.interval > 0 && Inv(c, s) && Run(c, s, moves, t)
    ensures Inv(c, t)
    decreases |moves|
  {
    if moves != [] {
      var m := moves[0];
      if m.CountTick? || m.CountStop? {
        CountStepKeepsInv(c, s, m);
      } else {
        LoopStepKeepsInv(c, s, m);
      }
      RunKeepsInv(c, Apply(c, s, m), moves[1..], t);
    }
  }

  // ----- safety over whole runs

  ghost predicate HasOpenChannel(s: State, d: Countdown) {
    d.channel < |s.channels| && s.channels[d.channel]
  }

  /** Countdown i has an open channel. */
  ghost predicate CountsDown(s: State, i: int) {
    0 <= i < |s.countdowns| && HasOpenChannel(s, s.countdowns[i])
  }

  /** In every run: no channel is closed twice, at most one countdown has an open channel, and none after the return. */
  lemma WatchIsSafe(c: Config, moves: seq<Move>, s: State)
    requires c.interval > 0 && Run(c, INIT, moves, s)
    ensures !s.panicked
    ensures forall j, k :: 0 <= j < |s.channels| && 0 <= k < |s.channels| && s.channels[j] && s.channels[k] ==> j == k
    ensures forall i, j :: CountsDown(s, i) && CountsDown(s, j) ==> i == j
    ensures s.pc == Returned ==> forall k :: 0 <= k < |s.channels| ==> !s.channels[k]
    ensures s.pc == Waiting <==> exists i :: CountsDown(s, i)
  {
    InitHolds(c);
    RunKeepsInv(c, INIT, moves, s);
    CurrentHasACountdown(c, moves, s);
  }

  /** The countdown for the current channel is the last one started. */
  ghost predicate LastIsCurrent(s: State) {
    s.pc == Waiting ==> s.countdowns != [] && s.countdowns[|s.countdowns| - 1].channel == s.current
  }

  lemma {:induction false} KeepsLastCurrent(c: Config, s: State, moves: seq<Move>, t: State)
    requires LastIsCurrent(s) && Run(c, s, moves, t)
    ensures LastIsCurrent(t)
    decreases |moves|
  {
    if moves != [] {
      KeepsLastCurrent(c, Apply(c, s, moves[0]), moves[1..], t);
    }
  }

  lemma CurrentHasACountdown(c: Config, moves: seq<Move>, s: State)
    requires c.interval > 0 && Run(c, INIT, moves, s) && Inv(c, s)
    ensures s.pc == Waiting <==> exists i :: CountsDown(s, i)
  {
    KeepsLastCurrent(c, INIT, moves, s);
    if s.pc == Waiting {
      assert CountsDown(s, |s.countdowns| - 1);
    } else {
      forall i | 0 <= i < |s.countdowns| ensures !HasOpenChannel(s, s.countdowns[i]) {
        assert CountdownFits(c, s, i);
      }
    }
  }

  /** A countdown shows the interval less one second per tick, never less than nothing, and never rises. */
  lemma {:induction false} RemainingFalls(c: Config, s: State, moves: seq<Move>, t: State, who: nat)
    requires c.interval > 0 && Inv(c, s) && Run(c, s, moves, t) && who < |s.countdowns|
    ensures who < |t.countdowns| && 0 <= t.countdowns[who].remaining <= s.countdowns[who].remaining <= c.interval
    ensures t.countdowns[who].remaining == Left(c, t.countdowns[who].ticks)
    ensures var left := c.interval - 1_000_000_000 * t.countdowns[who].ticks;
      t.countdowns[who].remaining == if left < 0 then 0 else left
    ensures t.countdowns[who].channel == s.countdowns[who].channel
    ensures !s.countdowns[who].live ==> t.countdowns[who] == s.countdowns[who]
    decreases |moves|
  {
    assert CountdownFits(c, s, who);
    if moves != [] {
      var m := moves[0];
      RunKeepsInv(c, s, [m], Apply(c, s, m));
      assert s.countdowns[who].remaining >= Apply(c, s, m).countdowns[who].remaining;
      RemainingFalls(c, Apply(c, s, m), moves[1..], t, who);
    }
  }

  // ----- after the return

  /** A closed channel stays closed. */
  lemma {:induction false} ClosedStaysClosed(c: Config, s: State, moves: seq<Move>, t: State, k: nat)
    requires c.interval > 0 && Inv(c, s) && Run(c, s, moves, t) && k < |s.channels| && !s.channels[k]
    ensures k < |t.channels| && !t.channels[k]
    decreases |moves|
  {
    if moves != [] {
      var m := moves[0];
      RunKeepsInv(c, s, [m], Apply(c, s, m));
      ClosedStaysClosed(c, Apply(c, s, m), moves[1..], t, k);
    }
  }

  /** Once the loop has returned it does nothing more, and every countdown still alive can stop. */
  lemma {:induction false} ReturnedIsFinal(c: Config, s: State, moves: seq<Move>, t: State)
    requires c.interval > 0 && Inv(c, s) && s.pc == Returned && Run(c, s, moves, t)
    ensures t.pc == Returned && t.channels == s.channels && t.runs == s.runs && |t.countdowns| == |s.countdowns|
    ensures forall i :: 0 <= i < |t.countdowns| && t.countdowns[i].live ==> Enabled(c, t, CountStop(i))
    decreases |moves|
  {
    if moves == [] {
      forall i | 0 <= i < |t.countdowns| && t.countdowns[i].live ensures Enabled(c, t, CountStop(i)) {
        assert CountdownFits(c, t, i);
      }
    } else {
      var m := moves[0];
      RunKeepsInv(c, s, [m], Apply(c, s, m));
      ReturnedIsFinal(c, Apply(c, s, m), moves[1..], t);
    }
  }

  // ----- what the reader sees

  /** Knowledge that starts from the first rendering and follows what is printed after each later one. */
  ghost predicate Reads(c: Config, s: State, known: seq<map<string, string>>) {
    && |known| == |s.runs| && |s.printed| + 1 >= |s.runs|
    && (s.runs != [] ==> known[0] == LevelsOf(s.runs[0], c.sig))
    && forall k :: 0 <= k < |known| - 1 ==> Follows(known[k], s.printed[k], known[k + 1], c.sig)
  }

  /** In every run the printed changes alone tell the level of every finding, at every refresh. */
  lemma {:induction false} ReaderKnowsEveryLevel(c: Config, moves: seq<Move>, s: State, known: seq<map<string, string>>,
                                                    k: nat)
    requires c.interval > 0 && Run(c, INIT, moves, s) && Reads(c, s, known) && k < |s.runs|
    requires forall j :: 0 <= j < |s.runs| ==> OneLevelPerSignature(s.runs[j], c.sig)
    ensures known[k] == LevelsOf(s.runs[k], c.sig)
  {
    if k > 0 {
      ReaderKnowsEveryLevel(c, moves, s, known, k - 1);
      InitHolds(c);
      RunKeepsInv(c, INIT, moves, s);
      ReaderFollows(s.runs[k - 1], s.runs[k], c.sig);
      assert Follows(known[k - 1], s.printed[k - 1], known[k - 1 + 1], c.sig);
      FollowsIsAFunction(known[k - 1], s.printed[k - 1], known[k], LevelsOf(s.runs[k], c.sig), c.sig);
    }
  }

  // ----- what the channels do not prevent

  predicate LiveCountdowns(s: State, n: nat) {
    |s.countdowns| == n && forall i :: 0 <= i < n ==> s.countdowns[i].live
  }

  lemma {:induction false} RunThen(c: Config, s: State, first: seq<Move>, t: State, last: seq<Move>, u: State)
    requires Run(c, s, first, t) && Run(c, t, last, u)
    ensures Run(c, s, first + last, u)
    decreases |first|
  {
    if first == [] {
      assert first + last == last;
    } else {
      assert (first + last)[1..] == first[1..] + last;
      RunThen(c, Apply(c, s, first[0]), first[1..], t, last, u);
    }
  }

  /** One refresh that leaves the earlier countdowns unscheduled. */
  lemma OneMore(c: Config, s: State, n: nat) returns (moves: seq<Move>, t: State)
    requires c.interval > 0 && Inv(c, s) && s.pc == Waiting && LiveCountdowns(s, n)
    ensures Run(c, s, moves, t) && t.pc == Waiting && LiveCountdowns(t, n + 1)
  {
    var s1 := Apply(c, s, Tick);
    LoopStepKeepsInv(c, s, Tick);
    var s2 := Apply(c, s1, Make);
    var s3 := Apply(c, s2, Render([]));
    t := Apply(c, s3, Go);
    moves := [Tick, Make, Render([]), Go];
    assert Run(c, s3, [Go], t) by {
      assert [Go][1..] == [];
    }
    assert [Render([]), Go][1..] == [Go];
    assert [Make, Render([]), Go][1..] == [Render([]), Go];
    assert moves[1..] == [Make, Render([]), Go];
  }

  /**
   Only open channels are exclusive. The loop does not wait for a countdown to stop before it starts the next,
   so any number may be alive, and in human mode ticking, at once.
   */
  lemma {:induction false} CountdownsCanPileUp(c: Config, n: nat) returns (moves: seq<Move>, s: State)
    requires c.interval > 0 && n > 0
    ensures Run(c, INIT, moves, s) && s.pc == Waiting && LiveCountdowns(s, n)
    ensures c.human ==> forall i :: 0 <= i < n ==> Enabled(c, s, CountTick(i))
  {
    if n == 1 {
      var s1 := Apply(c, INIT, Render([]));
      var s2 := Apply(c, s1, Make);
      s := Apply(c, s2, Go);
      moves := [Render([]), Make, Go];
      assert [Go][1..] == [];
      assert [Make, Go][1..] == [Go];
      assert moves[1..] == [Make, Go];
    } else {
      var before, t := CountdownsCanPileUp(c, n - 1);
      InitHolds(c);
      RunKeepsInv(c, INIT, before, t);
      var after: seq<Move>;
      after, s := OneMore(c, t, n - 1);
      RunThen(c, INIT, before, t, after, s);
      moves := before + after;
    }
    InitHolds(c);
    RunKeepsInv(c, INIT, moves, s);
  }
}
