/**
 The replay and share transactions of cmd/replay.go and cmd/share.go as one call performs them: the
 process globals are fields, every override is assigned and later put back. `McpPipeline` shows what
 happens when such calls overlap; here it is what each call does to the fields it finds.
 */
module ReplaySession {
  import opened Wrappers
  import opened ProcessState
  import opened Text

  function Repeat<T>(n: nat, x: T): (r: seq<T>)
    ensures |r| == n && forall k :: 0 <= k < n ==> r[k] == x
  {
    seq(n, _ => x)
  }

  /** The OS family a bundle was captured on; bundles without a GOOS are judged by their OS name. */
  function PlatformFamily(m: Manifest): string {
    var os := ToLower(m.os);
    if m.goos != "" then m.goos
    else if Contains(os, "macos") || Contains(os, "mac os") || Contains(os, "darwin") then "darwin"
    else if Contains(os, "windows") then "windows"
    else "linux"
  }

  /** replayPlatformGuard, with `goos` for runtime.GOOS. */
  predicate GuardPasses(m: Manifest, goos: string, force: bool) {
    PlatformFamily(m) == goos || force
  }

  predicate NamesMac(os: string) {
    Mentions(os, "macos") || Mentions(os, "mac os") || Mentions(os, "darwin")
  }

  /** The GOOS that the bundle records, or else its OS by name, is another platform than `goos`. */
  predicate Foreign(m: Manifest, goos: string) {
    || (m.goos != "" && m.goos != goos)
    || (m.goos == "" && NamesMac(m.os) && goos != "darwin")
    || (m.goos == "" && !NamesMac(m.os) && Mentions(m.os, "windows") && goos != "windows")
    || (m.goos == "" && !NamesMac(m.os) && !Mentions(m.os, "windows") && goos != "linux")
  }

  /** Exactly a foreign bundle is refused, unless the replay is forced. */
  lemma {:induction false} GuardRefusesIff(m: Manifest, goos: string, force: bool)
    ensures !GuardPasses(m, goos, force) <==> !force && Foreign(m, goos)
  {
    MentionsIff(m.os, "macos");
    MentionsIff(m.os, "mac os");
    MentionsIff(m.os, "darwin");
    MentionsIff(m.os, "windows");
  }

  /** The inputs a bundle refuses while one collector runs: to the collector, and to abandoned ones meanwhile. */
  datatype Refused = Refused(own: nat, strays: nat)

  /** The marks of a replay: one for each collector, set where the bundle refused anything while it ran. */
  ghost predicate Marks(notRecorded: seq<bool>, refused: seq<Refused>) {
    && |notRecorded| == |refused|
    && forall k :: 0 <= k < |refused| ==> (notRecorded[k] <==> refused[k].own > 0 || refused[k].strays > 0)
  }

  /** Each mark says whether the collector itself was refused an input, as the field is documented. */
  ghost predicate Attributed(notRecorded: seq<bool>, refused: seq<Refused>)
    requires |notRecorded| == |refused|
  {
    forall k :: 0 <= k < |refused| ==> (notRecorded[k] <==> refused[k].own > 0)
  }

  /** No abandoned collector is refused an input while a collector that is refused nothing runs. */
  predicate Undisturbed(refused: seq<Refused>) {
    forall k :: 0 <= k < |refused| ==> refused[k].strays > 0 ==> refused[k].own > 0
  }

  /** The marks of a replay are right exactly when it is undisturbed. */
  lemma AttributedIffUndisturbed(notRecorded: seq<bool>, refused: seq<Refused>)
    requires Marks(notRecorded, refused)
    ensures Attributed(notRecorded, refused) <==> Undisturbed(refused)
  {
    if !Undisturbed(refused) {
      var k :| 0 <= k < |refused| && refused[k].strays > 0 && refused[k].own == 0;
      assert notRecorded[k] && !(refused[k].own > 0);
    }
  }

  /** These views are of the bundle, its gap counter and the host it was captured on. */
  ghost predicate Sees(views: seq<Globals>, from: nat, to: nat, replay: Source, m: Manifest) {
    forall k :: from <= k < to <= |views| ==>
      views[k].source == replay && views[k].gapCount == Some(replay) && CapturedHost(views[k], m)
  }

  lemma ReplaySeesCapturedHost(g: Globals, replay: Source, m: Manifest)
    ensures var view := ReplayView(g, replay, m);
      view.source == replay && view.gapCount == Some(replay) && CapturedHost(view, m)
  {
    PinnedIsCapturedHost(g.(source := replay, gapCount := Some(replay)), m);
  }

  /** The views of a share: those of the replay, and that of rendering. */
  lemma SharedViewsShow(before: seq<Globals>, n: nat, g: Globals, m: Manifest, views: seq<Globals>)
    requires views == before + (Repeat(n, ReplayView(g, Replay(0, 0), m))
      + [g.(identity := IdentityOf(m), platform := PlatformOf(m))])
    ensures |views| == |before| + n + 1 && Sees(views, |before|, |views| - 1, Replay(0, 0), m)
    ensures CapturedHost(views[|views| - 1], m)
  {
    ReplaySeesCapturedHost(g, Replay(0, 0), m);
    PinnedIsCapturedHost(g, m);
  }

  class Process {
    var source: Source
    var gapCount: Option<Source>
    var identity: Identity
    var platform: Platform
    var views: seq<Globals>  // the globals that each collector and renderer run so far has seen

    function State(): Globals
      reads this
    {
      Globals(source, gapCount, identity, platform)
    }

    /**
     runner.RunAll over collectors during which the active bundle refuses these inputs. With a gap counter the
     collectors run one at a time and each is marked when the counter rose meanwhile, whoever raised it.
     */
    method RunAll(refused: seq<Refused>) returns (notRecorded: seq<bool>)
      modifies `views
      ensures views == old(views) + Repeat(|refused|, State())
      ensures gapCount.Some? ==> Marks(notRecorded, refused)
      ensures gapCount.None? ==> notRecorded == Repeat(|refused|, false)
    {
      notRecorded := [];
      var gaps := 0;
      for k := 0 to |refused|
        invariant |notRecorded| == k
        invariant views == old(views) + Repeat(k, State())
        invariant forall j :: 0 <= j < k ==>
          (notRecorded[j] <==> gapCount.Some? && (refused[j].own > 0 || refused[j].strays > 0))
      {
        var before := gaps;
        views := views + [State()];
        gaps := gaps + refused[k].own + refused[k].strays;
        notRecorded := notRecorded + [gapCount.Some? && gaps > before];
      }
    }

    /**
     replayBundle. Its deferred closure sets the gap counter to nil instead of to its previous value, so
     the call is transparent exactly when it found no gap counter installed.
     */
    method ReplayBundle(replay: Source, m: Manifest, refused: seq<Refused>) returns (notRecorded: seq<bool>)
      modifies this
      ensures State() == old(State()).(gapCount := None)
      ensures State() == old(State()) <==> old(gapCount) == None
      ensures views == old(views) + Repeat(|refused|, ReplayView(old(State()), replay, m))
      ensures Sees(views, |old(views)|, |views|, replay, m)
      ensures Marks(notRecorded, refused)
      ensures Attributed(notRecorded, refused) <==> Undisturbed(refused)
    {
      ReplaySeesCapturedHost(old(State()), replay, m);
      var prevSource := source;
      source := replay;
      gapCount := Some(replay);
      var prevIdentity := identity;
      identity := IdentityOf(m);
      var prevPlatform := platform;
      platform := PlatformOf(m);

      notRecorded := RunAll(refused);
      AttributedIffUndisturbed(notRecorded, refused);

      platform := prevPlatform;
      identity := prevIdentity;
      gapCount := None;
      source := prevSource;
    }

    /** renderCaptureDiff: both platform guards come first, then one replay after the other. */
    method RenderCaptureDiff(base: Manifest, current: Manifest, goos: string, force: bool,
                             baseRefused: seq<Refused>, currentRefused: seq<Refused>)
      returns (r: Result<(seq<bool>, seq<bool>)>)
      requires gapCount == None
      modifies this
      ensures State() == old(State())
      ensures r.Ok? <==> GuardPasses(current, goos, force) && GuardPasses(base, goos, force)
      ensures r.Ok? <==> force || (!Foreign(current, goos) && !Foreign(base, goos))
      ensures r.Err? ==> views == old(views)
      ensures r.Ok? ==>
        views == old(views)
          + Repeat(|baseRefused|, ReplayView(State(), Replay(0, 0), base))
          + Repeat(|currentRefused|, ReplayView(State(), Replay(0, 1), current))
      ensures r.Ok? ==> |views| == |old(views)| + |baseRefused| + |currentRefused|
      ensures r.Ok? ==>
        var middle := |old(views)| + |baseRefused|;
        Sees(views, |old(views)|, middle, Replay(0, 0), base) && Sees(views, middle, |views|, Replay(0, 1), current)
      ensures r.Ok? ==> Marks(r.value.0, baseRefused) && Marks(r.value.1, currentRefused)
    {
      GuardRefusesIff(current, goos, force);
      GuardRefusesIff(base, goos, force);
      if !GuardPasses(current, goos, force) {
        return Err("current was captured on another platform");
      }
      if !GuardPasses(base, goos, force) {
        return Err("baseline was captured on another platform");
      }
      var first := ReplayBundle(Replay(0, 0), base, baseRefused);
      var second := ReplayBundle(Replay(0, 1), current, currentRefused);
      r := Ok((first, second));
    }

    /**
     toolShare over a captured bundle: the replay restores its overrides, then the captured identity and
     platform are pinned again for rendering and put back by `src.restore`, whether rendering succeeds or not.
     */
    method ShareFromBundle(m: Manifest, loads: bool, goos: string, renders: bool, refused: seq<Refused>)
      returns (r: Result<Globals>)
      requires gapCount == None
      modifies this
      ensures State() == old(State())
      ensures r.Ok? <==> loads && GuardPasses(m, goos, false) && renders
      ensures r.Ok? ==> r.value == State().(identity := IdentityOf(m), platform := PlatformOf(m))
      ensures views == old(views) +
        if !loads || !GuardPasses(m, goos, false) then []
        else Repeat(|refused|, ReplayView(State(), Replay(0, 0), m))
             + [State().(identity := IdentityOf(m), platform := PlatformOf(m))]
      ensures r.Ok? <==> loads && !Foreign(m, goos) && renders
      ensures loads && !Foreign(m, goos) ==>
        && |views| == |old(views)| + |refused| + 1
        && Sees(views, |old(views)|, |views| - 1, Replay(0, 0), m)
        && views[|views| - 1].source == source && views[|views| - 1].gapCount == None
        && CapturedHost(views[|views| - 1], m)
      ensures r.Ok? ==> r.value == views[|views| - 1]
    {
      GuardRefusesIff(m, goos, false);
      if !loads {
        return Err("loading bundle");
      }
      if !GuardPasses(m, goos, false) {
        return Err("bundle was captured on another platform");
      }
      var _ := ReplayBundle(Replay(0, 0), m, refused);
      var prevIdentity := identity;
      identity := IdentityOf(m);
      var prevPlatform := platform;
      platform := PlatformOf(m);

      var view := State();
      views := views + [view];
      r := if renders then Ok(view) else Err("rendering failed");

      platform := prevPlatform;
      identity := prevIdentity;
      SharedViewsShow(old(views), |refused|, State(), m, views);
    }
  }
}
