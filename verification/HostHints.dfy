/** The hints of a whole run on one host: the diagnosis pass with that host's rewrites. */
module HostHints {
  import opened Heuristics
  import opened InstallHints
  import opened InstallRewrites
  import opened Insights
  import opened Sequences
  import opened Wrappers

  /** AdaptHostHints, for a host. */
  function HostRewrite(distroID: string, ostree: bool, nixos: HintRewrite, platform: HintRewrite): HintRewrite {
    (hint: string) => AdaptHint(hint, distroID, ostree, nixos, platform)
  }

  /** Every hint of an adapted list is what the rewrite made of some hint. */
  lemma {:induction false} RewrittenFrom(hints: seq<string>, rewrite: HintRewrite, h: string)
    requires h in RewrittenHints(hints, rewrite)
    ensures exists h0 :: h0 in hints && rewrite(h0) == Some(h)
  {
    var g := (h0: string) => match rewrite(h0) case Some(h') => [h'] case None => [];
    FlatPointwise(hints, hints, h0 => match rewrite(h0) case Some(h') => [h'] case None => [], g);
    assert RewrittenHints(hints, rewrite) == Flat(hints, g);
    FlatMembers(hints, g, h);
    var h0 :| h0 in hints && h in g(h0);
  }

  /**
   On an immutable host, for all results, checks and thresholds: every hint of every insight of the run is the platform
   form of a hint that asks for no package-manager install.
   */
  lemma {:induction false} ImmutableRunsNeverInstallLive(results: seq<CheckResult>, thresh: Thresholds, check: Check,
                                                         distroID: string, ostree: bool, nixos: HintRewrite,
                                                         platform: HintRewrite, ins: Insight, h: string)
    requires Immutable(distroID, ostree)
    requires ins in Analyzed(results, thresh, check, HostRewrite(distroID, ostree, nixos, platform)) && h in ins.hints
    ensures exists form :: FindInstall(form) == None && platform(form) == Some(h)
  {
    var rewrite := HostRewrite(distroID, ostree, nixos, platform);
    var p, thresh' := Prescanned(results), PrescannedThresholds(results, thresh);
    var before := Deduped(Flat(results, InsightsFrom(p, thresh', check)));
    FlatMembers(before, Adapting(rewrite), ins);
    var x :| x in before && ins in Adapting(rewrite)(x);
    RewrittenFrom(x.hints, rewrite, h);
    var h0 :| h0 in x.hints && rewrite(h0) == Some(h);
    ImmutableHostsNeverInstallLive(h0, distroID, ostree, nixos, platform);
  }
}
