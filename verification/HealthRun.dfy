/**
 What ApplyThresholds returns, read off the results of the run: what the checks are told, what each result
 contributes, and which of that the report keeps, with which hints.
 */
module HealthRun {
  import opened Heuristics
  import opened Insights
  import opened Sequences
  import opened Text
  import opened Wrappers
  import Diagnosis

  // ----- what the checks are told

  /** The collector succeeded and returned this payload. */
  predicate Delivers(r: CheckResult, payload: Payload) {
    r.err == None && (r.data == ByValue(payload) || r.data == ByPointer(payload))
  }

  ghost predicate SELinuxEnforced(results: seq<CheckResult>) {
    exists r, rest :: r in results && Delivers(r, KernelSecurity(true, "enforcing", rest))
  }

  ghost predicate PoolsPresent(results: seq<CheckResult>) {
    exists r, pools, rest ::
      r in results && (Delivers(r, ZFS(pools, rest)) || Delivers(r, Disk(pools, rest))) && pools > 0
  }

  ghost predicate SwapInUse(results: seq<CheckResult>) {
    exists r, total, used, pagesIn, pagesOut, rest ::
      r in results && Delivers(r, Swap(total, used, pagesIn, pagesOut, rest))
      && total > 0.0 && (used > 0.0 || pagesIn > 0.0 || pagesOut > 0.0)
  }

  lemma {:induction false} SightingsMean(results: seq<CheckResult>)
    ensures Sighted(results, ShowsEnforcing) <==> SELinuxEnforced(results)
    ensures Sighted(results, ShowsPools) <==> PoolsPresent(results)
    ensures Sighted(results, ShowsSwapping) <==> SwapInUse(results)
  {
  }

  /** Which results have a say on the package manager, the CPU load and the CPU limit of a VMware guest, and what. */
  lemma {:induction false} SayingMeans(r: CheckResult)
    ensures forall name :: PackageManagerOf(r) == Some(name) <==>
      name != "" && exists rest :: Delivers(r, Packages(name, rest))
    ensures forall load :: LoadOf(r) == Some(load) <==> exists limit, rest :: Delivers(r, CPU(load, limit, rest))
    ensures forall limit :: CPULimitOf(r) == Some(limit) <==>
      limit > 0 && exists rest :: Delivers(r, VMware(true, limit, rest))
  {
  }

  /** The thresholds that every check gets. */
  ghost predicate Tuned(results: seq<CheckResult>, thresh: Thresholds, t: Thresholds) {
    && SaidLast(results, PackageManagerOf, thresh.packageManager, t.packageManager)
    && SaidLast(results, LoadOf, thresh.cpuLoadPct, t.cpuLoadPct)
    && t.rest == thresh.rest
  }

  /** A payload as its check sees it: the conditions that other results of the run show are filled in. */
  ghost predicate Informed(results: seq<CheckResult>, payload: Payload, seen: Payload) {
    match payload
    case Systemd(_, _, rest) =>
      && seen.Systemd? && seen == Systemd(seen.selinuxEnforcing, seen.zfsPoolsPresent, rest)
      && (seen.selinuxEnforcing <==> SELinuxEnforced(results)) && (seen.zfsPoolsPresent <==> PoolsPresent(results))
    case Sysctl(_, rest) =>
      && seen.Sysctl? && seen == Sysctl(seen.swapActive, rest)
      && (seen.swapActive <==> SwapInUse(results))
    case CPU(loadPct, _, rest) =>
      && seen.CPU? && seen == CPU(loadPct, seen.hostCPULimitMHz, rest)
      && SaidLast(results, CPULimitOf, 0, seen.hostCPULimitMHz)
    case _ => seen == payload
  }

  lemma SaysLast<B>(results: seq<CheckResult>, f: CheckResult -> Option<B>, default: B)
    ensures SaidLast(results, f, default, GetOr(LastSome(results, f), default))
  {
    var k := LastSomeIsLast(results, f);
  }

  lemma {:induction false} ChecksAreTold(results: seq<CheckResult>, thresh: Thresholds, payload: Payload)
    ensures Tuned(results, thresh, PrescannedThresholds(results, thresh))
    ensures Informed(results, payload, InjectedPayload(payload, Prescanned(results)))
  {
    SightingsMean(results);
    SaysLast(results, PackageManagerOf, thresh.packageManager);
    SaysLast(results, LoadOf, thresh.cpuLoadPct);
    SaysLast(results, CPULimitOf, 0);
  }

  // ----- what each result contributes

  predicate Relabelled(reason: string) {
    reason == "unreadable" || reason == "collector_error" || reason == "parse"
  }

  /** What a check said, with the reason of what the bundle did not record. */
  ghost predicate Marked(notRecorded: bool, raw: seq<Insight>, said: seq<Insight>) {
    |said| == |raw| && forall k :: 0 <= k < |raw| ==>
      said[k] == if notRecorded && raw[k].unverified && Relabelled(raw[k].unverifiedReason)
        then raw[k].(unverifiedReason := "not_recorded") else raw[k]
  }

  /** A collector that failed is reported as not checked, and why. */
  predicate ReportsFailure(r: CheckResult, failure: Failure, ins: Insight) {
    && ins.level == "INFO" && ins.check == r.name && ins.hints == [] && ins.unverified && !ins.needsRoot
    && ins.message == "check could not run — " + failure.text
    && ins.unverifiedReason ==
      if r.notRecorded && failure.reason == "collector_error" then "not_recorded" else failure.reason
  }

  ghost predicate Contributes(r: CheckResult, results: seq<CheckResult>, t: Thresholds, check: Check,
                              said: seq<Insight>) {
    match r.err
    case Some(failure) => |said| == 1 && ReportsFailure(r, failure, said[0])
    case None =>
      match r.data
      case ByValue(payload) =>
        exists seen :: Informed(results, payload, seen) && Marked(r.notRecorded, check(seen, t), said)
      case ByPointer(payload) =>
        exists seen :: Informed(results, payload, seen) && Marked(r.notRecorded, check(seen, t), said)
      case _ => said == []
  }

  lemma {:induction false} MarkingMarks(raw: seq<Insight>)
    ensures Marked(true, raw, Flat(raw, Marking()))
    decreases |raw|
  {
    if raw != [] {
      MarkingMarks(raw[..|raw| - 1]);
    }
  }

  lemma {:induction false} ResultContributes(r: CheckResult, results: seq<CheckResult>, thresh: Thresholds,
                                             check: Check)
    ensures var t := PrescannedThresholds(results, thresh);
      Contributes(r, results, t, check, InsightsFrom(Prescanned(results), t, check)(r))
  {
    var t, p := PrescannedThresholds(results, thresh), Prescanned(results);
    if r.err == None && (r.data.ByValue? || r.data.ByPointer?) {
      var seen := InjectedPayload(r.data.payload, p);
      ChecksAreTold(results, thresh, r.data.payload);
      MarkingMarks(check(seen, t));
      assert Marked(r.notRecorded, check(seen, t), InsightsFrom(p, t, check)(r));
    }
  }

  function Joined<T>(parts: seq<seq<T>>): seq<T> {
    if parts == [] then [] else Joined(parts[..|parts| - 1]) + parts[|parts| - 1]
  }

  /** The first list of insights: what the results contribute, in the order in which they completed. */
  ghost predicate Collected(results: seq<CheckResult>, t: Thresholds, check: Check, said: seq<seq<Insight>>) {
    |said| == |results| && forall k :: 0 <= k < |results| ==> Contributes(results[k], results, t, check, said[k])
  }

  lemma {:induction false} FlatIsJoined<A, B>(xs: seq<A>, f: A -> seq<B>, parts: seq<seq<B>>)
    requires |parts| == |xs| && forall k :: 0 <= k < |xs| ==> parts[k] == f(xs[k])
    ensures Joined(parts) == Flat(xs, f)
    decreases |xs|
  {
    if xs != [] {
      FlatIsJoined(xs[..|xs| - 1], f, parts[..|xs| - 1]);
    }
  }

  // ----- what the report keeps

  /** A verdict of this check on the SELinux denials of the last hour. */
  predicate Verdict(ins: Insight, check: string) {
    ins.check == check && Occurs("SELinux denial", ins.message) && Occurs("last hour", ins.message)
  }

  predicate OccursAt(words: string, s: string, i: nat) {
    i + |words| <= |s| && s[i..i + |words|] == words
  }

  predicate Occurs(words: string, s: string) {
    exists i: nat :: i <= |s| && OccursAt(words, s, i)
  }

  lemma OccursIff(words: string, s: string)
    ensures Contains(s, words) <==> Occurs(words, s)
  {
    if Contains(s, words) {
      var i :| 0 <= i <= |s| && HasPrefix(s[i..], words);
      assert s[i..][..|words|] == s[i..i + |words|];
      assert OccursAt(words, s, i);
    }
    if Occurs(words, s) {
      var i: nat :| i <= |s| && OccursAt(words, s, i);
      assert s[i..][..|words|] == s[i..i + |words|];
      assert HasPrefix(s[i..], words);
    }
  }

  lemma {:induction false} VerdictIff(ins: Insight, check: string)
    ensures IsDenial(ins, check) <==> Verdict(ins, check)
  {
    OccursIff("SELinux denial", ins.message);
    OccursIff("last hour", ins.message);
  }

  ghost predicate HasVerdict(raw: seq<Insight>, check: string) {
    exists i :: 0 <= i < |raw| && Verdict(raw[i], check)
  }

  ghost predicate LastVerdict(raw: seq<Insight>, check: string, i: nat) {
    i < |raw| && Verdict(raw[i], check) && forall j :: i < j < |raw| ==> !Verdict(raw[j], check)
  }

  ghost predicate Union(all: seq<string>, a: seq<string>, b: seq<string>) {
    forall h :: h in all <==> h in a || h in b
  }

  /** The hints of an insight, and on a KernelSec verdict those of the last Hardening verdict behind them. */
  ghost predicate Merged(raw: seq<Insight>, ins: Insight, merged: seq<string>) {
    if Verdict(ins, "KernelSec") && HasVerdict(raw, "Hardening") then
      ins.hints <= merged && exists i: nat :: LastVerdict(raw, "Hardening", i) && Union(merged, ins.hints, raw[i].hints)
    else merged == ins.hints
  }

  /** The rewritten hints in order, without those that the rewrite drops. */
  ghost predicate RewrittenFrom(hints: seq<string>, rewrite: HintRewrite, out: seq<string>) {
    exists at: seq<nat> :: RewrittenAt(hints, rewrite, at, out)
  }

  ghost predicate RewrittenAt(hints: seq<string>, rewrite: HintRewrite, at: seq<nat>, out: seq<string>) {
    && Positions(at, |hints|) && |at| == |out|
    && (forall k :: 0 <= k < |at| ==> rewrite(hints[at[k]]) == Some(out[k]))
    && (forall i: nat :: i in at <==> i < |hints| && rewrite(hints[i]).Some?)
  }

  ghost predicate ReportsHints(raw: seq<Insight>, ins: Insight, rewrite: HintRewrite, out: seq<string>) {
    exists merged :: Merged(raw, ins, merged) && RewrittenFrom(merged, rewrite, out)
  }

  /** The positions that stay: all but the Hardening verdicts where there is a KernelSec verdict. */
  ghost predicate Stay(raw: seq<Insight>, at: seq<nat>) {
    forall i: nat :: i in at <==>
      i < |raw| && !(Verdict(raw[i], "Hardening") && HasVerdict(raw, "KernelSec"))
  }

  /** The report `x` is the list `raw` at the positions that stay, with nothing but the hints changed. */
  ghost predicate Reports(raw: seq<Insight>, at: seq<nat>, x: seq<Insight>, rewrite: HintRewrite) {
    && |at| == |x| && Positions(at, |raw|) && Stay(raw, at)
    && (forall k :: 0 <= k < |x| ==> x[k] == raw[at[k]].(hints := x[k].hints))
    && (forall k :: 0 <= k < |x| ==> ReportsHints(raw, raw[at[k]], rewrite, x[k].hints))
  }

  lemma {:induction false} RewritingRewrites(hints: seq<string>, rewrite: HintRewrite)
    ensures RewrittenFrom(hints, rewrite, RewrittenHints(hints, rewrite))
  {
    var f := (h: string) => match rewrite(h) case Some(h') => [h'] case None => [];
    var at := FlatPositions(hints, f);
    FlatSameFunction(hints, f, rewrite);
    forall k | 0 <= k < |at| ensures rewrite(hints[at[k]]) == Some(RewrittenHints(hints, rewrite)[k]) {
      assert f(hints[at[k]]) == [RewrittenHints(hints, rewrite)[k]];
    }
    assert RewrittenAt(hints, rewrite, at, RewrittenHints(hints, rewrite));
  }

  lemma FlatSameFunction(hints: seq<string>, f: string -> seq<string>, rewrite: HintRewrite)
    requires forall h :: f(h) == match rewrite(h) case Some(h') => [h'] case None => []
    ensures Flat(hints, f) == RewrittenHints(hints, rewrite)
  {
    var g := h => match rewrite(h) case Some(h') => [h'] case None => [];
    FlatPointwise(hints, hints, f, g);
  }

  lemma {:induction false} AdaptedAt(insights: seq<Insight>, rewrite: HintRewrite)
    ensures |Adapted(insights, rewrite)| == |insights|
    ensures forall k :: 0 <= k < |insights| ==>
      Adapted(insights, rewrite)[k] == insights[k].(hints := RewrittenHints(insights[k].hints, rewrite))
    decreases |insights|
  {
    if insights != [] {
      AdaptedAt(insights[..|insights| - 1], rewrite);
    }
  }

  lemma HasVerdictIff(raw: seq<Insight>, check: string)
    ensures HasDenial(raw, check) <==> HasVerdict(raw, check)
  {
    forall ins ensures IsDenial(ins, check) <==> Verdict(ins, check) {
      VerdictIff(ins, check);
    }
    if HasVerdict(raw, check) {
      var i :| 0 <= i < |raw| && Verdict(raw[i], check);
      assert raw[i] in raw;
    }
  }

  /** What deduplication makes of a list, position by position. */
  ghost predicate Dedupes(raw: seq<Insight>, at: seq<nat>, d: seq<Insight>) {
    && |at| == |d| && Positions(at, |raw|) && Stay(raw, at)
    && (forall k :: 0 <= k < |d| ==> d[k] == raw[at[k]].(hints := d[k].hints) && Merged(raw, raw[at[k]], d[k].hints))
  }

  lemma {:induction false} DedupingDedupes(raw: seq<Insight>) returns (at: seq<nat>)
    ensures Dedupes(raw, at, Deduped(raw))
  {
    HasVerdictIff(raw, "KernelSec");
    HasVerdictIff(raw, "Hardening");
    forall ins: Insight, check: string ensures IsDenial(ins, check) <==> Verdict(ins, check) {
      VerdictIff(ins, check);
    }
    if !HasDenial(raw, "KernelSec") || !HasDenial(raw, "Hardening") {
      at := seq(|raw|, i => i);
      assert forall i: nat :: i < |raw| ==> at[i] == i;
      AllStay(raw, at);
    } else {
      var i := LastSomeIsLast(raw, HardeningHints);
      assert raw[i] in raw;
      LastHardening(raw, i);
      var hints := raw[i].hints;
      at := FlatPositions(raw, Deduping(hints));
      assert Deduped(raw) == Flat(raw, Deduping(hints));
      forall k | 0 <= k < |at|
        ensures Deduped(raw)[k] == raw[at[k]].(hints := Deduped(raw)[k].hints)
        ensures Merged(raw, raw[at[k]], Deduped(raw)[k].hints)
      {
        DedupedOneMerges(raw, raw[at[k]], i);
      }
      HardeningGoes(raw, hints, at);
    }
  }

  lemma AllStay(raw: seq<Insight>, at: seq<nat>)
    requires |at| == |raw| && forall i: nat :: i < |raw| ==> at[i] == i
    requires !HasVerdict(raw, "KernelSec") || !HasVerdict(raw, "Hardening")
    ensures Stay(raw, at)
  {
    forall i: nat ensures i in at <==> i < |raw| {
      if i < |raw| {
        assert at[i] == i;
      }
    }
  }

  lemma HardeningGoes(raw: seq<Insight>, hints: seq<string>, at: seq<nat>)
    requires HasVerdict(raw, "KernelSec")
    requires forall i: nat :: i in at <==> i < |raw| && DedupedOne(raw[i], hints) != []
    ensures Stay(raw, at)
  {
    forall i: nat ensures i in at <==> i < |raw| && !Verdict(raw[i], "Hardening") {
      if i < |raw| {
        VerdictIff(raw[i], "Hardening");
      }
    }
  }

  lemma LastHardening(raw: seq<Insight>, i: nat)
    requires HasDenial(raw, "Hardening")
    requires LastSome(raw, HardeningHints).Some? ==>
      i < |raw| && HardeningHints(raw[i]) == LastSome(raw, HardeningHints) && SilentAfter(raw, HardeningHints, i)
    ensures LastVerdict(raw, "Hardening", i) && GetOr(LastSome(raw, HardeningHints), []) == raw[i].hints
  {
    LastSomeMeaning(raw, HardeningHints);
    forall j | 0 <= j < |raw| ensures Verdict(raw[j], "Hardening") <==> HardeningHints(raw[j]).Some? {
      VerdictIff(raw[j], "Hardening");
    }
  }

  lemma DedupedOneMerges(raw: seq<Insight>, ins: Insight, i: nat)
    requires LastVerdict(raw, "Hardening", i) && DedupedOne(ins, raw[i].hints) != []
    ensures var d := DedupedOne(ins, raw[i].hints)[0]; d == ins.(hints := d.hints) && Merged(raw, ins, d.hints)
  {
    VerdictIff(ins, "KernelSec");
    Diagnosis.FoldedKeepsHints(ins.hints, raw[i].hints);
  }

  // ----- the report

  /**
   The report of a run, for all results, thresholds, checks and rewrites: the contributions of its results in their
   order, told what `Tuned` and `Informed` say, with only the duplicate verdicts left out and only hints changed.
   */
  lemma {:induction false} ReportFollowsResults(results: seq<CheckResult>, thresh: Thresholds, check: Check,
                                                rewrite: HintRewrite)
    returns (t: Thresholds, said: seq<seq<Insight>>, at: seq<nat>)
    ensures Tuned(results, thresh, t) && Collected(results, t, check, said)
    ensures Reports(Joined(said), at, Analyzed(results, thresh, check, rewrite), rewrite)
  {
    t := PrescannedThresholds(results, thresh);
    var f := InsightsFrom(Prescanned(results), t, check);
    said := seq(|results|, k requires 0 <= k < |results| => f(results[k]));
    ChecksAreTold(results, thresh, Other("", 0));
    forall k | 0 <= k < |results| ensures Contributes(results[k], results, t, check, said[k]) {
      ResultContributes(results[k], results, thresh, check);
    }
    FlatIsJoined(results, f, said);
    var raw := Joined(said);
    at := DedupingDedupes(raw);
    AdaptingReports(raw, at, Deduped(raw), rewrite);
  }

  lemma AdaptingReports(raw: seq<Insight>, at: seq<nat>, d: seq<Insight>, rewrite: HintRewrite)
    requires Dedupes(raw, at, d)
    ensures Reports(raw, at, Adapted(d, rewrite), rewrite)
  {
    AdaptedAt(d, rewrite);
    forall k | 0 <= k < |d| ensures ReportsHints(raw, raw[at[k]], rewrite, Adapted(d, rewrite)[k].hints) {
      RewritingRewrites(d[k].hints, rewrite);
    }
  }

  /** The two verdicts on the SELinux denials never both are in a report. */
  lemma {:induction false} NeverBothVerdicts(results: seq<CheckResult>, thresh: Thresholds, check: Check,
                                             rewrite: HintRewrite)
    ensures var x := Analyzed(results, thresh, check, rewrite);
      !(HasVerdict(x, "KernelSec") && HasVerdict(x, "Hardening"))
  {
    var x := Analyzed(results, thresh, check, rewrite);
    var t, said, at := ReportFollowsResults(results, thresh, check, rewrite);
    var raw := Joined(said);
    if i :| 0 <= i < |x| && Verdict(x[i], "KernelSec") {
      assert Verdict(raw[at[i]], "KernelSec");
      forall j | 0 <= j < |x| ensures !Verdict(x[j], "Hardening") {
        assert at[j] in at && x[j] == raw[at[j]].(hints := x[j].hints);
      }
    }
  }

  ghost predicate OneHardening(raw: seq<Insight>) {
    forall i, j :: 0 <= i < |raw| && 0 <= j < |raw| && Verdict(raw[i], "Hardening") && Verdict(raw[j], "Hardening") ==>
      raw[i].hints == raw[j].hints
  }

  /** The insight carries every hint of this one that the rewrite keeps, rewritten. */
  ghost predicate Carries(ins: Insight, from: Insight, rewrite: HintRewrite) {
    forall h :: h in from.hints && rewrite(h).Some? ==> rewrite(h).value in ins.hints
  }

  lemma {:induction false} KernelCarries(raw: seq<Insight>, at: seq<nat>, x: seq<Insight>, rewrite: HintRewrite, i: nat,
                                         k: nat)
    requires Reports(raw, at, x, rewrite) && OneHardening(raw)
    requires k < |x| && Verdict(x[k], "KernelSec") && i < |raw| && Verdict(raw[i], "Hardening")
    ensures Carries(x[k], raw[i], rewrite)
  {
    assert Verdict(raw[at[k]], "KernelSec") && ReportsHints(raw, raw[at[k]], rewrite, x[k].hints);
    var merged :| Merged(raw, raw[at[k]], merged) && RewrittenFrom(merged, rewrite, x[k].hints);
    forall h | h in raw[i].hints && rewrite(h).Some? ensures rewrite(h).value in x[k].hints {
      assert h in merged;
      var n :| 0 <= n < |merged| && merged[n] == h;
      RewrittenIsThere(merged, rewrite, x[k].hints, n);
    }
  }

  lemma RewrittenIsThere(hints: seq<string>, rewrite: HintRewrite, out: seq<string>, n: nat)
    requires RewrittenFrom(hints, rewrite, out) && n < |hints| && rewrite(hints[n]).Some?
    ensures rewrite(hints[n]).value in out
  {
    var at: seq<nat> :| RewrittenAt(hints, rewrite, at, out);
    assert n in at;
    var k :| 0 <= k < |at| && at[k] == n;
    assert out[k] in out;
  }

  /** With one Hardening verdict every KernelSec verdict of the report carries its hints, rewritten for the host. */
  lemma {:induction false} DroppedHintsAreReported(results: seq<CheckResult>, thresh: Thresholds, check: Check,
                                                   rewrite: HintRewrite)
    returns (t: Thresholds, said: seq<seq<Insight>>)
    ensures Tuned(results, thresh, t) && Collected(results, t, check, said)
    ensures var raw, x := Joined(said), Analyzed(results, thresh, check, rewrite);
      OneHardening(raw) ==> forall i, k ::
        0 <= i < |raw| && 0 <= k < |x| && Verdict(raw[i], "Hardening") && Verdict(x[k], "KernelSec") ==>
          Carries(x[k], raw[i], rewrite)
  {
    var at;
    t, said, at := ReportFollowsResults(results, thresh, check, rewrite);
    var raw, x := Joined(said), Analyzed(results, thresh, check, rewrite);
    if OneHardening(raw) {
      forall i, k | 0 <= i < |raw| && 0 <= k < |x| && Verdict(raw[i], "Hardening") && Verdict(x[k], "KernelSec")
        ensures Carries(x[k], raw[i], rewrite)
      {
        KernelCarries(raw, at, x, rewrite, i, k);
      }
    }
  }
}
