/**
 internal/analysis/heuristics.go: prescan, injection, the per-result pass, SELinux deduplication, hints. A check
 is any function of a payload and the thresholds, and the rewriting of a hint any function that may drop it.
 */
module Heuristics {
  import opened Insights
  import opened Sequences
  import opened Text
  import opened Wrappers

  /** The collector results that the pipeline looks into; `rest` stands for the fields it does not. */
  datatype Payload =
    | Packages(packageManager: string, rest: int)
    | CPU(loadPct: real, hostCPULimitMHz: int, rest: int)
    | KernelSecurity(selinuxPresent: bool, selinuxMode: string, rest: int)
    | ZFS(pools: nat, rest: int)
    | Disk(zfsPools: nat, rest: int)
    | Swap(totalGB: real, usedPct: real, pagesInPerSec: real, pagesOutPerSec: real, rest: int)
    | VMware(statAvailable: bool, cpuLimitMHz: int, rest: int)
    | Systemd(selinuxEnforcing: bool, zfsPoolsPresent: bool, rest: int)
    | Sysctl(swapActive: bool, rest: int)
    | Other(kind: string, rest: int)

  /** A collector returns its payload by value or by pointer, or a nil pointer, or nothing. */
  datatype Data = ByValue(payload: Payload) | ByPointer(payload: Payload) | NilPointer | NoData

  datatype Failure = Failure(reason: string, text: string)

  datatype CheckResult = CheckResult(name: string, data: Data, err: Option<Failure>, notRecorded: bool)

  datatype Thresholds = Thresholds(packageManager: string, cpuLoadPct: real, rest: int)

  datatype Prescan = Prescan(selinuxEnforcing: bool, zfsPoolsPresent: bool, swapActive: bool, vmwareCPULimitMHz: int)

  type Check = (Payload, Thresholds) -> seq<Insight>

  type HintRewrite = string -> Option<string>

  // ----- prescan

  /** The payload that a successful collector delivered. */
  function Delivered(r: CheckResult): Option<Payload> {
    if r.err.Some? then None
    else
      match r.data
      case ByValue(p) => Some(p)
      case ByPointer(p) => Some(p)
      case _ => None
  }

  function PackageManagerOf(r: CheckResult): Option<string> {
    match Delivered(r)
    case Some(Packages(manager, _)) => if manager != "" then Some(manager) else None
    case _ => None
  }

  function LoadOf(r: CheckResult): Option<real> {
    match Delivered(r)
    case Some(CPU(loadPct, _, _)) => Some(loadPct)
    case _ => None
  }

  function CPULimitOf(r: CheckResult): Option<int> {
    match Delivered(r)
    case Some(VMware(available, limit, _)) => if available && limit > 0 then Some(limit) else None
    case _ => None
  }

  predicate ShowsEnforcing(r: CheckResult) {
    match Delivered(r)
    case Some(KernelSecurity(present, mode, _)) => present && mode == "enforcing"
    case _ => false
  }

  predicate ShowsPools(r: CheckResult) {
    match Delivered(r)
    case Some(ZFS(pools, _)) => pools > 0
    case Some(Disk(pools, _)) => pools > 0
    case _ => false
  }

  /** swapInUse: swap is configured and is used or paged. */
  predicate ShowsSwapping(r: CheckResult) {
    match Delivered(r)
    case Some(Swap(total, used, pagesIn, pagesOut, _)) => total > 0.0 && (used > 0.0 || pagesIn > 0.0 || pagesOut > 0.0)
    case _ => false
  }

  function GetOr<T>(o: Option<T>, default: T): T {
    match o
    case Some(v) => v
    case None => default
  }

  predicate Sighted(results: seq<CheckResult>, shows: CheckResult -> bool) {
    exists r :: r in results && shows(r)
  }

  lemma SightedOneMore(before: seq<CheckResult>, r: CheckResult, shows: CheckResult -> bool)
    ensures Sighted(before + [r], shows) <==> Sighted(before, shows) || shows(r)
  {
    assert forall x :: x in before + [r] <==> x in before || x == r;
  }

  /** What the prescan learns: the last word on each value, and any sighting of each condition. */
  function PrescannedThresholds(results: seq<CheckResult>, thresh: Thresholds): Thresholds {
    thresh.(packageManager := GetOr(LastSome(results, PackageManagerOf), thresh.packageManager),
            cpuLoadPct := GetOr(LastSome(results, LoadOf), thresh.cpuLoadPct))
  }

  function Prescanned(results: seq<CheckResult>): Prescan {
    Prescan(Sighted(results, ShowsEnforcing), Sighted(results, ShowsPools), Sighted(results, ShowsSwapping),
            GetOr(LastSome(results, CPULimitOf), 0))
  }

  lemma PrescanOneMore(before: seq<CheckResult>, r: CheckResult, thresh: Thresholds)
    ensures var p := Prescanned(before);
      Prescanned(before + [r]) == Prescan(
        p.selinuxEnforcing || ShowsEnforcing(r), p.zfsPoolsPresent || ShowsPools(r), p.swapActive || ShowsSwapping(r),
        GetOr(CPULimitOf(r), p.vmwareCPULimitMHz))
    ensures var t := PrescannedThresholds(before, thresh);
      PrescannedThresholds(before + [r], thresh) ==
        t.(packageManager := GetOr(PackageManagerOf(r), t.packageManager), cpuLoadPct := GetOr(LoadOf(r), t.cpuLoadPct))
  {
    assert (before + [r])[..|before|] == before;
    SightedOneMore(before, r, ShowsEnforcing);
    SightedOneMore(before, r, ShowsPools);
    SightedOneMore(before, r, ShowsSwapping);
  }

  method PrescanContext(results: seq<CheckResult>, thresh: Thresholds) returns (thresh': Thresholds, p: Prescan)
    ensures thresh' == PrescannedThresholds(results, thresh)
    ensures p == Prescanned(results)
  {
    thresh', p := thresh, Prescan(false, false, false, 0);
    for n := 0 to |results|
      invariant thresh' == PrescannedThresholds(results[..n], thresh)
      invariant p == Prescanned(results[..n])
    {
      assert results[..n + 1] == results[..n] + [results[n]];
      PrescanOneMore(results[..n], results[n], thresh);
      thresh', p := PrescanResult(results[n], thresh', p);
    }
    assert results[..|results|] == results;
  }

  method PrescanResult(r: CheckResult, thresh: Thresholds, p: Prescan) returns (thresh': Thresholds, p': Prescan)
    ensures thresh' == thresh.(packageManager := GetOr(PackageManagerOf(r), thresh.packageManager),
                               cpuLoadPct := GetOr(LoadOf(r), thresh.cpuLoadPct))
    ensures p' == Prescan(p.selinuxEnforcing || ShowsEnforcing(r), p.zfsPoolsPresent || ShowsPools(r),
                          p.swapActive || ShowsSwapping(r), GetOr(CPULimitOf(r), p.vmwareCPULimitMHz))
  {
    thresh', p' := thresh, p;
    if r.err.None? && (r.data.ByValue? || r.data.ByPointer?) {
      match r.data.payload
      case Packages(manager, _) =>
        if manager != "" { thresh' := thresh'.(packageManager := manager); }
      case CPU(loadPct, _, _) =>
        thresh' := thresh'.(cpuLoadPct := loadPct);
      case KernelSecurity(present, mode, _) =>
        if present && mode == "enforcing" { p' := p'.(selinuxEnforcing := true); }
      case ZFS(pools, _) =>
        if pools > 0 { p' := p'.(zfsPoolsPresent := true); }
      case Disk(pools, _) =>
        if pools > 0 { p' := p'.(zfsPoolsPresent := true); }
      case Swap(total, used, pagesIn, pagesOut, _) =>
        if total > 0.0 && (used > 0.0 || pagesIn > 0.0 || pagesOut > 0.0) { p' := p'.(swapActive := true); }
      case VMware(available, limit, _) =>
        if available && limit > 0 { p' := p'.(vmwareCPULimitMHz := limit); }
      case _ =>
    }
  }

  // ----- injection

  function InjectedPayload(payload: Payload, p: Prescan): Payload {
    match payload
    case Systemd(_, _, rest) => Systemd(p.selinuxEnforcing, p.zfsPoolsPresent, rest)
    case Sysctl(_, rest) => Sysctl(p.swapActive, rest)
    case CPU(loadPct, _, rest) => CPU(loadPct, p.vmwareCPULimitMHz, rest)
    case _ => payload
  }

  function Injected(r: CheckResult, p: Prescan): CheckResult {
    match r.data
    case ByValue(payload) => r.(data := ByValue(InjectedPayload(payload, p)))
    case ByPointer(payload) => r.(data := ByPointer(InjectedPayload(payload, p)))
    case _ => r
  }

  method Inject(results: array<CheckResult>, p: Prescan)
    modifies results
    ensures forall k :: 0 <= k < results.Length ==> results[k] == Injected(old(results[k]), p)
  {
    for k := 0 to results.Length
      invariant forall j :: 0 <= j < k ==> results[j] == Injected(old(results[j]), p)
      invariant forall j :: k <= j < results.Length ==> results[j] == old(results[j])
    {
      results[k] := Injected(results[k], p);
    }
  }

  // ----- the insights of one result

  const COLLECTOR_ERROR := "collector_error"
  const NOT_RECORDED := "not_recorded"

  function MarkedNotRecorded(ins: Insight): Insight {
    if ins.unverified && ins.unverifiedReason in {"unreadable", COLLECTOR_ERROR, "parse"}
    then ins.(unverifiedReason := NOT_RECORDED)
    else ins
  }

  function Marking(): Insight -> seq<Insight> {
    ins => [MarkedNotRecorded(ins)]
  }

  function ErrorInsight(r: CheckResult): Insight
    requires r.err.Some?
  {
    var reason := if r.notRecorded && r.err.value.reason == COLLECTOR_ERROR then NOT_RECORDED else r.err.value.reason;
    Insight("INFO", r.name, "check could not run — " + r.err.value.text, [], true, false, reason)
  }

  function ApplyOne(data: Data, thresh: Thresholds, check: Check): seq<Insight> {
    match data
    case ByValue(payload) => check(payload, thresh)
    case ByPointer(payload) => check(payload, thresh)
    case _ => []
  }

  function InsightsOf(r: CheckResult, thresh: Thresholds, check: Check): seq<Insight> {
    if r.err.Some? then [ErrorInsight(r)]
    else if r.notRecorded then Flat(ApplyOne(r.data, thresh, check), Marking())
    else ApplyOne(r.data, thresh, check)
  }

  /** The insights of a result as a function of the result alone, after injection. */
  function InsightsFrom(p: Prescan, thresh: Thresholds, check: Check): CheckResult -> seq<Insight> {
    r => InsightsOf(Injected(r, p), thresh, check)
  }

  // ----- deduplication of SELinux denials

  predicate IsDenial(ins: Insight, check: string) {
    ins.check == check && Contains(ins.message, "SELinux denial") && Contains(ins.message, "last hour")
  }

  function HardeningHints(ins: Insight): Option<seq<string>> {
    if IsDenial(ins, "Hardening") then Some(ins.hints) else None
  }

  /** `hints` followed by the hints of `extra` that are new, each once. */
  function Folded(hints: seq<string>, extra: seq<string>): seq<string> {
    if extra == [] then hints
    else
      var sofar := Folded(hints, extra[..|extra| - 1]);
      if extra[|extra| - 1] in sofar then sofar else sofar + [extra[|extra| - 1]]
  }

  predicate HasDenial(insights: seq<Insight>, check: string) {
    exists ins :: ins in insights && IsDenial(ins, check)
  }

  /** What becomes of one insight when both denial verdicts are present. */
  function DedupedOne(ins: Insight, hardeningHints: seq<string>): seq<Insight> {
    if IsDenial(ins, "Hardening") then []
    else if IsDenial(ins, "KernelSec") then [ins.(hints := Folded(ins.hints, hardeningHints))]
    else [ins]
  }

  function Deduping(hardeningHints: seq<string>): Insight -> seq<Insight> {
    ins => DedupedOne(ins, hardeningHints)
  }

  function Deduped(insights: seq<Insight>): seq<Insight> {
    if !HasDenial(insights, "KernelSec") || !HasDenial(insights, "Hardening") then insights
    else
      var hints := GetOr(LastSome(insights, HardeningHints), []);
      Flat(insights, Deduping(hints))
  }

  method FoldHints(hints: seq<string>, extra: seq<string>) returns (r: seq<string>)
    ensures r == Folded(hints, extra)
  {
    var have := set h | h in hints;
    r := hints;
    for n := 0 to |extra|
      invariant r == Folded(hints, extra[..n])
      invariant forall h :: h in have <==> h in r
    {
      assert extra[..n + 1][..n] == extra[..n];
      if extra[n] !in have {
        r := r + [extra[n]];
        have := have + {extra[n]};
      }
    }
    assert extra[..|extra|] == extra;
  }

  method DedupeSELinuxDenials(insights: seq<Insight>) returns (out: seq<Insight>)
    ensures out == Deduped(insights)
  {
    var hardeningHints: seq<string> := [];
    var haveKernelSec, haveHardening := false, false;
    for n := 0 to |insights|
      invariant haveKernelSec == HasDenial(insights[..n], "KernelSec")
      invariant haveHardening == HasDenial(insights[..n], "Hardening")
      invariant hardeningHints == GetOr(LastSome(insights[..n], HardeningHints), [])
    {
      var ins := insights[n];
      assert insights[..n + 1] == insights[..n] + [ins] && insights[..n + 1][..n] == insights[..n];
      assert forall x :: x in insights[..n + 1] <==> x in insights[..n] || x == ins;
      if IsDenial(ins, "KernelSec") {
        haveKernelSec := true;
      } else if IsDenial(ins, "Hardening") {
        hardeningHints := ins.hints;
        haveHardening := true;
      }
    }
    assert insights[..|insights|] == insights;
    if !haveKernelSec || !haveHardening {
      return insights;
    }
    out := [];
    ghost var f := Deduping(hardeningHints);
    for n := 0 to |insights|
      invariant out == Flat(insights[..n], f)
    {
      var ins := insights[n];
      assert insights[..n + 1][..n] == insights[..n];
      if IsDenial(ins, "Hardening") {
        continue;
      }
      if IsDenial(ins, "KernelSec") {
        var merged := FoldHints(ins.hints, hardeningHints);
        ins := ins.(hints := merged);
      }
      out := out + [ins];
    }
  }

  // ----- hints

  function RewrittenHints(hints: seq<string>, rewrite: HintRewrite): seq<string> {
    Flat(hints, h => match rewrite(h) case Some(h') => [h'] case None => [])
  }

  function Adapting(rewrite: HintRewrite): Insight -> seq<Insight> {
    (ins: Insight) => [ins.(hints := RewrittenHints(ins.hints, rewrite))]
  }

  function Adapted(insights: seq<Insight>, rewrite: HintRewrite): seq<Insight> {
    Flat(insights, Adapting(rewrite))
  }

  /** The rewriting loops update the hints of each insight where they are. */
  method AdaptHints(insights: array<Insight>, rewrite: HintRewrite)
    modifies insights
    ensures insights[..] == Adapted(old(insights[..]), rewrite)
  {
    ghost var was := insights[..];
    ghost var f := Adapting(rewrite);
    for k := 0 to insights.Length
      invariant insights[..k] == Flat(was[..k], f)
      invariant forall j :: k <= j < insights.Length ==> insights[j] == was[j]
    {
      var hints := insights[k].hints;
      var out: seq<string> := [];
      ghost var g := h => match rewrite(h) case Some(h') => [h'] case None => [];
      for n := 0 to |hints|
        invariant out == Flat(hints[..n], g)
      {
        assert hints[..n + 1][..n] == hints[..n];
        match rewrite(hints[n])
        case Some(h) => out := out + [h];
        case None =>
      }
      assert hints[..|hints|] == hints;
      assert insights[..k] == Flat(was[..k], f);
      insights[k] := insights[k].(hints := out);
      assert was[..k + 1][..k] == was[..k];
      assert insights[..k + 1] == insights[..k] + [insights[k]];
    }
    assert was[..|was|] == was && insights[..] == insights[..insights.Length];
  }

  // ----- the whole pass

  /** The insights of a run, as a function of its results in the order they completed. */
  function Analyzed(results: seq<CheckResult>, thresh: Thresholds, check: Check, rewrite: HintRewrite): seq<Insight> {
    var thresh' := PrescannedThresholds(results, thresh);
    var p := Prescanned(results);
    Adapted(Deduped(Flat(results, InsightsFrom(p, thresh', check))), rewrite)
  }

  method ApplyThresholds(results: array<CheckResult>, thresh: Thresholds, check: Check, rewrite: HintRewrite)
    returns (insights: seq<Insight>)
    modifies results
    ensures insights == Analyzed(old(results[..]), thresh, check, rewrite)
    ensures forall k :: 0 <= k < results.Length ==>
      results[k] == Injected(old(results[k]), Prescanned(old(results[..])))
  {
    ghost var was := results[..];
    var thresh', p := PrescanContext(results[..], thresh);
    Inject(results, p);
    var collected := Collect(results[..], thresh', check);
    FlatPointwise(results[..], was, r => InsightsOf(r, thresh', check), InsightsFrom(p, thresh', check));
    var deduped := DedupeSELinuxDenials(collected);
    var a := new Insight[|deduped|](i requires 0 <= i < |deduped| => deduped[i]);
    assert a[..] == deduped;
    AdaptHints(a, rewrite);
    insights := a[..];
  }

  method Collect(results: seq<CheckResult>, thresh: Thresholds, check: Check) returns (insights: seq<Insight>)
    ensures insights == Flat(results, r => InsightsOf(r, thresh, check))
  {
    insights := [];
    ghost var f := r => InsightsOf(r, thresh, check);
    for k := 0 to |results|
      invariant insights == Flat(results[..k], f)
    {
      var r := results[k];
      assert results[..k + 1][..k] == results[..k];
      if r.err.Some? {
        insights := insights + [ErrorInsight(r)];
        continue;
      }
      var got := ApplyOne(r.data, thresh, check);
      if r.notRecorded {
        got := MarkNotRecorded(got);
      }
      insights := insights + got;
    }
    assert results[..|results|] == results;
  }

  method MarkNotRecorded(insights: seq<Insight>) returns (out: seq<Insight>)
    ensures out == Flat(insights, Marking())
  {
    out := [];
    ghost var f := Marking();
    for n := 0 to |insights|
      invariant out == Flat(insights[..n], f)
    {
      assert insights[..n + 1][..n] == insights[..n];
      var ins := insights[n];
      var reason := ins.unverifiedReason;
      if ins.unverified && (reason == "unreadable" || reason == COLLECTOR_ERROR || reason == "parse") {
        ins := ins.(unverifiedReason := NOT_RECORDED);
      }
      out := out + [ins];
    }
    assert insights[..|insights|] == insights;
  }
}
