/** The diagnosis ignores completion order, deduplication loses nothing it should keep, and a failed collector shows. */
module Diagnosis {
  import Correlate
  import opened ExitCode
  import opened Heuristics
  import opened Insights
  import opened Sequences
  import opened Text
  import opened Wrappers

  // ----- completion order

  /** The hints of the last Hardening denial that each result contributes. */
  function DenialHintsFrom(p: Prescan, thresh: Thresholds, check: Check): CheckResult -> Option<seq<string>> {
    r => LastSome(InsightsFrom(p, thresh, check)(r), HardeningHints)
  }

  /**
   No two results compete for the same role: all that name a package manager, a CPU load, a VMware limit
   or Hardening denial hints name the same one. `OneResultPerTypeCompetesNot` says when that is so.
   */
  ghost predicate NoCompetition(results: seq<CheckResult>, thresh: Thresholds, check: Check) {
    && Agree(results, PackageManagerOf) && Agree(results, LoadOf) && Agree(results, CPULimitOf)
    && Agree(results, DenialHintsFrom(Prescanned(results), PrescannedThresholds(results, thresh), check))
  }

  /** The prescan is the same for every completion order of results that agree. */
  lemma PrescanIgnoresOrder(a: seq<CheckResult>, b: seq<CheckResult>, thresh: Thresholds)
    requires forall r :: r in a <==> r in b
    requires Agree(a, PackageManagerOf) && Agree(a, LoadOf) && Agree(a, CPULimitOf)
    ensures PrescannedThresholds(a, thresh) == PrescannedThresholds(b, thresh) && Prescanned(a) == Prescanned(b)
  {
    LastSomePermutes(a, b, PackageManagerOf);
    LastSomePermutes(a, b, LoadOf);
    LastSomePermutes(a, b, CPULimitOf);
  }

  /** The prescan of every completion order is the same. */
  ghost predicate OnePrescan(results: seq<CheckResult>, thresh: Thresholds) {
    forall b :: multiset(b) == multiset(results) ==>
      PrescannedThresholds(b, thresh) == PrescannedThresholds(results, thresh) && Prescanned(b) == Prescanned(results)
  }

  /** Exactly the agreement of the results is needed for that. */
  lemma {:induction false} PrescanIgnoresOrderIff(results: seq<CheckResult>, thresh: Thresholds)
    ensures OnePrescan(results, thresh) <==>
      Agree(results, PackageManagerOf) && Agree(results, LoadOf) && Agree(results, CPULimitOf)
  {
    if OnePrescan(results, thresh) {
      PrescanNeedsAgreement(results, thresh);
    } else if Agree(results, PackageManagerOf) && Agree(results, LoadOf) && Agree(results, CPULimitOf) {
      var b :| multiset(b) == multiset(results) &&
        !(PrescannedThresholds(b, thresh) == PrescannedThresholds(results, thresh)
          && Prescanned(b) == Prescanned(results));
      SameElements(results, b);
      PrescanIgnoresOrder(results, b, thresh);
    }
  }

  lemma {:induction false} PrescanNeedsAgreement(results: seq<CheckResult>, thresh: Thresholds)
    requires OnePrescan(results, thresh)
    ensures Agree(results, PackageManagerOf) && Agree(results, LoadOf) && Agree(results, CPULimitOf)
  {
    forall x, y | x in results && y in results && PackageManagerOf(x).Some? && PackageManagerOf(y).Some?
      ensures PackageManagerOf(x) == PackageManagerOf(y)
    {
      var endX := CanComeLast(results, x, PackageManagerOf);
      var endY := CanComeLast(results, y, PackageManagerOf);
      assert PrescannedThresholds(endX, thresh).packageManager == PrescannedThresholds(endY, thresh).packageManager;
    }
    forall x, y | x in results && y in results && LoadOf(x).Some? && LoadOf(y).Some? ensures LoadOf(x) == LoadOf(y) {
      var endX := CanComeLast(results, x, LoadOf);
      var endY := CanComeLast(results, y, LoadOf);
      assert PrescannedThresholds(endX, thresh).cpuLoadPct == PrescannedThresholds(endY, thresh).cpuLoadPct;
    }
    forall x, y | x in results && y in results && CPULimitOf(x).Some? && CPULimitOf(y).Some?
      ensures CPULimitOf(x) == CPULimitOf(y)
    {
      var endX := CanComeLast(results, x, CPULimitOf);
      var endY := CanComeLast(results, y, CPULimitOf);
      assert Prescanned(endX).vmwareCPULimitMHz == Prescanned(endY).vmwareCPULimitMHz;
    }
  }

  // ----- one result per model type

  /** Both payloads are of one model type. */
  predicate SameType(p: Payload, q: Payload) {
    match (p, q)
    case (Packages(_, _), Packages(_, _)) => true
    case (CPU(_, _, _), CPU(_, _, _)) => true
    case (KernelSecurity(_, _, _), KernelSecurity(_, _, _)) => true
    case (ZFS(_, _), ZFS(_, _)) => true
    case (Disk(_, _), Disk(_, _)) => true
    case (Swap(_, _, _, _, _), Swap(_, _, _, _, _)) => true
    case (VMware(_, _, _), VMware(_, _, _)) => true
    case (Systemd(_, _, _), Systemd(_, _, _)) => true
    case (Sysctl(_, _), Sysctl(_, _)) => true
    case (Other(kind, _), Other(kind', _)) => kind == kind'
    case _ => false
  }

  /** No two successful results are of one model type. */
  ghost predicate OneResultPerType(results: seq<CheckResult>) {
    forall i, j :: 0 <= i < j < |results| && Delivered(results[i]).Some? && Delivered(results[j]).Some? ==>
      !SameType(Delivered(results[i]).value, Delivered(results[j]).value)
  }

  /** Both payloads are of one of the types whose values the prescan copies. */
  predicate SameRole(p: Payload, q: Payload) {
    (p.Packages? && q.Packages?) || (p.CPU? && q.CPU?) || (p.VMware? && q.VMware?)
  }

  /** At most one successful result for each of these types is a case of agreement. */
  lemma {:induction false} OneResultPerTypeAgrees(results: seq<CheckResult>)
    requires forall i, j :: 0 <= i < j < |results| && Delivered(results[i]).Some? && Delivered(results[j]).Some? ==>
      !SameRole(Delivered(results[i]).value, Delivered(results[j]).value)
    ensures Agree(results, PackageManagerOf) && Agree(results, LoadOf) && Agree(results, CPULimitOf)
  {
    forall x, y | x in results && y in results && Delivered(x).Some? && Delivered(y).Some? &&
                  SameRole(Delivered(x).value, Delivered(y).value)
      ensures x == y
    {
      var i :| 0 <= i < |results| && results[i] == x;
      var j :| 0 <= j < |results| && results[j] == y;
    }
  }

  /** The checks of one model type alone emit the Hardening denial; in the source, that of the security collector. */
  ghost predicate DenialsFromOneType(check: Check) {
    forall p, q, thresh :: HasDenial(check(p, thresh), "Hardening") && HasDenial(check(q, thresh), "Hardening") ==>
      SameType(p, q)
  }

  /** No collector error reads like a Hardening denial. */
  ghost predicate ErrorsAreNoDenials(results: seq<CheckResult>) {
    forall r :: r in results && r.err.Some? ==> !IsDenial(ErrorInsight(r), "Hardening")
  }

  /** A denial that a result contributes is one of the check on what it delivered. */
  lemma {:induction false} DenialIsChecked(r: CheckResult, p: Prescan, thresh: Thresholds, check: Check)
    returns (payload: Payload, x: Insight)
    requires DenialHintsFrom(p, thresh, check)(r).Some?
    requires r.err.Some? ==> !IsDenial(ErrorInsight(r), "Hardening")
    ensures Delivered(r).Some? && payload == InjectedPayload(Delivered(r).value, p)
    ensures x in check(payload, thresh) && IsDenial(x, "Hardening")
  {
    var insights := InsightsFrom(p, thresh, check)(r);
    LastSomeMeaning(insights, HardeningHints);
    var ins :| ins in insights && HardeningHints(ins).Some?;
    assert Injected(r, p).err == r.err && Injected(r, p).name == r.name && Injected(r, p).notRecorded == r.notRecorded;
    var raw := ApplyOne(Injected(r, p).data, thresh, check);
    x := ins;
    if r.err.None? && r.notRecorded {
      FlatMembers(raw, Marking(), ins);
      x :| x in raw && ins in Marking()(x);
    }
    assert x in raw;
    payload := InjectedPayload(Delivered(r).value, p);
  }

  lemma InjectionKeepsType(x: Payload, y: Payload, p: Prescan)
    requires SameType(InjectedPayload(x, p), InjectedPayload(y, p))
    ensures SameType(x, y)
  {
  }

  /** One result per model type leaves no competition, whatever the checks say. */
  lemma {:induction false} OneResultPerTypeCompetesNot(results: seq<CheckResult>, thresh: Thresholds, check: Check)
    requires OneResultPerType(results) && DenialsFromOneType(check) && ErrorsAreNoDenials(results)
    ensures NoCompetition(results, thresh, check)
  {
    OneResultPerTypeAgrees(results);
    var p, thresh' := Prescanned(results), PrescannedThresholds(results, thresh);
    var f := DenialHintsFrom(p, thresh', check);
    forall x, y | x in results && y in results && f(x).Some? && f(y).Some? ensures f(x) == f(y) {
      var payloadX, denialX := DenialIsChecked(x, p, thresh', check);
      var payloadY, denialY := DenialIsChecked(y, p, thresh', check);
      InjectionKeepsType(Delivered(x).value, Delivered(y).value, p);
    }
  }

  /** Two results that name different package managers make the thresholds depend on who finishes last. */
  lemma {:induction false} CompetitionShows(x: CheckResult, y: CheckResult, thresh: Thresholds)
    requires PackageManagerOf(x).Some? && PackageManagerOf(y).Some? && PackageManagerOf(x) != PackageManagerOf(y)
    ensures PrescannedThresholds([x, y], thresh) != PrescannedThresholds([y, x], thresh)
  {
    DisagreementShows(x, y, PackageManagerOf);
    assert [x, y][..1] == [x] && [y, x][..1] == [y];
  }

  lemma {:induction false} LastSomeOfAppend<B, C>(xs: seq<B>, ys: seq<B>, g: B -> Option<C>)
    ensures LastSome(xs + ys, g) == if LastSome(ys, g).Some? then LastSome(ys, g) else LastSome(xs, g)
    decreases |ys|
  {
    if ys == [] {
      assert xs + ys == xs;
    } else {
      var n := |ys| - 1;
      assert (xs + ys)[..|xs + ys| - 1] == xs + ys[..n];
      LastSomeOfAppend(xs, ys[..n], g);
    }
  }

  lemma {:induction false} DedupeIgnoresOrder(a: seq<Insight>, b: seq<Insight>)
    requires multiset(a) == multiset(b)
    requires LastSome(a, HardeningHints) == LastSome(b, HardeningHints)
    ensures multiset(Deduped(a)) == multiset(Deduped(b))
  {
    SameElements(a, b);
    assert HasDenial(a, "KernelSec") == HasDenial(b, "KernelSec")
      && HasDenial(a, "Hardening") == HasDenial(b, "Hardening");
    var hints := GetOr(LastSome(a, HardeningHints), []);
    FlatPermutes(a, b, Deduping(hints));
  }

  /**
   Collectors may complete in any order: for every set of checks, thresholds and host, the insights are
   the same up to order, and the diagnoses and the exit codes are the same.
   */
  lemma {:induction false} DiagnosisIgnoresCompletionOrder(a: seq<CheckResult>, b: seq<CheckResult>,
                                                           thresh: Thresholds, check: Check, rewrite: HintRewrite)
    requires multiset(a) == multiset(b) && NoCompetition(a, thresh, check)
    ensures var x, y := Analyzed(a, thresh, check, rewrite), Analyzed(b, thresh, check, rewrite);
      && multiset(x) == multiset(y)
      && Correlate.Diagnoses(Correlate.IndexOf(x)) == Correlate.Diagnoses(Correlate.IndexOf(y))
      && WorstCode(x) == WorstCode(y)
      && forall errored: nat :: VerdictCode(errored, x) == VerdictCode(errored, y)
  {
    InsightsIgnoreCompletionOrder(a, b, thresh, check, rewrite);
    SameInsightsSameOutcome(Analyzed(a, thresh, check, rewrite), Analyzed(b, thresh, check, rewrite));
  }

  /** So with one result per model type the diagnosis of a run does not depend on who completes first. */
  lemma {:induction false} OneResultPerTypeIgnoresOrder(a: seq<CheckResult>, b: seq<CheckResult>, thresh: Thresholds,
                                                       check: Check, rewrite: HintRewrite)
    requires multiset(a) == multiset(b)
    requires OneResultPerType(a) && DenialsFromOneType(check) && ErrorsAreNoDenials(a)
    ensures var x, y := Analyzed(a, thresh, check, rewrite), Analyzed(b, thresh, check, rewrite);
      && multiset(x) == multiset(y)
      && Correlate.Diagnoses(Correlate.IndexOf(x)) == Correlate.Diagnoses(Correlate.IndexOf(y))
      && WorstCode(x) == WorstCode(y)
      && forall errored: nat :: VerdictCode(errored, x) == VerdictCode(errored, y)
  {
    OneResultPerTypeCompetesNot(a, thresh, check);
    DiagnosisIgnoresCompletionOrder(a, b, thresh, check, rewrite);
  }

  lemma {:induction false} SameInsightsSameOutcome(x: seq<Insight>, y: seq<Insight>)
    requires multiset(x) == multiset(y)
    ensures Correlate.Diagnoses(Correlate.IndexOf(x)) == Correlate.Diagnoses(Correlate.IndexOf(y))
    ensures WorstCode(x) == WorstCode(y)
    ensures forall errored: nat :: VerdictCode(errored, x) == VerdictCode(errored, y)
  {
    SameElements(x, y);
    Correlate.DiagnosesIgnoreOrder(x, y);
    WorstCodeDependsOnMembers(x, y);
    WorstCodeDependsOnMembers(y, x);
  }

  lemma {:induction false} InsightsIgnoreCompletionOrder(a: seq<CheckResult>, b: seq<CheckResult>, thresh: Thresholds,
                                                         check: Check, rewrite: HintRewrite)
    requires multiset(a) == multiset(b) && NoCompetition(a, thresh, check)
    ensures multiset(Analyzed(a, thresh, check, rewrite)) == multiset(Analyzed(b, thresh, check, rewrite))
  {
    SameElements(a, b);
    PrescanIgnoresOrder(a, b, thresh);
    var p, thresh' := Prescanned(a), PrescannedThresholds(a, thresh);
    var f := InsightsFrom(p, thresh', check);
    FlatPermutes(a, b, f);
    SameDenialHints(a, b, p, thresh', check);
    DedupeIgnoresOrder(Flat(a, f), Flat(b, f));
    FlatPermutes(Deduped(Flat(a, f)), Deduped(Flat(b, f)), Adapting(rewrite));
  }

  lemma {:induction false} SameDenialHints(a: seq<CheckResult>, b: seq<CheckResult>, p: Prescan, thresh: Thresholds,
                                           check: Check)
    requires forall r :: r in a <==> r in b
    requires Agree(a, DenialHintsFrom(p, thresh, check))
    ensures LastSome(Flat(a, InsightsFrom(p, thresh, check)), HardeningHints)
         == LastSome(Flat(b, InsightsFrom(p, thresh, check)), HardeningHints)
  {
    LastSomePermutes(a, b, DenialHintsFrom(p, thresh, check));
    DenialHintsOfAll(a, p, thresh, check);
    DenialHintsOfAll(b, p, thresh, check);
  }

  lemma {:induction false} DenialHintsOfAll(rs: seq<CheckResult>, p: Prescan, thresh: Thresholds, check: Check)
    ensures LastSome(Flat(rs, InsightsFrom(p, thresh, check)), HardeningHints) ==
      LastSome(rs, DenialHintsFrom(p, thresh, check))
    decreases |rs|
  {
    if rs != [] {
      var n := |rs| - 1;
      var f := InsightsFrom(p, thresh, check);
      DenialHintsOfAll(rs[..n], p, thresh, check);
      LastSomeOfAppend(Flat(rs[..n], f), f(rs[n]), HardeningHints);
    }
  }

  // ----- SELinux deduplication

  /** Everything of an insight but its hints. */
  function Bare(ins: Insight): Insight {
    ins.(hints := [])
  }

  predicate Kept(insights: seq<Insight>, ins: Insight) {
    !(IsDenial(ins, "Hardening") && HasDenial(insights, "KernelSec"))
  }

  function KeptBare(insights: seq<Insight>): Insight -> seq<Insight> {
    ins => if Kept(insights, ins) then [Bare(ins)] else []
  }

  /** Removing hints changes nothing else about what a list says. */
  function AllBare(): Insight -> seq<Insight> {
    ins => [Bare(ins)]
  }

  lemma {:induction false} FlatOfFlat<A, B, C>(xs: seq<A>, f: A -> seq<B>, g: B -> seq<C>, h: A -> seq<C>)
    requires forall x :: x in xs ==> Flat(f(x), g) == h(x)
    ensures Flat(Flat(xs, f), g) == Flat(xs, h)
    decreases |xs|
  {
    if xs != [] {
      var n := |xs| - 1;
      assert xs == xs[..n] + [xs[n]];
      FlatOfFlat(xs[..n], f, g, h);
      FlatAppend(Flat(xs[..n], f), f(xs[n]), g);
    }
  }

  lemma {:induction false} FlatSame<A, B>(xs: seq<A>, f: A -> seq<B>, g: A -> seq<B>)
    requires forall x :: x in xs ==> f(x) == g(x)
    ensures Flat(xs, f) == Flat(xs, g)
    decreases |xs|
  {
    if xs != [] {
      assert xs == xs[..|xs| - 1] + [xs[|xs| - 1]];
      FlatSame(xs[..|xs| - 1], f, g);
    }
  }

  /**
   The deduplicated list is the original one, in order and with levels, checks and messages untouched,
   without the Hardening denials; and those are dropped only where a KernelSec denial stands for them.
   */
  lemma DedupeConserves(insights: seq<Insight>)
    ensures Flat(Deduped(insights), AllBare()) == Flat(insights, KeptBare(insights))
  {
    if HasDenial(insights, "KernelSec") && HasDenial(insights, "Hardening") {
      var hints := GetOr(LastSome(insights, HardeningHints), []);
      forall ins | ins in insights ensures Flat(DedupedOne(ins, hints), AllBare()) == KeptBare(insights)(ins) {
        if !IsDenial(ins, "Hardening") {
          FlatOne(DedupedOne(ins, hints)[0], AllBare());
        }
      }
      FlatOfFlat(insights, Deduping(hints), AllBare(), KeptBare(insights));
    } else {
      forall ins | ins in insights ensures AllBare()(ins) == KeptBare(insights)(ins) {
        assert IsDenial(ins, "Hardening") ==> HasDenial(insights, "Hardening");
      }
      FlatSame(insights, AllBare(), KeptBare(insights));
    }
  }

  lemma DedupeLeavesNoPair(insights: seq<Insight>)
    ensures !HasDenial(Deduped(insights), "KernelSec") || !HasDenial(Deduped(insights), "Hardening")
  {
    if HasDenial(insights, "KernelSec") && HasDenial(insights, "Hardening") {
      var hints := GetOr(LastSome(insights, HardeningHints), []);
      forall y | y in Deduped(insights) ensures !IsDenial(y, "Hardening") {
        FlatMembers(insights, Deduping(hints), y);
      }
    }
  }

  /** A second pass changes nothing. */
  lemma DedupeIdempotent(insights: seq<Insight>)
    ensures Deduped(Deduped(insights)) == Deduped(insights)
  {
    DedupeLeavesNoPair(insights);
  }

  /** Folding keeps the hints there were as a prefix, adds every extra hint, and adds nothing twice. */
  lemma {:induction false} FoldedKeepsHints(hints: seq<string>, extra: seq<string>)
    ensures hints <= Folded(hints, extra)
    ensures forall h :: h in Folded(hints, extra) <==> h in hints || h in extra
    ensures forall i, j :: |hints| <= i < |Folded(hints, extra)| && 0 <= j < i ==>
      Folded(hints, extra)[j] != Folded(hints, extra)[i]
    decreases |extra|
  {
    if extra != [] {
      var n := |extra| - 1;
      FoldedKeepsHints(hints, extra[..n]);
      assert extra == extra[..n] + [extra[n]];
    }
  }

  ghost predicate OneHardeningVerdict(insights: seq<Insight>) {
    forall x, y :: x in insights && y in insights && IsDenial(x, "Hardening") && IsDenial(y, "Hardening") ==>
      x.hints == y.hints
  }

  /** The hints of a dropped verdict reach every KernelSec denial, provided there was one verdict to drop. */
  lemma DedupeKeepsDroppedHints(insights: seq<Insight>, dropped: Insight, y: Insight, h: string)
    requires dropped in insights && IsDenial(dropped, "Hardening") && HasDenial(insights, "KernelSec")
    requires OneHardeningVerdict(insights)
    requires y in Deduped(insights) && IsDenial(y, "KernelSec") && h in dropped.hints
    ensures h in y.hints
  {
    assert HasDenial(insights, "Hardening");
    LastSomeMeaning(insights, HardeningHints);
    var hints := GetOr(LastSome(insights, HardeningHints), []);
    assert hints == dropped.hints;
    FlatMembers(insights, Deduping(hints), y);
    var x :| x in insights && y in Deduping(hints)(x);
    FoldedKeepsHints(x.hints, hints);
  }

  /** Some Hardening verdict gives this hint. */
  ghost predicate HardeningAdvises(insights: seq<Insight>, h: string) {
    exists dropped :: dropped in insights && IsDenial(dropped, "Hardening") && h in dropped.hints
  }

  /** No hint of a dropped verdict is missing from a KernelSec denial that stands for it. */
  ghost predicate LosesNoHint(insights: seq<Insight>) {
    forall y, h :: y in Deduped(insights) && IsDenial(y, "KernelSec") && HardeningAdvises(insights, h) ==> h in y.hints
  }

  /** Every hint of a Hardening verdict is also in the last one, or in each KernelSec denial already. */
  ghost predicate LastHasAll(insights: seq<Insight>) {
    forall x, h :: x in insights && IsDenial(x, "KernelSec") && HardeningAdvises(insights, h) ==>
      h in GetOr(LastSome(insights, HardeningHints), []) || h in x.hints
  }

  /** Exactly then. A health run has one Hardening verdict, so it loses none. */
  lemma {:induction false} LosesNoHintIff(insights: seq<Insight>)
    ensures LosesNoHint(insights) <==> LastHasAll(insights)
  {
    if HasDenial(insights, "KernelSec") && HasDenial(insights, "Hardening") {
      var hints := GetOr(LastSome(insights, HardeningHints), []);
      if LosesNoHint(insights) {
        forall x, h | x in insights && IsDenial(x, "KernelSec") && HardeningAdvises(insights, h)
          ensures h in hints || h in x.hints
        {
          StandsFor(insights, x, hints);
          FoldedKeepsHints(x.hints, hints);
        }
      }
      if LastHasAll(insights) {
        forall y, h | y in Deduped(insights) && IsDenial(y, "KernelSec") && HardeningAdvises(insights, h)
          ensures h in y.hints
        {
          FlatMembers(insights, Deduping(hints), y);
          var x :| x in insights && y in Deduping(hints)(x);
          FoldedKeepsHints(x.hints, hints);
        }
      }
    }
  }

  /** What becomes of a KernelSec denial. */
  lemma StandsFor(insights: seq<Insight>, x: Insight, hints: seq<string>)
    requires x in insights && IsDenial(x, "KernelSec") && HasDenial(insights, "Hardening")
    requires hints == GetOr(LastSome(insights, HardeningHints), [])
    ensures x.(hints := Folded(x.hints, hints)) in Deduped(insights)
    ensures IsDenial(x.(hints := Folded(x.hints, hints)), "KernelSec")
  {
    KernelIsNotHardening(x);
    var y := x.(hints := Folded(x.hints, hints));
    assert y in Deduping(hints)(x);
    FlatMembers(insights, Deduping(hints), y);
  }

  lemma KernelIsNotHardening(ins: Insight)
    requires IsDenial(ins, "KernelSec")
    ensures !IsDenial(ins, "Hardening")
  {
    assert "KernelSec"[0] != "Hardening"[0];
  }

  /** With two different Hardening verdicts the hints of the first are lost, whatever the denials say. */
  lemma SecondHardeningVerdictHidesFirst(kernel: Insight, first: Insight, second: Insight, h: string)
    requires IsDenial(kernel, "KernelSec") && IsDenial(first, "Hardening") && IsDenial(second, "Hardening")
    requires h in first.hints && h !in second.hints && h !in kernel.hints
    ensures forall y :: y in Deduped([first, second, kernel]) ==> h !in y.hints
  {
    var insights := [first, second, kernel];
    assert first in insights && kernel in insights;
    LastOfThree(first, second, kernel);
    forall y | y in Deduped(insights) ensures h !in y.hints {
      FlatMembers(insights, Deduping(second.hints), y);
      var x :| x in insights && y in Deduping(second.hints)(x);
      FoldedKeepsHints(x.hints, second.hints);
    }
  }

  lemma LastOfThree(first: Insight, second: Insight, third: Insight)
    requires HardeningHints(second).Some? && HardeningHints(third) == None
    ensures LastSome([first, second, third], HardeningHints) == HardeningHints(second)
  {
    assert [first, second, third][..2] == [first, second];
  }

  // ----- a check that could not run

  /** KernelSec denials are at least warnings, whatever else a check does. */
  ghost predicate DenialsAreFindings(check: Check) {
    forall payload, thresh, ins :: ins in check(payload, thresh) && IsDenial(ins, "KernelSec") ==> Floors(ins)
  }

  lemma InsightSurvives(results: seq<CheckResult>, r: CheckResult, ins: Insight, thresh: Thresholds, check: Check)
    requires DenialsAreFindings(check)
    requires r in results && ins in InsightsFrom(Prescanned(results), thresh, check)(r) && Floors(ins)
    ensures exists y :: y in Deduped(Flat(results, InsightsFrom(Prescanned(results), thresh, check))) && Floors(y)
  {
    var f := InsightsFrom(Prescanned(results), thresh, check);
    var all := Flat(results, f);
    FlatMembers(results, f, ins);
    if HasDenial(all, "KernelSec") && HasDenial(all, "Hardening") {
      var hints := GetOr(LastSome(all, HardeningHints), []);
      var kernel :| kernel in all && IsDenial(kernel, "KernelSec");
      KernelDenialFloors(results, kernel, thresh, check);
      var x := if IsDenial(ins, "Hardening") then kernel else ins;
      assert x in all && !IsDenial(x, "Hardening");
      DedupingKeepsFloor(all, x, hints);
    }
  }

  lemma DedupingKeepsFloor(all: seq<Insight>, x: Insight, hints: seq<string>)
    requires x in all && !IsDenial(x, "Hardening") && Floors(x)
    ensures exists y :: y in Flat(all, Deduping(hints)) && Floors(y)
  {
    var y := DedupedOne(x, hints)[0];
    FlatMembers(all, Deduping(hints), y);
    assert y in Deduping(hints)(x);
  }

  lemma KernelDenialFloors(results: seq<CheckResult>, kernel: Insight, thresh: Thresholds, check: Check)
    requires DenialsAreFindings(check)
    requires kernel in Flat(results, InsightsFrom(Prescanned(results), thresh, check)) && IsDenial(kernel, "KernelSec")
    ensures Floors(kernel)
  {
    var f := InsightsFrom(Prescanned(results), thresh, check);
    FlatMembers(results, f, kernel);
    var r :| r in results && kernel in f(r);
    DenialOfResultFloors(Injected(r, Prescanned(results)), kernel, thresh, check);
  }

  lemma DenialOfResultFloors(r: CheckResult, kernel: Insight, thresh: Thresholds, check: Check)
    requires DenialsAreFindings(check)
    requires kernel in InsightsOf(r, thresh, check) && IsDenial(kernel, "KernelSec")
    ensures Floors(kernel)
  {
    if r.err.None? {
      var raw := ApplyOne(r.data, thresh, check);
      if r.notRecorded {
        FlatMembers(raw, Marking(), kernel);
        var ins :| ins in raw && kernel in Marking()(ins);
        assert IsDenial(ins, "KernelSec") && Floors(ins);
      } else {
        assert kernel in raw;
      }
    }
  }

  lemma AdaptingKeepsVerdict(insights: seq<Insight>, rewrite: HintRewrite)
    requires exists ins :: ins in insights && Floors(ins)
    ensures exists ins :: ins in Adapted(insights, rewrite) && Floors(ins)
  {
    var ins :| ins in insights && Floors(ins);
    var y := Adapting(rewrite)(ins)[0];
    FlatMembers(insights, Adapting(rewrite), y);
    assert y in Adapting(rewrite)(ins);
  }

  /**
   A run with a failed collector never reads as healthy, even where the verdict is taken from the insights
   alone: the error becomes an unverified insight, and neither deduplication nor hint rewriting loses it.
   */
  lemma FailedCollectorFloorsVerdict(results: seq<CheckResult>, thresh: Thresholds, check: Check, rewrite: HintRewrite)
    requires DenialsAreFindings(check)
    requires exists r :: r in results && r.err.Some?
    ensures var x := Analyzed(results, thresh, check, rewrite);
      VerdictCode(0, x) >= 1 && WorstCode(x) >= 1 && forall errored: nat :: VerdictCode(errored, x) == VerdictCode(0, x)
  {
    var r :| r in results && r.err.Some?;
    var thresh' := PrescannedThresholds(results, thresh);
    var ins := ErrorInsight(Injected(r, Prescanned(results)));
    assert ins in InsightsFrom(Prescanned(results), thresh', check)(r);
    InsightSurvives(results, r, ins, thresh', check);
    AdaptingKeepsVerdict(Deduped(Flat(results, InsightsFrom(Prescanned(results), thresh', check))), rewrite);
    FlooringInsightShows(Analyzed(results, thresh, check, rewrite));
  }

  lemma FlooringInsightShows(x: seq<Insight>)
    requires exists ins :: ins in x && Floors(ins)
    ensures VerdictCode(0, x) >= 1 && WorstCode(x) >= 1
      && forall errored: nat :: VerdictCode(errored, x) == VerdictCode(0, x)
  {
    WorstCodeIsMaximum(x);
    var ins :| ins in x && Floors(ins);
    assert CodeOf(ins) >= 1;
  }
}
