/**
 cmd/exitcode.go's accumulator of the worst severity, and the run verdict of internal/render/verdict.go
 that it is meant to agree with.
 */
module ExitCode {
  import opened Insights

  function Max(a: nat, b: nat): nat {
    if a > b then a else b
  }

  /** The exit code one insight asks for. */
  function CodeOf(ins: Insight): nat {
    if ins.level == "CRIT" then 2
    else if ins.level == "WARN" || ins.unverified then 1
    else 0
  }

  function WorstCode(insights: seq<Insight>): nat {
    if insights == [] then 0
    else Max(WorstCode(insights[..|insights| - 1]), CodeOf(insights[|insights| - 1]))
  }

  class ExitStatus {
    var pending: nat

    constructor ()
      ensures pending == 0
    {
      pending := 0;
    }

    method Record(code: nat)
      modifies this
      ensures pending == Max(old(pending), code)
    {
      if code > pending {
        pending := code;
      }
    }

    /** However the calls are spread over a command, the pending code is the worst insight's. */
    method RecordWorstInsight(insights: seq<Insight>)
      modifies this
      ensures pending == Max(old(pending), WorstCode(insights))
    {
      for n := 0 to |insights|
        invariant pending == Max(old(pending), WorstCode(insights[..n]))
      {
        var ins := insights[n];
        assert insights[..n + 1][..n] == insights[..n];
        if ins.level == "CRIT" {
          Record(2);
        } else if ins.level == "WARN" {
          Record(1);
        }
        if ins.unverified {
          Record(1);
        }
      }
      assert insights[..|insights|] == insights;
    }
  }

  lemma {:induction false} WorstCodeIsMaximum(insights: seq<Insight>)
    ensures forall ins :: ins in insights ==> CodeOf(ins) <= WorstCode(insights)
    ensures WorstCode(insights) > 0 ==> exists ins :: ins in insights && CodeOf(ins) == WorstCode(insights)
    decreases |insights|
  {
    if insights != [] {
      var n := |insights| - 1;
      WorstCodeIsMaximum(insights[..n]);
      assert insights == insights[..n] + [insights[n]];
      assert insights[n] in insights;
    }
  }

  /** More insights never lower the code; so it depends only on which insights there are. */
  lemma WorstCodeDependsOnMembers(a: seq<Insight>, b: seq<Insight>)
    requires forall ins :: ins in a ==> ins in b
    ensures WorstCode(a) <= WorstCode(b)
  {
    WorstCodeIsMaximum(a);
    WorstCodeIsMaximum(b);
  }

  // ----- the run verdict

  ghost predicate SomeAt(insights: seq<Insight>, level: string) {
    exists ins :: ins in insights && ins.level == level
  }

  predicate IsCrit(ins: Insight) {
    ins.level == "CRIT"
  }

  predicate IsWarn(ins: Insight) {
    ins.level == "WARN"
  }

  predicate CouldNotRun(ins: Insight) {
    ins.unverified && !ins.needsRoot
  }

  /** An insight that makes the verdict at least WARN. */
  predicate Floors(ins: Insight) {
    IsCrit(ins) || IsWarn(ins) || CouldNotRun(ins)
  }

  function Count(insights: seq<Insight>, p: Insight -> bool): nat {
    if insights == [] then 0
    else Count(insights[..|insights| - 1], p) + if p(insights[|insights| - 1]) then 1 else 0
  }

  lemma {:induction false} CountPositive(insights: seq<Insight>, p: Insight -> bool)
    ensures Count(insights, p) > 0 <==> exists ins :: ins in insights && p(ins)
    decreases |insights|
  {
    if insights != [] {
      var n := |insights| - 1;
      CountPositive(insights[..n], p);
      assert insights == insights[..n] + [insights[n]];
      assert insights[n] in insights;
    }
  }

  /** The code of the verdict, stated without counting. */
  ghost function VerdictCode(errored: nat, insights: seq<Insight>): nat {
    if exists ins :: ins in insights && IsCrit(ins) then 2
    else if errored > 0 || exists ins :: ins in insights && Floors(ins) then 1
    else 0
  }

  /** Both codes on the levels: 2 for a CRIT, 0 where nothing is reported that counts. */
  lemma {:induction false} CodesMeaning(errored: nat, insights: seq<Insight>)
    ensures WorstCode(insights) == 2 <==> SomeAt(insights, "CRIT")
    ensures WorstCode(insights) == 0 <==>
      forall ins :: ins in insights ==> ins.level != "CRIT" && ins.level != "WARN" && !ins.unverified
    ensures WorstCode(insights) <= 2 && VerdictCode(errored, insights) <= 2
    ensures VerdictCode(errored, insights) == 2 <==> SomeAt(insights, "CRIT")
    ensures VerdictCode(errored, insights) == 0 <==>
      errored == 0 && forall ins :: ins in insights ==>
        ins.level != "CRIT" && ins.level != "WARN" && (ins.unverified ==> ins.needsRoot)
  {
    WorstCodeIsMaximum(insights);
    if WorstCode(insights) > 0 {
      var worst :| worst in insights && CodeOf(worst) == WorstCode(insights);
      assert CodeOf(worst) == 2 <==> worst.level == "CRIT";
    }
    forall ins | ins in insights ensures CodeOf(ins) <= 2 && CodeOf(ins) <= WorstCode(insights) {
    }
  }

  /** A collector result as the verdict sees it. */
  datatype RunResult = RunResult(name: string, failed: bool)

  /** Counts of findings, of reasons why something could not be looked at, and of the checks concerned. */
  datatype VerdictInfo = VerdictInfo(
    crit: nat, warn: nat, info: nat, errored: nat, unverified: nat, needsRoot: nat, notRun: nat, skipped: nat,
      code: nat)

  predicate IsInfo(ins: Insight) {
    ins.level == "INFO"
  }

  predicate IsUnverified(ins: Insight) {
    ins.unverified
  }

  predicate IsSkipped(ins: Insight) {
    ins.unverified && ins.needsRoot
  }

  /** The checks of the insights of a kind. */
  function ChecksOf(insights: seq<Insight>, p: Insight -> bool): set<string> {
    set ins | ins in insights && p(ins) :: ins.check
  }

  function FailedNames(results: seq<RunResult>): set<string> {
    set r | r in results && r.failed :: r.name
  }

  function CountFailed(results: seq<RunResult>): nat {
    if results == [] then 0 else CountFailed(results[..|results| - 1]) + if results[|results| - 1].failed then 1 else 0
  }

  lemma {:induction false} CountFailedPositive(results: seq<RunResult>)
    ensures CountFailed(results) > 0 <==> FailedNames(results) != {}
    decreases |results|
  {
    if results != [] {
      var n := |results| - 1;
      CountFailedPositive(results[..n]);
      assert results == results[..n] + [results[n]];
      assert results[n].failed ==> results[n].name in FailedNames(results);
      assert FailedNames(results[..n]) <= FailedNames(results);
    }
  }

  /** The counts are those of the insights and results, and the level follows them as specified without counting. */
  ghost predicate Describes(v: VerdictInfo, results: seq<RunResult>, insights: seq<Insight>) {
    && v.crit == Count(insights, IsCrit) && v.warn == Count(insights, IsWarn) && v.info == Count(insights, IsInfo)
    && v.unverified == Count(insights, IsUnverified) && v.needsRoot == Count(insights, IsSkipped)
    && v.errored == CountFailed(results)
    && v.notRun == |ChecksOf(insights, CouldNotRun) + FailedNames(results)|
    && v.skipped == |ChecksOf(insights, IsSkipped)|
    && v.code == VerdictCode(v.errored, insights)
  }

  /** Verdict counts severities and unverified insights and subtracts the needs-root ones again. */
  method Verdict(results: seq<RunResult>, insights: seq<Insight>) returns (v: VerdictInfo)
    ensures Describes(v, results, insights)
  {
    var counted, notRun, skipped := CountInsights(insights);
    var errored, failed := CountErrors(results);
    notRun := notRun + failed;
    CountPositive(insights, IsCrit);
    CountPositive(insights, IsWarn);
    CountPositive(insights, CouldNotRun);
    CouldNotRunAreUnskipped(insights);
    v := counted.(errored := errored, notRun := |notRun|, skipped := |skipped|);
    var couldNotRun := v.errored + v.unverified - v.needsRoot;
    v := v.(code := if v.crit > 0 then 2 else if v.warn > 0 || couldNotRun > 0 then 1 else 0);
  }

  method CountInsights(insights: seq<Insight>) returns (v: VerdictInfo, notRun: set<string>, skipped: set<string>)
    ensures v.crit == Count(insights, IsCrit) && v.warn == Count(insights, IsWarn) && v.info == Count(insights, IsInfo)
    ensures v.unverified == Count(insights, IsUnverified) && v.needsRoot == Count(insights, IsSkipped)
    ensures notRun == ChecksOf(insights, CouldNotRun) && skipped == ChecksOf(insights, IsSkipped)
  {
    v, notRun, skipped := VerdictInfo(0, 0, 0, 0, 0, 0, 0, 0, 0), {}, {};
    for n := 0 to |insights|
      invariant v.crit == Count(insights[..n], IsCrit) && v.warn == Count(insights[..n], IsWarn)
      invariant v.info == Count(insights[..n], IsInfo) && v.unverified == Count(insights[..n], IsUnverified)
      invariant v.needsRoot == Count(insights[..n], IsSkipped)
      invariant notRun == ChecksOf(insights[..n], CouldNotRun) && skipped == ChecksOf(insights[..n], IsSkipped)
    {
      var ins := insights[n];
      assert insights[..n + 1] == insights[..n] + [ins];
      if ins.level == "CRIT" {
        v := v.(crit := v.crit + 1);
      } else if ins.level == "WARN" {
        v := v.(warn := v.warn + 1);
      } else if ins.level == "INFO" {
        v := v.(info := v.info + 1);
      }
      if ins.unverified && ins.needsRoot {
        v := v.(unverified := v.unverified + 1, needsRoot := v.needsRoot + 1);
        skipped := skipped + {ins.check};
      } else if ins.unverified {
        v := v.(unverified := v.unverified + 1);
        notRun := notRun + {ins.check};
      }
    }
    assert insights[..|insights|] == insights;
  }

  method CountErrors(results: seq<RunResult>) returns (errored: nat, names: set<string>)
    ensures errored == CountFailed(results) && names == FailedNames(results)
  {
    errored, names := 0, {};
    for n := 0 to |results|
      invariant errored == CountFailed(results[..n]) && names == FailedNames(results[..n])
    {
      assert results[..n + 1] == results[..n] + [results[n]];
      if results[n].failed {
        errored := errored + 1;
        names := names + {results[n].name};
      }
    }
    assert results[..|results|] == results;
  }

  /** What remains after the subtraction is what could not run. */
  lemma {:induction false} CouldNotRunAreUnskipped(insights: seq<Insight>)
    ensures Count(insights, IsUnverified) == Count(insights, IsSkipped) + Count(insights, CouldNotRun)
    decreases |insights|
  {
    if insights != [] {
      CouldNotRunAreUnskipped(insights[..|insights| - 1]);
    }
  }

  /** All that an unprivileged run reports is that it could not read some root-only sources. */
  ghost predicate OnlyNeedsRoot(insights: seq<Insight>) {
    (exists ins :: ins in insights && ins.unverified && ins.needsRoot) && forall ins :: ins in insights ==> !Floors(ins)
  }

  /**
   The recorded code and the verdict's code are documented to be kept in lockstep. They are the same
   exactly when the run did more than miss root-only sources; then one is 1 and the other 0.
   */
  lemma CodesAgreeIff(insights: seq<Insight>)
    ensures WorstCode(insights) == VerdictCode(0, insights) <==> !OnlyNeedsRoot(insights)
    ensures OnlyNeedsRoot(insights) ==> WorstCode(insights) == 1 && VerdictCode(0, insights) == 0
  {
    WorstCodeIsMaximum(insights);
    assert forall ins :: ins in insights && Floors(ins) ==> CodeOf(ins) >= 1;
    assert forall ins :: ins in insights && ins.level == "CRIT" ==> CodeOf(ins) == 2;
    assert forall ins :: CodeOf(ins) >= 1 ==> Floors(ins) || (ins.unverified && ins.needsRoot);
    assert forall ins :: ins in insights && ins.unverified && ins.needsRoot ==> CodeOf(ins) >= 1;
  }

  lemma CodesDisagreeWithoutRoot() returns (insights: seq<Insight>)
    ensures WorstCode(insights) != VerdictCode(0, insights)
  {
    insights := [Insight("INFO", "Auditd", "audit log not readable", [], true, true, "needs_root")];
    assert insights[0] in insights;
    CodesAgreeIff(insights);
  }
}
