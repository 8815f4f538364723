/**
 What "confirmed not" confirms. A rule that rules a signal out asks for an index entry below a level; an insight that
 says that the signal could not be read makes one.
 */
module UnreadSignals {
  import opened Correlate
  import opened Heuristics
  import opened Insights
  import opened Sequences
  import opened Text
  import opened Wrappers

  /** Some insight filed under the key rests on a reading. */
  ghost predicate Measured(l: seq<Insight>, key: string) {
    exists i :: 0 <= i < |l| && FiledUnder(l[i], ToLower(key)) && !l[i].unverified
  }

  /** There are insights filed under the key, and all of them say that it could not be read. */
  ghost predicate Unread(l: seq<Insight>, key: string) {
    Has(l, key, 0) && !Measured(l, key)
  }

  /** confirmedNot holds of a signal that was not read exactly when all that is filed under it is unverified. */
  lemma {:induction false} ConfirmedUnreadIff(l: seq<Insight>, key: string, level: string)
    requires level == "WARN" || level == "CRIT"
    ensures ConfirmedNot(IndexOf(l), key, level) && !Measured(l, key) <==>
      Unread(l, key) && Reported(l)(key) != Rank(level)
  {
    SignalTests(IndexOf(l), key);
    ReportedIsMaximum(l, key);
    assert Reported(l)(key) == SeverityIn(IndexOf(l), key);
    assert Reported(l)(key) >= 0 <==> Has(l, key, 0);
  }

  // ----- rules that rest on it

  /** The rule fires, and a signal that it rules out was not read. */
  ghost predicate RestsOnUnread(rule: Rule, l: seq<Insight>) {
    Fires(rule, l) && exists k :: 0 <= k < |ConfirmedLow(rule)| && !Measured(l, ConfirmedLow(rule)[k].0)
  }

  /** What the rules that rule something out need besides. */
  predicate Positive(rule: Rule, sev: Severities) {
    match rule
    case RHardOOM => sev("Memory") == 3 && sev("Logs") == 3
    case RRunQueue => sev("CPU Load/RunQueue") >= 2
    case RContainerOOM => sev("Docker") == 3 && sev("Cgroup") == 3
    case RDNSResolver => sev("DNS") == 3
    case _ => false
  }

  /** Nothing that is filed under the signals that the rule rules out reaches the excluded level. */
  predicate Below(rule: Rule, sev: Severities) {
    forall k :: 0 <= k < |ConfirmedLow(rule)| ==> sev(ConfirmedLow(rule)[k].0) < ConfirmedLow(rule)[k].1
  }

  lemma WarrantedSplits(rule: Rule, sev: Severities)
    requires ConfirmedLow(rule) != []
    ensures Warranted(rule, sev) <==>
      && Positive(rule, sev) && Below(rule, sev)
      && forall k :: 0 <= k < |ConfirmedLow(rule)| ==> sev(ConfirmedLow(rule)[k].0) >= 0
  {
    match rule
    case RHardOOM => assert ConfirmedLow(rule)[0] == ("Swap", 3);
    case RRunQueue =>
      assert ConfirmedLow(rule)[0] == ("CPU Load/IOWait", 2) && ConfirmedLow(rule)[1] == ("CPU Load/Steal", 2);
    case RContainerOOM => assert ConfirmedLow(rule)[0] == ("Memory", 3);
    case RDNSResolver => assert ConfirmedLow(rule)[0] == ("Network", 3);
  }

  /** Something is filed under each signal that the rule rules out. */
  ghost predicate AllFiled(rule: Rule, l: seq<Insight>) {
    forall k :: 0 <= k < |ConfirmedLow(rule)| ==> Has(l, ConfirmedLow(rule)[k].0, 0)
  }

  lemma {:induction false} FiresSplits(rule: Rule, l: seq<Insight>)
    requires ConfirmedLow(rule) != []
    ensures Fires(rule, l) <==> Positive(rule, Reported(l)) && Below(rule, Reported(l)) && AllFiled(rule, l)
  {
    FiresIffWarranted(rule, l);
    WarrantedSplits(rule, Reported(l));
    forall k | 0 <= k < |ConfirmedLow(rule)|
      ensures Reported(l)(ConfirmedLow(rule)[k].0) >= 0 <==> Has(l, ConfirmedLow(rule)[k].0, 0)
    {
      ReportedIsMaximum(l, ConfirmedLow(rule)[k].0);
    }
  }

  /**
   A rule rests on a signal that was not read exactly when its positive conjuncts hold, something is filed under each
   signal that it rules out, none of it at the excluded level, and under one of them only that it could not be read.
   */
  lemma {:induction false} RestsOnUnreadIff(rule: Rule, l: seq<Insight>)
    ensures RestsOnUnread(rule, l) <==>
      && Positive(rule, Reported(l)) && Below(rule, Reported(l)) && AllFiled(rule, l)
      && exists k :: 0 <= k < |ConfirmedLow(rule)| && Unread(l, ConfirmedLow(rule)[k].0)
  {
    if ConfirmedLow(rule) != [] {
      FiresSplits(rule, l);
    }
  }

  /** So "confirmed not" means what it says in every rule that fires where each signal filed at all was read. */
  lemma {:induction false} ReadSignalsAreConfirmed(rule: Rule, l: seq<Insight>)
    requires Fires(rule, l) && forall k :: 0 <= k < |ConfirmedLow(rule)| ==> !Unread(l, ConfirmedLow(rule)[k].0)
    ensures forall k :: 0 <= k < |ConfirmedLow(rule)| ==> Measured(l, ConfirmedLow(rule)[k].0)
  {
    if ConfirmedLow(rule) != [] {
      FiresSplits(rule, l);
    }
  }

  // ----- hard OOM without a reading of swap

  predicate OOMReport(m: Insight, o: Insight, s: Insight) {
    && m.check == "Memory" && m.level == "CRIT" && o.check == "Logs" && o.level == "CRIT"
    && s.check == "Swap" && s.level == "INFO" && s.unverified
  }

  lemma {:induction false} UnreadSwapDiagnosed(m: Insight, o: Insight, s: Insight)
    requires OOMReport(m, o, s)
    ensures RestsOnUnread(RHardOOM, [m, o, s]) && Unread([m, o, s], "Swap")
  {
    var l := [m, o, s];
    SwapReported(m, o, s);
    CriticalReported(l, 0, "Memory");
    CriticalReported(l, 1, "Logs");
    HardOOMRests(l);
  }

  lemma {:induction false} HardOOMRests(l: seq<Insight>)
    requires Reported(l)("Memory") == 3 && Reported(l)("Logs") == 3 && 0 <= Reported(l)("Swap") < 3 && Unread(l, "Swap")
    ensures RestsOnUnread(RHardOOM, l)
  {
    FiresIffWarranted(RHardOOM, l);
    assert ConfirmedLow(RHardOOM)[0].0 == "Swap";
  }

  lemma {:induction false} CriticalReported(l: seq<Insight>, i: nat, key: string)
    requires i < |l| && l[i].check == key && l[i].level == "CRIT"
    ensures Reported(l)(key) == 3
  {
    assert FiledUnder(l[i], ToLower(key));
    assert Has(l, key, 3);
    ReportedIsMaximum(l, key);
    assert Reported(l)(key) >= 3;
  }

  lemma {:induction false} SwapReported(m: Insight, o: Insight, s: Insight)
    requires OOMReport(m, o, s)
    ensures Unread([m, o, s], "Swap") && 0 <= Reported([m, o, s])("Swap") < 3
  {
    var l := [m, o, s];
    OnlySwapIsFiledUnderSwap(m, o, s);
    assert FiledUnder(l[2], ToLower("Swap"));
    assert Has(l, "Swap", 0) && !Has(l, "Swap", 3) && !Measured(l, "Swap");
    ReportedIsMaximum(l, "Swap");
    assert Reported(l)("Swap") >= 0 && !(Reported(l)("Swap") >= 3);
  }

  lemma OnlySwapIsFiledUnderSwap(m: Insight, o: Insight, s: Insight)
    requires OOMReport(m, o, s)
    ensures !FiledUnder(m, ToLower("Swap")) && !FiledUnder(o, ToLower("Swap")) && FiledUnder(s, ToLower("Swap"))
  {
    SlashIndex(ToLower(m.check));
    SlashIndex(ToLower(o.check));
    assert ToLower(m.check)[0] == 'm' && ToLower(o.check)[0] == 'l' && ToLower("Swap")[0] == 's';
    assert '/' !in ToLower(m.check) && '/' !in ToLower(o.check);
  }

  /** The insight of a swap collector that could not read /proc/swaps, beside two critical ones. */
  lemma UnreadSwapIsNotConfirmed() returns (l: seq<Insight>)
    ensures |l| == 3 && l[2] == Insight("INFO", "Swap", "swap occupancy not measured", [], true, false, "unreadable")
    ensures Fires(RHardOOM, l) && ConfirmedNot(IndexOf(l), "Swap", "CRIT") && !Measured(l, "Swap")
  {
    var m := Insight("CRIT", "Memory", "99% used", [], false, false, "");
    var o := Insight("CRIT", "Logs", "OOM killer", [], false, false, "");
    var s := Insight("INFO", "Swap", "swap occupancy not measured", [], true, false, "unreadable");
    l := [m, o, s];
    UnreadSwapDiagnosed(m, o, s);
    SwapReported(m, o, s);
    ConfirmedUnreadIff(l, "Swap", "CRIT");
  }

  // ----- the same through the whole pass, after a collector failed

  /** A check that finds memory and logs critical. */
  function TwoCriticals(): Check {
    (payload: Payload, thresh: Thresholds) =>
      match payload
      case Other(kind, _) => [Insight("CRIT", kind, "", [], false, false, "")]
      case _ => []
  }

  function SwapFails(): seq<CheckResult> {
    [CheckResult("Memory", ByValue(Other("Memory", 0)), None, false),
     CheckResult("Logs", ByValue(Other("Logs", 0)), None, false),
     CheckResult("Swap", NoData, Some(Failure(COLLECTOR_ERROR, "timed out")), false)]
  }

  /** Whatever the thresholds and the host: the swap collector fails, and "Hard OOM Event" is diagnosed. */
  lemma {:induction false} FailedSwapCollectorDiagnosed(thresh: Thresholds, rewrite: HintRewrite)
    ensures RestsOnUnread(RHardOOM, Analyzed(SwapFails(), thresh, TwoCriticals(), rewrite))
  {
    var results := SwapFails();
    var p, thresh' := Prescanned(results), PrescannedThresholds(results, thresh);
    var m, o := Insight("CRIT", "Memory", "", [], false, false, ""), Insight("CRIT", "Logs", "", [], false, false, "");
    var s := ErrorInsight(results[2]);
    var f := InsightsFrom(p, thresh', TwoCriticals());
    FlatOfThree(results[0], results[1], results[2], f);
    assert f(results[0]) == [m] && f(results[1]) == [o] && f(results[2]) == [s];
    assert Flat(results, f) == [m, o, s];
    NoDenials(m, o, s);
    FlatOfThree(m, o, s, Adapting(rewrite));
    assert Flat([m, o, s], Adapting(rewrite)) == [m, o, s];
    UnreadSwapDiagnosed(m, o, s);
  }

  lemma FlatOfThree<A, B>(x: A, y: A, z: A, f: A -> seq<B>)
    ensures Flat([x, y, z], f) == f(x) + f(y) + f(z)
  {
    assert [x, y, z][..2] == [x, y] && [x, y][..1] == [x];
    FlatOne(x, f);
  }

  lemma NoDenials(m: Insight, o: Insight, s: Insight)
    requires m.check == "Memory" && o.check == "Logs" && s.check == "Swap"
    ensures Deduped([m, o, s]) == [m, o, s]
  {
    assert "Memory"[0] == 'M' && "Logs"[0] == 'L' && "Swap"[0] == 'S' && "KernelSec"[0] == 'K';
  }
}
