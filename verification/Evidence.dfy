/**
 What a diagnosis of `Correlate` cites: the checks it lists, and the level it is given.

 - Backed: the listed checks are reported at WARN or above, or are an active GPU, and a critical diagnosis has a
   critical check among them, except from two rules that escalate.
 - The rules are taken in groups that read the same signals; RuleBacked puts them together.
 - EvidenceIsReported and CriticalRestsOnCritical say this of the insights instead of the index.
 - StealEscalates: one of the two exceptions, on an insight list.
 - DiagnosesAreTheFired: the list of diagnoses holds what the rules give.
 */
module Evidence {
  import opened Correlate
  import opened Insights
  import opened Wrappers

  /** Two rules abbreviate the names of the checks they list. */
  function KeyOf(name: string): string {
    if name == "CPU" then "CPU Load"
    else if name == "Thermal" then "CPU Thermal"
    else name
  }

  /** The listed check is reported at WARN or above, a GPU at any level. */
  ghost predicate Supported(idx: LevelIndex, name: string) {
    SeverityIn(idx, KeyOf(name)) >= if name == "GPU" then 1 else 2
  }

  ghost predicate AllSupported(idx: LevelIndex, names: seq<string>) {
    forall k :: 0 <= k < |names| ==> Supported(idx, names[k])
  }

  lemma {:induction false} ChecksSupported(idx: LevelIndex, first: seq<string>, more: seq<(bool, string)>)
    requires AllSupported(idx, first)
    requires forall k :: 0 <= k < |more| && more[k].0 ==> Supported(idx, more[k].1)
    ensures AllSupported(idx, Checks(first, more)) && first <= Checks(first, more)
    decreases |more|
  {
    if more != [] {
      ChecksSupported(idx, first, more[..|more| - 1]);
    }
  }

  /** One of the listed checks is critical. */
  ghost predicate HasCritical(idx: LevelIndex, names: seq<string>) {
    exists k :: 0 <= k < |names| && SeverityIn(idx, KeyOf(names[k])) == 3
  }

  /** The rules that turn two warnings into a critical diagnosis. */
  predicate Escalates(rule: Rule) {
    rule == RSteal || rule == REntropyTLS
  }

  ghost predicate Backed(rule: Rule, idx: LevelIndex, c: Correlation) {
    && c.checks != [] && AllSupported(idx, c.checks)
    && (c.level == "CRIT" || c.level == "WARN")
    && (c.level == "CRIT" && !Escalates(rule) ==> HasCritical(idx, c.checks))
  }

  lemma SingleSupported(idx: LevelIndex, name: string)
    ensures AtLeast(idx, KeyOf(name), "WARN") ==> Supported(idx, name)
    ensures Exact(idx, KeyOf(name), "CRIT") ==> Supported(idx, name) && SeverityIn(idx, KeyOf(name)) == 3
  {
    SignalTests(idx, KeyOf(name));
  }

  lemma MemoryRulesBacked(rule: Rule, idx: LevelIndex)
    requires rule in {RMemoryCascade, RHardOOM, RIOUnderMemory}
    ensures Apply(rule, idx).Some? ==> Backed(rule, idx, Apply(rule, idx).value)
  {
    SingleSupported(idx, "Memory");
    SingleSupported(idx, "Swap");
    SingleSupported(idx, "Processes");
    SingleSupported(idx, "Logs");
    SingleSupported(idx, "IO");
    if Apply(rule, idx).Some? {
      var checks := Apply(rule, idx).value.checks;
      match rule
      case RMemoryCascade =>
        ChecksSupported(idx, ["Memory", "Swap"],
          [(Exact(idx, "Processes", "CRIT"), "Processes"), (Exact(idx, "Logs", "CRIT"), "Logs")]);
        assert checks[1] == "Swap";
      case RHardOOM => assert checks[0] == "Memory" && checks[1] == "Logs";
      case RIOUnderMemory => assert checks[0] == "IO" && checks[1] == "Memory" && checks[2] == "Swap";
    }
  }

  lemma LoadRulesBacked(rule: Rule, idx: LevelIndex)
    requires rule in {RIODriven, RSteal, RRunQueue, RThermal}
    ensures Apply(rule, idx).Some? ==> Backed(rule, idx, Apply(rule, idx).value)
  {
    SingleSupported(idx, "CPU Load");
    SingleSupported(idx, "CPU Load/IOWait");
    SingleSupported(idx, "CPU Load/Steal");
    SingleSupported(idx, "CPU Load/RunQueue");
    SingleSupported(idx, "CPU Thermal");
    if Apply(rule, idx).Some? {
      var checks := Apply(rule, idx).value.checks;
      match rule
      case RIODriven => assert checks == ["CPU Load", "CPU Load/IOWait"];
      case RSteal => assert checks == ["CPU Load", "CPU Load/Steal"];
      case RRunQueue => assert checks == ["CPU Load/RunQueue"];
      case RThermal => assert checks[0] == "CPU Thermal" && checks[1] == "CPU Load";
    }
  }

  lemma NetworkRulesBacked(rule: Rule, idx: LevelIndex)
    requires rule in {RNetworkDegraded, RGPULoad, RDNSResolver}
    ensures Apply(rule, idx).Some? ==> Backed(rule, idx, Apply(rule, idx).value)
  {
    SingleSupported(idx, "Network");
    SingleSupported(idx, "CPU");
    SingleSupported(idx, "Swap");
    SingleSupported(idx, "Memory");
    SingleSupported(idx, "Thermal");
    SingleSupported(idx, "DNS");
    SignalTests(idx, "GPU");
    if Apply(rule, idx).Some? {
      match rule
      case RNetworkDegraded =>
        ChecksSupported(idx, ["Network"],
          [(AtLeast(idx, "CPU Load", "WARN"), "CPU"), (Exact(idx, "Swap", "CRIT"), "Swap"),
            (Exact(idx, "Memory", "CRIT"), "Memory")]);
      case RGPULoad =>
        ChecksSupported(idx, ["GPU"],
          [(AtLeast(idx, "CPU Thermal", "WARN"), "Thermal"), (AtLeast(idx, "Memory", "WARN"), "Memory")]);
      case RDNSResolver =>
    }
  }

  lemma ServiceRulesBacked(rule: Rule, idx: LevelIndex)
    requires rule in {RDBus, REntropyTLS, RNFSHang, RContainerOOM}
    ensures Apply(rule, idx).Some? ==> Backed(rule, idx, Apply(rule, idx).value)
  {
    SingleSupported(idx, "DBus");
    SingleSupported(idx, "Systemd");
    SingleSupported(idx, "Entropy");
    SingleSupported(idx, "TLS");
    SingleSupported(idx, "NFS");
    SingleSupported(idx, "Processes");
    SingleSupported(idx, "Docker");
    SingleSupported(idx, "Cgroup");
    SignalTests(idx, "Systemd");
    if Apply(rule, idx).Some? {
      var checks := Apply(rule, idx).value.checks;
      match rule
      case RDBus => assert checks[0] == "DBus" && checks[1] == "Systemd";
      case REntropyTLS => assert checks[0] == "Entropy" && checks[1] == "TLS";
      case RNFSHang => assert checks[0] == "NFS" && checks[1] == "Processes";
      case RContainerOOM => assert checks[0] == "Docker" && checks[1] == "Cgroup";
    }
  }

  lemma CascadeRulesBacked(rule: Rule, idx: LevelIndex)
    requires rule in {RDiskFull, RClockSkew}
    ensures Apply(rule, idx).Some? ==> Backed(rule, idx, Apply(rule, idx).value)
  {
    SingleSupported(idx, "Disk");
    SingleSupported(idx, "Systemd");
    SingleSupported(idx, "Logs");
    SingleSupported(idx, "Clock");
    SingleSupported(idx, "TLS");
    SingleSupported(idx, "Auth");
    if Apply(rule, idx).Some? {
      var checks := Apply(rule, idx).value.checks;
      match rule
      case RDiskFull =>
        ChecksSupported(idx, ["Disk"],
          [(Exact(idx, "Systemd", "CRIT"), "Systemd"), (Exact(idx, "Logs", "CRIT"), "Logs")]);
        assert checks[0] == "Disk";
      case RClockSkew =>
        ChecksSupported(idx, ["Clock"], [(Exact(idx, "TLS", "CRIT"), "TLS"), (AtLeast(idx, "Auth", "WARN"), "Auth")]);
        assert checks[0] == "Clock";
    }
  }

  lemma RuleBacked(rule: Rule, idx: LevelIndex)
    ensures Apply(rule, idx).Some? ==> Backed(rule, idx, Apply(rule, idx).value)
  {
    match rule
    case RMemoryCascade | RHardOOM | RIOUnderMemory => MemoryRulesBacked(rule, idx);
    case RIODriven | RSteal | RRunQueue | RThermal => LoadRulesBacked(rule, idx);
    case RNetworkDegraded | RGPULoad | RDNSResolver => NetworkRulesBacked(rule, idx);
    case RDBus | REntropyTLS | RNFSHang | RContainerOOM => ServiceRulesBacked(rule, idx);
    case RDiskFull | RClockSkew => CascadeRulesBacked(rule, idx);
  }

  // ----- what this says about the insights

  /** The list of diagnoses holds what the sixteen rules give and nothing else. */
  lemma {:induction false} DiagnosesAreTheFired(idx: LevelIndex, c: Correlation)
    ensures c in Diagnoses(idx) <==> exists rule :: Apply(rule, idx) == Some(c)
  {
    var f := (rule: Rule) => Apply(rule, idx);
    assert Diagnoses(idx) == AllFired(f);
    AllFiredMembers(f, c);
    if c in AllFired(f) {
      var rule :| f(rule) == Some(c);
      assert Apply(rule, idx) == Some(c);
    }
    if rule :| Apply(rule, idx) == Some(c) {
      assert f(rule) == Some(c);
    }
  }

  lemma AllFiredMembers(f: Rule -> Option<Correlation>, c: Correlation)
    ensures c in AllFired(f) <==> exists rule :: f(rule) == Some(c)
  {
    if rule :| f(rule) == Some(c) {
      assert c in Fired(f(rule));
      match rule
      case RMemoryCascade => case RHardOOM => case RIOUnderMemory => case RNetworkDegraded =>
      case RGPULoad => case RIODriven => case RSteal => case RRunQueue =>
      case RDBus => case REntropyTLS => case RDiskFull => case RNFSHang =>
      case RClockSkew => case RContainerOOM => case RThermal => case RDNSResolver =>
    }
    assert forall rule :: c in Fired(f(rule)) ==> f(rule) == Some(c);
  }

  /** Every check that a diagnosis lists is reported by an insight, at WARN or above, or is an active GPU. */
  lemma {:induction false} EvidenceIsReported(rule: Rule, l: seq<Insight>, k: nat)
    requires Fires(rule, l) && k < |Apply(rule, IndexOf(l)).value.checks|
    ensures var name := Apply(rule, IndexOf(l)).value.checks[k]; Has(l, KeyOf(name), if name == "GPU" then 1 else 2)
  {
    var name := Apply(rule, IndexOf(l)).value.checks[k];
    RuleBacked(rule, IndexOf(l));
    assert Supported(IndexOf(l), name);
    ReportedAtLeast(l, KeyOf(name), if name == "GPU" then 1 else 2);
  }

  lemma {:induction false} ReportedAtLeast(l: seq<Insight>, key: string, rank: nat)
    requires SeverityIn(IndexOf(l), key) >= rank
    ensures Has(l, key, rank)
  {
    ReportedIsMaximum(l, key);
    assert Reported(l)(key) >= rank;
  }

  /** A critical diagnosis rests on a critical insight under one of the checks it lists, except from two rules. */
  lemma {:induction false} CriticalRestsOnCritical(rule: Rule, l: seq<Insight>)
    requires Fires(rule, l) && Apply(rule, IndexOf(l)).value.level == "CRIT" && !Escalates(rule)
    ensures var names := Apply(rule, IndexOf(l)).value.checks;
      exists k :: 0 <= k < |names| && Has(l, KeyOf(names[k]), 3)
  {
    var names := Apply(rule, IndexOf(l)).value.checks;
    RuleBacked(rule, IndexOf(l));
    assert HasCritical(IndexOf(l), names);
    var k :| 0 <= k < |names| && SeverityIn(IndexOf(l), KeyOf(names[k])) == 3;
    ReportedAtLeast(l, KeyOf(names[k]), 3);
  }

  /** The steal rule does escalate: a single warning gives a critical diagnosis. */
  lemma StealEscalates() returns (l: seq<Insight>)
    ensures |l| == 1 && l[0].level == "WARN"
    ensures Fires(RSteal, l) && Apply(RSteal, IndexOf(l)).value.level == "CRIT"
  {
    var ins := Insight("WARN", "CPU Load/Steal", "", [], false, false, "");
    l := [ins];
    StealReported(ins);
    StealFires(l);
  }

  lemma {:induction false} StealFires(l: seq<Insight>)
    requires Reported(l)("CPU Load/Steal") >= 2
    ensures Fires(RSteal, l) && Apply(RSteal, IndexOf(l)).value.level == "CRIT"
  {
    FiresIffWarranted(RSteal, l);
  }

  lemma StealReported(ins: Insight)
    requires ins.level == "WARN" && ins.check == "CPU Load/Steal"
    ensures Reported([ins])("CPU Load/Steal") >= 2
  {
    OtherSubCheck();
    SingleReading(ins, "CPU Load/Steal", "CPU Load/IOWait");
  }
}
