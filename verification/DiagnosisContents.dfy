/** What a diagnosis says: name, level and listed checks of each rule, in terms of what the insights report. */
module DiagnosisContents {
  import opened Correlate
  import opened Insights
  import opened Text
  import opened Wrappers

  /** The check is this one in any case, or a sub-check of it: its name up to the first slash. */
  ghost predicate Concerns(check: string, key: string) {
    || ToLower(check) == ToLower(key)
    || (exists n: nat :: FirstSlash(check, n) && ToLower(check[..n]) == ToLower(key))
  }

  predicate FirstSlash(check: string, n: nat) {
    0 < n < |check| && check[n] == '/' && '/' !in check[..n]
  }

  /** Which insights a severity is reported from. */
  lemma {:induction false} FiledUnderIff(ins: Insight, key: string)
    ensures FiledUnder(ins, ToLower(key)) <==> Concerns(ins.check, key)
  {
    var check, lower := ins.check, ToLower(ins.check);
    SlashIndex(lower);
    forall n: nat | n <= |check| ensures ToLower(check[..n]) == lower[..n] {
    }
    assert forall k :: 0 <= k < |check| ==> (lower[k] == '/' <==> check[k] == '/');
    if n: nat :| FirstSlash(check, n) && ToLower(check[..n]) == ToLower(key) {
      assert forall k :: 0 <= k < n ==> check[..n][k] == check[k];
      assert lower[n] == '/';
      assert Index(lower, "/") == Some(n);
    }
    if Index(lower, "/").Some? && Index(lower, "/").value > 0 {
      assert FirstSlash(check, Index(lower, "/").value);
    }
  }

  /** The place of a rule in the order in which the rules are tried. */
  function Place(rule: Rule): nat {
    match rule
    case RMemoryCascade => 0 case RHardOOM => 1 case RIOUnderMemory => 2 case RNetworkDegraded => 3
    case RGPULoad => 4 case RIODriven => 5 case RSteal => 6 case RRunQueue => 7
    case RDBus => 8 case REntropyTLS => 9 case RDiskFull => 10 case RNFSHang => 11
    case RClockSkew => 12 case RContainerOOM => 13 case RThermal => 14 case RDNSResolver => 15
  }

  function When(listed: bool, name: string): seq<string> {
    if listed then [name] else []
  }

  /** The diagnosis of a rule that fires, on severities alone: 3 is CRIT, 2 and above WARN. */
  predicate Says(rule: Rule, sev: Severities, c: Correlation) {
    match rule
    case RMemoryCascade => c == Correlation("Memory Pressure Cascade", "CRIT",
      ["Memory", "Swap"] + When(sev("Processes") == 3, "Processes") + When(sev("Logs") == 3, "Logs"))
    case RHardOOM => c == Correlation("Hard OOM Event", "CRIT", ["Memory", "Logs"])
    case RIOUnderMemory => c == Correlation("IO Stall Under Memory Pressure", "CRIT", ["IO", "Memory", "Swap"])
    case RNetworkDegraded => c == Correlation("Network Degraded Under System Load", "WARN",
      ["Network"] + When(sev("CPU Load") >= 2, "CPU") + When(sev("Swap") == 3, "Swap")
      + When(sev("Memory") == 3, "Memory"))
    case RGPULoad => c == Correlation("GPU Sustained Compute Load", "WARN",
      ["GPU"] + When(sev("CPU Thermal") >= 2, "Thermal") + When(sev("Memory") >= 2, "Memory"))
    case RIODriven => c == Correlation("IO-Driven Load Saturation", "WARN", ["CPU Load", "CPU Load/IOWait"])
    case RSteal => c == Correlation("CPU Steal Under Load", "CRIT", ["CPU Load", "CPU Load/Steal"])
    case RRunQueue => c == Correlation("CPU-Bound Run Queue Saturation", "WARN", ["CPU Load/RunQueue"])
    case RDBus => c == Correlation("D-Bus Cascade Failure", "CRIT", ["DBus", "Systemd"])
    case REntropyTLS => c == Correlation("Entropy Starvation with TLS Active", "CRIT", ["Entropy", "TLS"])
    case RDiskFull => c == Correlation("Disk-Full Service Failure", "CRIT",
      ["Disk"] + When(sev("Systemd") == 3, "Systemd") + When(sev("Logs") == 3, "Logs"))
    case RNFSHang => c == Correlation("NFS Stall Process Hang", "CRIT", ["NFS", "Processes"])
    case RClockSkew => c == Correlation("Clock Skew Breaking TLS/Auth", "CRIT",
      ["Clock"] + When(sev("TLS") == 3, "TLS") + When(sev("Auth") >= 2, "Auth"))
    case RContainerOOM => c == Correlation("Container Memory-Limit OOM", "CRIT", ["Docker", "Cgroup"])
    case RThermal => c == Correlation("Thermal Throttling Under Load",
      if sev("CPU Thermal") == 3 then "CRIT" else "WARN", ["CPU Thermal", "CPU Load"])
    case RDNSResolver => c == Correlation("DNS Resolver Failure (network is up)", "WARN", ["DNS"])
  }

  lemma TwoMore(first: seq<string>, a: (bool, string), b: (bool, string))
    ensures Checks(first, [a, b]) == first + When(a.0, a.1) + When(b.0, b.1)
  {
    assert [a, b][..1] == [a] && [a][..0] == [];
    assert Checks(first, [a]) == first + When(a.0, a.1);
  }

  lemma ThreeMore(first: seq<string>, a: (bool, string), b: (bool, string), c: (bool, string))
    ensures Checks(first, [a, b, c]) == first + When(a.0, a.1) + When(b.0, b.1) + When(c.0, c.1)
  {
    TwoMore(first, a, b);
    assert [a, b, c][..2] == [a, b];
  }

  lemma MemoryCascadeSays(idx: LevelIndex, sev: Severities)
    requires forall key :: sev(key) == SeverityIn(idx, key)
    ensures Apply(RMemoryCascade, idx).Some? ==> Says(RMemoryCascade, sev, Apply(RMemoryCascade, idx).value)
  {
    SignalTests(idx, "Processes");
    SignalTests(idx, "Logs");
    TwoMore(["Memory", "Swap"], (Exact(idx, "Processes", "CRIT"), "Processes"), (Exact(idx, "Logs", "CRIT"), "Logs"));
  }

  lemma NetworkDegradedSays(idx: LevelIndex, sev: Severities)
    requires forall key :: sev(key) == SeverityIn(idx, key)
    ensures Apply(RNetworkDegraded, idx).Some? ==> Says(RNetworkDegraded, sev, Apply(RNetworkDegraded, idx).value)
  {
    SignalTests(idx, "CPU Load");
    SignalTests(idx, "Swap");
    SignalTests(idx, "Memory");
    ThreeMore(["Network"], (AtLeast(idx, "CPU Load", "WARN"), "CPU"), (Exact(idx, "Swap", "CRIT"), "Swap"),
      (Exact(idx, "Memory", "CRIT"), "Memory"));
  }

  lemma GPULoadSays(idx: LevelIndex, sev: Severities)
    requires forall key :: sev(key) == SeverityIn(idx, key)
    ensures Apply(RGPULoad, idx).Some? ==> Says(RGPULoad, sev, Apply(RGPULoad, idx).value)
  {
    SignalTests(idx, "CPU Thermal");
    SignalTests(idx, "Memory");
    TwoMore(["GPU"], (AtLeast(idx, "CPU Thermal", "WARN"), "Thermal"), (AtLeast(idx, "Memory", "WARN"), "Memory"));
  }

  lemma DiskFullSays(idx: LevelIndex, sev: Severities)
    requires forall key :: sev(key) == SeverityIn(idx, key)
    ensures Apply(RDiskFull, idx).Some? ==> Says(RDiskFull, sev, Apply(RDiskFull, idx).value)
  {
    SignalTests(idx, "Systemd");
    SignalTests(idx, "Logs");
    TwoMore(["Disk"], (Exact(idx, "Systemd", "CRIT"), "Systemd"), (Exact(idx, "Logs", "CRIT"), "Logs"));
  }

  lemma ClockSkewSays(idx: LevelIndex, sev: Severities)
    requires forall key :: sev(key) == SeverityIn(idx, key)
    ensures Apply(RClockSkew, idx).Some? ==> Says(RClockSkew, sev, Apply(RClockSkew, idx).value)
  {
    SignalTests(idx, "TLS");
    SignalTests(idx, "Auth");
    TwoMore(["Clock"], (Exact(idx, "TLS", "CRIT"), "TLS"), (AtLeast(idx, "Auth", "WARN"), "Auth"));
  }

  lemma PlainRulesSay(rule: Rule, idx: LevelIndex, sev: Severities)
    requires rule in {RHardOOM, RIOUnderMemory, RIODriven, RSteal, RRunQueue, RDBus}
    ensures Apply(rule, idx).Some? ==> Says(rule, sev, Apply(rule, idx).value)
  {
  }

  lemma OtherRulesSay(rule: Rule, idx: LevelIndex, sev: Severities)
    requires rule in {REntropyTLS, RNFSHang, RContainerOOM, RThermal, RDNSResolver}
    requires forall key :: sev(key) == SeverityIn(idx, key)
    ensures Apply(rule, idx).Some? ==> Says(rule, sev, Apply(rule, idx).value)
  {
    SignalTests(idx, "CPU Thermal");
  }

  /** Every rule that fires gives the diagnosis that the reported severities call for. */
  lemma {:induction false} DiagnosisSays(rule: Rule, l: seq<Insight>)
    requires Fires(rule, l)
    ensures Says(rule, Reported(l), Apply(rule, IndexOf(l)).value)
  {
    var idx, sev := IndexOf(l), Reported(l);
    match rule
    case RMemoryCascade => MemoryCascadeSays(idx, sev);
    case RNetworkDegraded => NetworkDegradedSays(idx, sev);
    case RGPULoad => GPULoadSays(idx, sev);
    case RDiskFull => DiskFullSays(idx, sev);
    case RClockSkew => ClockSkewSays(idx, sev);
    case RHardOOM | RIOUnderMemory | RIODriven | RSteal | RRunQueue | RDBus => PlainRulesSay(rule, idx, sev);
    case _ => OtherRulesSay(rule, idx, sev);
  }

  /** The rules `fired`, in order, are those of the first `n` that give a diagnosis, and `out` is what they give. */
  ghost predicate FiredUpTo(f: Rule -> Option<Correlation>, n: nat, fired: seq<Rule>, out: seq<Correlation>) {
    && |fired| == |out|
    && (forall k :: 0 <= k < |fired| ==> f(fired[k]) == Some(out[k]))
    && (forall j, k :: 0 <= j < k < |fired| ==> Place(fired[j]) < Place(fired[k]))
    && (forall rule :: rule in fired <==> Place(rule) < n && f(rule).Some?)
  }

  lemma OnePlace(r1: Rule, r2: Rule)
    requires Place(r1) == Place(r2)
    ensures r1 == r2
  {
  }

  lemma {:induction false} OneMoreRule(f: Rule -> Option<Correlation>, rule: Rule, fired: seq<Rule>,
                                       out: seq<Correlation>)
    returns (fired': seq<Rule>)
    requires FiredUpTo(f, Place(rule), fired, out)
    ensures FiredUpTo(f, Place(rule) + 1, fired', out + Fired(f(rule)))
  {
    fired' := if f(rule).Some? then fired + [rule] else fired;
    forall k | 0 <= k < |fired| ensures Place(fired[k]) < Place(rule) {
      assert fired[k] in fired;
    }
    forall r ensures r in fired' <==> Place(r) < Place(rule) + 1 && f(r).Some? {
      if Place(r) == Place(rule) {
        OnePlace(r, rule);
      }
      assert r in fired' <==> r in fired || (f(rule).Some? && r == rule);
    }
  }

  lemma {:induction false} FourMoreRules(f: Rule -> Option<Correlation>, a: Rule, b: Rule, c: Rule, d: Rule,
                                         fired: seq<Rule>, out: seq<Correlation>)
    returns (fired': seq<Rule>)
    requires FiredUpTo(f, Place(a), fired, out)
    requires Place(b) == Place(a) + 1 && Place(c) == Place(a) + 2 && Place(d) == Place(a) + 3
    ensures FiredUpTo(f, Place(a) + 4, fired', out + Fired(f(a)) + Fired(f(b)) + Fired(f(c)) + Fired(f(d)))
  {
    fired' := OneMoreRule(f, a, fired, out);
    fired' := OneMoreRule(f, b, fired', out + Fired(f(a)));
    fired' := OneMoreRule(f, c, fired', out + Fired(f(a)) + Fired(f(b)));
    fired' := OneMoreRule(f, d, fired', out + Fired(f(a)) + Fired(f(b)) + Fired(f(c)));
  }

  lemma {:induction false} AllFiredInOrder(f: Rule -> Option<Correlation>) returns (fired: seq<Rule>)
    ensures FiredUpTo(f, 16, fired, AllFired(f))
  {
    var out: seq<Correlation> := [];
    fired := [];
    fired := FourMoreRules(f, RMemoryCascade, RHardOOM, RIOUnderMemory, RNetworkDegraded, fired, out);
    out := out + Fired(f(RMemoryCascade)) + Fired(f(RHardOOM)) + Fired(f(RIOUnderMemory)) + Fired(f(RNetworkDegraded));
    fired := FourMoreRules(f, RGPULoad, RIODriven, RSteal, RRunQueue, fired, out);
    out := out + Fired(f(RGPULoad)) + Fired(f(RIODriven)) + Fired(f(RSteal)) + Fired(f(RRunQueue));
    fired := FourMoreRules(f, RDBus, REntropyTLS, RDiskFull, RNFSHang, fired, out);
    out := out + Fired(f(RDBus)) + Fired(f(REntropyTLS)) + Fired(f(RDiskFull)) + Fired(f(RNFSHang));
    fired := FourMoreRules(f, RClockSkew, RContainerOOM, RThermal, RDNSResolver, fired, out);
  }

  lemma {:induction false} GivenSays(rule: Rule, l: seq<Insight>, given: Option<Correlation>)
    requires given == Apply(rule, IndexOf(l))
    ensures given.Some? ==> Says(rule, Reported(l), given.value)
    ensures given.Some? <==> Warranted(rule, Reported(l))
    ensures Place(rule) < 16
  {
    FiresIffWarranted(rule, l);
    if given.Some? {
      DiagnosisSays(rule, l);
    }
  }

  ghost predicate AllSay(l: seq<Insight>, fired: seq<Rule>, out: seq<Correlation>) {
    |fired| == |out| && forall k :: 0 <= k < |out| ==> Says(fired[k], Reported(l), out[k])
  }

  lemma {:induction false} FiredSay(l: seq<Insight>, f: Rule -> Option<Correlation>, fired: seq<Rule>,
                                    out: seq<Correlation>)
    requires FiredUpTo(f, 16, fired, out) && forall rule :: f(rule) == Apply(rule, IndexOf(l))
    ensures AllSay(l, fired, out)
  {
    forall k | 0 <= k < |out| ensures Says(fired[k], Reported(l), out[k]) {
      GivenSays(fired[k], l, f(fired[k]));
    }
  }

  lemma {:induction false} FiredAreWarranted(l: seq<Insight>, f: Rule -> Option<Correlation>, fired: seq<Rule>,
                                             out: seq<Correlation>)
    requires FiredUpTo(f, 16, fired, out) && forall rule :: f(rule) == Apply(rule, IndexOf(l))
    ensures forall rule :: rule in fired <==> Warranted(rule, Reported(l))
  {
    forall rule ensures rule in fired <==> Warranted(rule, Reported(l)) {
      GivenSays(rule, l, f(rule));
    }
  }

  /**
   The whole list: for every insight list, one diagnosis for each rule whose condition the reported severities meet,
   in the order of the rules, each with the name, level and checks that they call for.
   */
  lemma {:induction false} DiagnosesMeaning(l: seq<Insight>) returns (fired: seq<Rule>)
    ensures var out := Diagnoses(IndexOf(l));
      && AllSay(l, fired, out)
      && (forall rule :: rule in fired <==> Warranted(rule, Reported(l)))
      && (forall j, k :: 0 <= j < k < |fired| ==> Place(fired[j]) < Place(fired[k]))
  {
    var idx := IndexOf(l);
    var f := (rule: Rule) => Apply(rule, idx);
    fired := AllFiredInOrder(f);
    assert Diagnoses(idx) == AllFired(f);
    FiredSay(l, f, fired, AllFired(f));
    FiredAreWarranted(l, f, fired, AllFired(f));
  }
}
