/** internal/analysis/correlate.go: the index of worst levels and the sixteen rules, characterised without the index. */
module Correlate {
  import opened Insights
  import opened Text
  import opened Wrappers

  datatype IndexEntry = IndexEntry(level: string, message: string)

  type LevelIndex = map<string, IndexEntry>

  /** The wording of a diagnosis (Summary and Action) is not modelled. */
  datatype Correlation = Correlation(name: string, level: string, checks: seq<string>)

  // ----- the index

  function IndexKeys(check: string): seq<string> {
    var lower := ToLower(check);
    match Index(lower, "/")
    case Some(i) => if i > 0 then [lower, lower[..i]] else [lower]
    case None => [lower]
  }

  function Entered(idx: LevelIndex, key: string, ins: Insight): LevelIndex {
    if key !in idx || Rank(ins.level) > Rank(idx[key].level)
    then idx[key := IndexEntry(ins.level, ins.message)]
    else idx
  }

  function EnteredAll(idx: LevelIndex, keys: seq<string>, ins: Insight): LevelIndex {
    if keys == [] then idx else Entered(EnteredAll(idx, keys[..|keys| - 1], ins), keys[|keys| - 1], ins)
  }

  function IndexOf(insights: seq<Insight>): LevelIndex {
    if insights == [] then map[]
    else
      var last := insights[|insights| - 1];
      EnteredAll(IndexOf(insights[..|insights| - 1]), IndexKeys(last.check), last)
  }

  method BuildIndex(insights: seq<Insight>) returns (idx: LevelIndex)
    ensures idx == IndexOf(insights)
  {
    idx := map[];
    for n := 0 to |insights|
      invariant idx == IndexOf(insights[..n])
    {
      var ins := insights[n];
      var keys := IndexKeys(ins.check);
      ghost var before := idx;
      for k := 0 to |keys|
        invariant idx == EnteredAll(before, keys[..k], ins)
      {
        assert keys[..k + 1][..k] == keys[..k];
        if keys[k] !in idx || Rank(ins.level) > Rank(idx[keys[k]].level) {
          idx := idx[keys[k] := IndexEntry(ins.level, ins.message)];
        }
      }
      assert keys[..|keys|] == keys;
      assert insights[..n + 1][..n] == insights[..n];
    }
    assert insights[..|insights|] == insights;
  }

  predicate FiledUnder(ins: Insight, key: string) {
    key in IndexKeys(ins.check)
  }

  /** `insights[i]` is the first of the worst insights filed under `key`. */
  ghost predicate FirstWorst(insights: seq<Insight>, key: string, i: nat) {
    && i < |insights| && FiledUnder(insights[i], key)
    && (forall j :: 0 <= j < |insights| && FiledUnder(insights[j], key) ==>
          Rank(insights[j].level) <= Rank(insights[i].level))
    && (forall j :: 0 <= j < i && FiledUnder(insights[j], key) ==>
          Rank(insights[j].level) < Rank(insights[i].level))
  }

  lemma EnteredAllAt(idx: LevelIndex, keys: seq<string>, ins: Insight, key: string)
    ensures key in EnteredAll(idx, keys, ins) <==> key in idx || key in keys
    ensures key !in keys && key in idx ==> EnteredAll(idx, keys, ins)[key] == idx[key]
    ensures key in keys ==>
      EnteredAll(idx, keys, ins)[key] ==
        if key !in idx || Rank(ins.level) > Rank(idx[key].level) then IndexEntry(ins.level, ins.message) else idx[key]
  {
    if keys != [] {
      EnteredAllAt(idx, keys[..|keys| - 1], ins, key);
      assert keys == keys[..|keys| - 1] + [keys[|keys| - 1]];
    }
  }

  /** The index holds exactly the first worst insight of each key. */
  lemma {:induction false} IndexHoldsFirstWorst(insights: seq<Insight>, key: string) returns (i: nat)
    ensures key !in IndexOf(insights) ==> forall j :: 0 <= j < |insights| ==> !FiledUnder(insights[j], key)
    ensures key in IndexOf(insights) ==>
      FirstWorst(insights, key, i) && IndexOf(insights)[key] == IndexEntry(insights[i].level, insights[i].message)
    decreases |insights|
  {
    i := 0;
    if insights != [] {
      var n := |insights| - 1;
      i := IndexHoldsFirstWorst(insights[..n], key);
      i := IndexStep(insights[..n], insights[n], key, i);
      assert insights[..n] + [insights[n]] == insights;
    }
  }

  lemma {:induction false} IndexStep(prev: seq<Insight>, last: Insight, key: string, i0: nat) returns (i: nat)
    requires key !in IndexOf(prev) ==> forall j :: 0 <= j < |prev| ==> !FiledUnder(prev[j], key)
    requires key in IndexOf(prev) ==>
      FirstWorst(prev, key, i0) && IndexOf(prev)[key] == IndexEntry(prev[i0].level, prev[i0].message)
    ensures var all := prev + [last];
      && (key !in IndexOf(all) ==> forall j :: 0 <= j < |all| ==> !FiledUnder(all[j], key))
      && (key in IndexOf(all) ==>
            FirstWorst(all, key, i) && IndexOf(all)[key] == IndexEntry(all[i].level, all[i].message))
  {
    var all := prev + [last];
    assert all[..|prev|] == prev && all[|prev|] == last;
    EnteredAllAt(IndexOf(prev), IndexKeys(last.check), last, key);
    i := |prev|;
    if key in IndexOf(prev) {
      i := if FiledUnder(last, key) && Rank(last.level) > Rank(prev[i0].level) then |prev| else i0;
    }
  }

  // ----- what an index, and an insight list, say about a signal

  /** How bad each signal is: 3 CRIT, 2 WARN, 1 INFO, 0 OK or unknown, and -1 when it was never measured. */
  type Severities = string -> int

  function SeverityIn(idx: LevelIndex, key: string): int {
    if ToLower(key) in idx then Rank(idx[ToLower(key)].level) else -1
  }

  /** The severities that an insight list reports. */
  function Reported(l: seq<Insight>): Severities {
    key => SeverityIn(IndexOf(l), key)
  }

  /** Some insight filed under `key` ranks at least `rank`. */
  ghost predicate Has(l: seq<Insight>, key: string, rank: nat) {
    exists i :: 0 <= i < |l| && FiledUnder(l[i], ToLower(key)) && Rank(l[i].level) >= rank
  }

  /** The reported severity is the maximum over the insights filed under the key, and -1 if there is none. */
  lemma ReportedIsMaximum(l: seq<Insight>, key: string)
    ensures forall rank: nat :: Reported(l)(key) >= rank <==> Has(l, key, rank)
    ensures Reported(l)(key) <= 3
  {
    var i := IndexHoldsFirstWorst(l, ToLower(key));
    assert Reported(l)(key) == SeverityIn(IndexOf(l), key);
    if ToLower(key) in IndexOf(l) {
      forall rank: nat ensures Has(l, key, rank) <==> Rank(l[i].level) >= rank {
      }
    }
  }

  predicate AtLeast(idx: LevelIndex, key: string, minLevel: string) {
    ToLower(key) in idx && Rank(idx[ToLower(key)].level) >= Rank(minLevel)
  }

  predicate Exact(idx: LevelIndex, key: string, level: string) {
    ToLower(key) in idx && idx[ToLower(key)].level == level
  }

  predicate ConfirmedNot(idx: LevelIndex, key: string, level: string) {
    ToLower(key) in idx && idx[ToLower(key)].level != level
  }

  lemma {:induction false} SignalTests(idx: LevelIndex, key: string)
    ensures AtLeast(idx, key, "INFO") <==> SeverityIn(idx, key) >= 1
    ensures AtLeast(idx, key, "WARN") <==> SeverityIn(idx, key) >= 2
    ensures AtLeast(idx, key, "CRIT") <==> SeverityIn(idx, key) >= 3
    ensures Exact(idx, key, "CRIT") <==> SeverityIn(idx, key) == 3
    ensures ConfirmedNot(idx, key, "CRIT") <==> 0 <= SeverityIn(idx, key) != 3
    ensures ConfirmedNot(idx, key, "WARN") <==> 0 <= SeverityIn(idx, key) != 2
    ensures -1 <= SeverityIn(idx, key) <= 3
  {
    assert Rank("INFO") == 1 && Rank("WARN") == 2 && Rank("CRIT") == 3;
  }

  // ----- the rules

  function Checks(first: seq<string>, more: seq<(bool, string)>): seq<string> {
    if more == [] then first
    else Checks(first, more[..|more| - 1]) + if more[|more| - 1].0 then [more[|more| - 1].1] else []
  }

  function MemoryCascade(idx: LevelIndex): Option<Correlation> {
    var memFired := AtLeast(idx, "Memory", "WARN");
    var swapCrit := Exact(idx, "Swap", "CRIT");
    var processesCrit := Exact(idx, "Processes", "CRIT");
    var logsCrit := Exact(idx, "Logs", "CRIT");
    if !memFired || !swapCrit || (!processesCrit && !logsCrit) then None
    else
      Some(Correlation("Memory Pressure Cascade", "CRIT",
        Checks(["Memory", "Swap"], [(processesCrit, "Processes"), (logsCrit, "Logs")])))
  }

  function HardOOM(idx: LevelIndex): Option<Correlation> {
    var memCrit := Exact(idx, "Memory", "CRIT");
    var logsCrit := Exact(idx, "Logs", "CRIT");
    var swapNotCrit := ConfirmedNot(idx, "Swap", "CRIT");
    if !memCrit || !logsCrit || !swapNotCrit then None
    else Some(Correlation("Hard OOM Event", "CRIT", ["Memory", "Logs"]))
  }

  function IOUnderMemoryPressure(idx: LevelIndex): Option<Correlation> {
    var ioCrit := Exact(idx, "IO", "CRIT");
    var memFired := AtLeast(idx, "Memory", "WARN");
    var swapCrit := Exact(idx, "Swap", "CRIT");
    if !ioCrit || !memFired || !swapCrit then None
    else Some(Correlation("IO Stall Under Memory Pressure", "CRIT", ["IO", "Memory", "Swap"]))
  }

  function NetworkDegradedUnderLoad(idx: LevelIndex): Option<Correlation> {
    var netCrit := Exact(idx, "Network", "CRIT");
    var cpuLoaded := AtLeast(idx, "CPU Load", "WARN");
    var swapCrit := Exact(idx, "Swap", "CRIT");
    var memCrit := Exact(idx, "Memory", "CRIT");
    if !netCrit then None
    else if !cpuLoaded && !swapCrit && !memCrit then None
    else
      Some(Correlation("Network Degraded Under System Load", "WARN",
        Checks(["Network"], [(cpuLoaded, "CPU"), (swapCrit, "Swap"), (memCrit, "Memory")])))
  }

  function GPUSustainedLoad(idx: LevelIndex): Option<Correlation> {
    var gpuActive := AtLeast(idx, "GPU", "INFO");
    var thermalElevated := AtLeast(idx, "CPU Thermal", "WARN");
    var memoryElevated := AtLeast(idx, "Memory", "WARN");
    var vramElevated := AtLeast(idx, "GPU", "WARN");
    if !gpuActive then None
    else if !thermalElevated && !memoryElevated && !vramElevated then None
    else
      Some(Correlation("GPU Sustained Compute Load", "WARN",
        Checks(["GPU"], [(thermalElevated, "Thermal"), (memoryElevated, "Memory")])))
  }

  function IODrivenLoad(idx: LevelIndex): Option<Correlation> {
    var cpuLoaded := AtLeast(idx, "CPU Load", "WARN");
    var iowaitElevated := AtLeast(idx, "CPU Load/IOWait", "WARN");
    var stealElevated := AtLeast(idx, "CPU Load/Steal", "WARN");
    if !cpuLoaded || !iowaitElevated || stealElevated then None
    else Some(Correlation("IO-Driven Load Saturation", "WARN", ["CPU Load", "CPU Load/IOWait"]))
  }

  function CPUStealUnderLoad(idx: LevelIndex): Option<Correlation> {
    var cpuLoaded := AtLeast(idx, "CPU Load", "WARN");
    var stealElevated := AtLeast(idx, "CPU Load/Steal", "WARN");
    if !cpuLoaded || !stealElevated then None
    else Some(Correlation("CPU Steal Under Load", "CRIT", ["CPU Load", "CPU Load/Steal"]))
  }

  function RunQueueSaturation(idx: LevelIndex): Option<Correlation> {
    var rqSaturated := AtLeast(idx, "CPU Load/RunQueue", "WARN");
    var iowaitConfirmedLow := ConfirmedNot(idx, "CPU Load/IOWait", "WARN")
      && ConfirmedNot(idx, "CPU Load/IOWait", "CRIT");
    var stealConfirmedLow := ConfirmedNot(idx, "CPU Load/Steal", "WARN") && ConfirmedNot(idx, "CPU Load/Steal", "CRIT");
    if !rqSaturated || !iowaitConfirmedLow || !stealConfirmedLow then None
    else Some(Correlation("CPU-Bound Run Queue Saturation", "WARN", ["CPU Load/RunQueue"]))
  }

  function DBusCascade(idx: LevelIndex): Option<Correlation> {
    var dbusFailed := Exact(idx, "DBus", "CRIT");
    var systemdFailed := AtLeast(idx, "Systemd", "CRIT");
    if !dbusFailed || !systemdFailed then None
    else Some(Correlation("D-Bus Cascade Failure", "CRIT", ["DBus", "Systemd"]))
  }

  function EntropyTLSFailure(idx: LevelIndex): Option<Correlation> {
    var entropyLow := AtLeast(idx, "Entropy", "WARN");
    var tlsFired := AtLeast(idx, "TLS", "WARN");
    if !entropyLow || !tlsFired then None
    else Some(Correlation("Entropy Starvation with TLS Active", "CRIT", ["Entropy", "TLS"]))
  }

  function DiskFullServiceFailure(idx: LevelIndex): Option<Correlation> {
    var diskCrit := Exact(idx, "Disk", "CRIT");
    var systemdCrit := Exact(idx, "Systemd", "CRIT");
    var logsCrit := Exact(idx, "Logs", "CRIT");
    if !diskCrit || (!systemdCrit && !logsCrit) then None
    else
      Some(Correlation("Disk-Full Service Failure", "CRIT",
        Checks(["Disk"], [(systemdCrit, "Systemd"), (logsCrit, "Logs")])))
  }

  function NFSStaleProcessHang(idx: LevelIndex): Option<Correlation> {
    if !Exact(idx, "NFS", "CRIT") || !Exact(idx, "Processes", "CRIT") then None
    else Some(Correlation("NFS Stall Process Hang", "CRIT", ["NFS", "Processes"]))
  }

  function ClockSkewTLSAuth(idx: LevelIndex): Option<Correlation> {
    var clockCrit := Exact(idx, "Clock", "CRIT");
    var tlsCrit := Exact(idx, "TLS", "CRIT");
    var authFired := AtLeast(idx, "Auth", "WARN");
    if !clockCrit || (!tlsCrit && !authFired) then None
    else
      Some(Correlation("Clock Skew Breaking TLS/Auth", "CRIT",
        Checks(["Clock"], [(tlsCrit, "TLS"), (authFired, "Auth")])))
  }

  function ContainerCgroupOOM(idx: LevelIndex): Option<Correlation> {
    var dockerCrit := Exact(idx, "Docker", "CRIT");
    var cgroupCrit := Exact(idx, "Cgroup", "CRIT");
    var hostMemOK := ConfirmedNot(idx, "Memory", "CRIT");
    if !dockerCrit || !cgroupCrit || !hostMemOK then None
    else Some(Correlation("Container Memory-Limit OOM", "CRIT", ["Docker", "Cgroup"]))
  }

  function ThermalThrottleUnderLoad(idx: LevelIndex): Option<Correlation> {
    var thermalFired := AtLeast(idx, "CPU Thermal", "WARN");
    var cpuLoaded := AtLeast(idx, "CPU Load", "WARN");
    if !thermalFired || !cpuLoaded then None
    else
      Some(Correlation("Thermal Throttling Under Load",
        if Exact(idx, "CPU Thermal", "CRIT") then "CRIT" else "WARN", ["CPU Thermal", "CPU Load"]))
  }

  function DNSResolverNotConnectivity(idx: LevelIndex): Option<Correlation> {
    var dnsCrit := Exact(idx, "DNS", "CRIT");
    var networkOK := ConfirmedNot(idx, "Network", "CRIT");
    if !dnsCrit || !networkOK then None
    else Some(Correlation("DNS Resolver Failure (network is up)", "WARN", ["DNS"]))
  }

  datatype Rule =
    | RMemoryCascade | RHardOOM | RIOUnderMemory | RNetworkDegraded | RGPULoad | RIODriven | RSteal | RRunQueue
    | RDBus | REntropyTLS | RDiskFull | RNFSHang | RClockSkew | RContainerOOM | RThermal | RDNSResolver

  function Apply(rule: Rule, idx: LevelIndex): Option<Correlation> {
    match rule
    case RMemoryCascade => MemoryCascade(idx)
    case RHardOOM => HardOOM(idx)
    case RIOUnderMemory => IOUnderMemoryPressure(idx)
    case RNetworkDegraded => NetworkDegradedUnderLoad(idx)
    case RGPULoad => GPUSustainedLoad(idx)
    case RIODriven => IODrivenLoad(idx)
    case RSteal => CPUStealUnderLoad(idx)
    case RRunQueue => RunQueueSaturation(idx)
    case RDBus => DBusCascade(idx)
    case REntropyTLS => EntropyTLSFailure(idx)
    case RDiskFull => DiskFullServiceFailure(idx)
    case RNFSHang => NFSStaleProcessHang(idx)
    case RClockSkew => ClockSkewTLSAuth(idx)
    case RContainerOOM => ContainerCgroupOOM(idx)
    case RThermal => ThermalThrottleUnderLoad(idx)
    case RDNSResolver => DNSResolverNotConnectivity(idx)
  }

  function Fired(c: Option<Correlation>): seq<Correlation> {
    match c
    case Some(diagnosis) => [diagnosis]
    case None => []
  }

  /** The diagnoses of the rules that fire, in rule order. */
  function AllFired(f: Rule -> Option<Correlation>): seq<Correlation> {
    []
    + Fired(f(RMemoryCascade)) + Fired(f(RHardOOM)) + Fired(f(RIOUnderMemory)) + Fired(f(RNetworkDegraded))
    + Fired(f(RGPULoad)) + Fired(f(RIODriven)) + Fired(f(RSteal)) + Fired(f(RRunQueue))
    + Fired(f(RDBus)) + Fired(f(REntropyTLS)) + Fired(f(RDiskFull)) + Fired(f(RNFSHang))
    + Fired(f(RClockSkew)) + Fired(f(RContainerOOM)) + Fired(f(RThermal)) + Fired(f(RDNSResolver))
  }

  function Diagnoses(idx: LevelIndex): seq<Correlation> {
    AllFired(rule => Apply(rule, idx))
  }

  method Correlate(insights: seq<Insight>) returns (out: seq<Correlation>)
    ensures out == Diagnoses(IndexOf(insights))
  {
    if |insights| == 0 {
      NothingDiagnosedFromNothing();
      return [];
    }
    var idx := BuildIndex(insights);
    out := [];
    out := out + Fired(Apply(RMemoryCascade, idx));
    out := out + Fired(Apply(RHardOOM, idx));
    out := out + Fired(Apply(RIOUnderMemory, idx));
    out := out + Fired(Apply(RNetworkDegraded, idx));
    out := out + Fired(Apply(RGPULoad, idx));
    out := out + Fired(Apply(RIODriven, idx));
    out := out + Fired(Apply(RSteal, idx));
    out := out + Fired(Apply(RRunQueue, idx));
    out := out + Fired(Apply(RDBus, idx));
    out := out + Fired(Apply(REntropyTLS, idx));
    out := out + Fired(Apply(RDiskFull, idx));
    out := out + Fired(Apply(RNFSHang, idx));
    out := out + Fired(Apply(RClockSkew, idx));
    out := out + Fired(Apply(RContainerOOM, idx));
    out := out + Fired(Apply(RThermal, idx));
    out := out + Fired(Apply(RDNSResolver, idx));
  }

  /** The early return on an empty list is not a special case: no rule fires on an empty index. */
  lemma {:induction false} NothingDiagnosedFromNothing()
    ensures Diagnoses(map[]) == []
  {
    var f := (rule: Rule) => Apply(rule, map[]);
    forall rule: Rule ensures f(rule) == None {
      NothingFiresOnNothing(rule);
    }
    assert AllFired(f) == [];
  }

  lemma NothingFiresOnNothing(rule: Rule)
    ensures Apply(rule, map[]) == None
  {
  }

  // ----- what a diagnosis means

  predicate Fires(rule: Rule, l: seq<Insight>) {
    Apply(rule, IndexOf(l)).Some?
  }

  /** The condition of each rule, on severities alone. */
  predicate Warranted(rule: Rule, sev: Severities) {
    match rule
    case RMemoryCascade => sev("Memory") >= 2 && sev("Swap") == 3 && (sev("Processes") == 3 || sev("Logs") == 3)
    case RHardOOM => sev("Memory") == 3 && sev("Logs") == 3 && 0 <= sev("Swap") < 3
    case RIOUnderMemory => sev("IO") == 3 && sev("Memory") >= 2 && sev("Swap") == 3
    case RNetworkDegraded => sev("Network") == 3 && (sev("CPU Load") >= 2 || sev("Swap") == 3 || sev("Memory") == 3)
    case RGPULoad => sev("GPU") >= 2 || (sev("GPU") == 1 && (sev("CPU Thermal") >= 2 || sev("Memory") >= 2))
    case RIODriven => sev("CPU Load/IOWait") >= 2 && sev("CPU Load/Steal") < 2
    case RSteal => sev("CPU Load/Steal") >= 2
    case RRunQueue => sev("CPU Load/RunQueue") >= 2 && 0 <= sev("CPU Load/IOWait") < 2 && 0 <= sev("CPU Load/Steal") < 2
    case RDBus => sev("DBus") == 3 && sev("Systemd") == 3
    case REntropyTLS => sev("Entropy") >= 2 && sev("TLS") >= 2
    case RDiskFull => sev("Disk") == 3 && (sev("Systemd") == 3 || sev("Logs") == 3)
    case RNFSHang => sev("NFS") == 3 && sev("Processes") == 3
    case RClockSkew => sev("Clock") == 3 && (sev("TLS") == 3 || sev("Auth") >= 2)
    case RContainerOOM => sev("Docker") == 3 && sev("Cgroup") == 3 && 0 <= sev("Memory") < 3
    case RThermal => sev("CPU Thermal") >= 2 && sev("CPU Load") >= 2
    case RDNSResolver => sev("DNS") == 3 && 0 <= sev("Network") < 3
  }

  /** Whatever a sub-check reports, its parent check reports at least as badly. */
  lemma ParentRanksAtLeast(l: seq<Insight>, parent: string, sub: string)
    requires parent != "" && '/' !in ToLower(parent)
    ensures Reported(l)(parent + "/" + sub) <= Reported(l)(parent)
  {
    var worst := Reported(l)(parent + "/" + sub);
    ReportedIsMaximum(l, parent + "/" + sub);
    ReportedIsMaximum(l, parent);
    if worst >= 0 {
      SubCheckFiledUnderParent(l, parent, parent + "/" + sub, worst);
    }
  }

  lemma SubCheckFiledUnderParent(l: seq<Insight>, parent: string, key: string, rank: nat)
    requires parent != "" && '/' !in ToLower(parent) && parent + "/" <= key && Has(l, key, rank)
    ensures Has(l, parent, rank)
  {
    var i :| 0 <= i < |l| && FiledUnder(l[i], ToLower(key)) && Rank(l[i].level) >= rank;
    assert (parent + "/")[|parent|] == '/';
    assert ToLower(key)[..|parent|] == ToLower(parent);
    SubCheckKeys(l[i].check, ToLower(key), |parent|);
  }

  /** A key that holds a slash is a whole check name, not a prefix of one. */
  lemma SlashedKeyIsWhole(check: string, key: string, n: nat)
    requires 0 < n < |key| && key[n] == '/' && '/' !in key[..n] && key in IndexKeys(check)
    ensures key == ToLower(check)
  {
    SlashIndex(ToLower(check));
  }

  lemma SubCheckKeys(check: string, key: string, n: nat)
    requires 0 < n < |key| && key[n] == '/' && '/' !in key[..n] && key in IndexKeys(check)
    ensures key[..n] in IndexKeys(check)
  {
    SlashedKeyIsWhole(check, key, n);
    SlashIndex(key);
    assert forall k :: 0 <= k < n ==> key[..n][k] == key[k];
    assert Index(key, "/") == Some(n);
  }

  /** The index of "/" is that of the first slash. */
  lemma SlashIndex(s: string)
    ensures Index(s, "/") == None ==> '/' !in s
    ensures Index(s, "/").Some? ==> Index(s, "/").value < |s| && s[Index(s, "/").value] == '/'
    ensures Index(s, "/").Some? ==> forall k :: 0 <= k < Index(s, "/").value ==> s[k] != '/'
  {
    IndexMeaning(s, "/");
    forall k | 0 <= k < |s| && s[k] == '/' ensures HasPrefix(s[k..], "/") {
    }
  }

  /** Each rule fires exactly when the reported severities warrant it. */
  lemma {:induction false} FiresIffWarranted(rule: Rule, l: seq<Insight>)
    ensures Fires(rule, l) <==> Warranted(rule, Reported(l))
  {
    LoadDominates(l);
    AppliesIffWarranted(rule, IndexOf(l), Reported(l));
  }

  /** The "CPU Load" conjunct of the steal and iowait rules is implied by their sub-check conjunct. */
  lemma LoadDominates(l: seq<Insight>)
    ensures Reported(l)("CPU Load/Steal") <= Reported(l)("CPU Load")
    ensures Reported(l)("CPU Load/IOWait") <= Reported(l)("CPU Load")
  {
    assert "CPU Load" + "/" + "Steal" == "CPU Load/Steal" && "CPU Load" + "/" + "IOWait" == "CPU Load/IOWait";
    ParentRanksAtLeast(l, "CPU Load", "Steal");
    ParentRanksAtLeast(l, "CPU Load", "IOWait");
  }

  lemma {:induction false} AppliesIffWarranted(rule: Rule, idx: LevelIndex, sev: Severities)
    requires forall key :: sev(key) == SeverityIn(idx, key)
    requires sev("CPU Load/Steal") <= sev("CPU Load") && sev("CPU Load/IOWait") <= sev("CPU Load")
    ensures Apply(rule, idx).Some? <==> Warranted(rule, sev)
  {
    if rule in {RMemoryCascade, RHardOOM, RIOUnderMemory, RNetworkDegraded, RGPULoad, RIODriven, RSteal, RRunQueue} {
      PressureRules(rule, idx, sev);
    } else if rule in {RDBus, REntropyTLS, RDiskFull, RNFSHang} {
      FailureRules(rule, idx, sev);
    } else {
      ServiceRules(rule, idx, sev);
    }
  }

  lemma PressureRules(rule: Rule, idx: LevelIndex, sev: Severities)
    requires rule in {RMemoryCascade, RHardOOM, RIOUnderMemory, RNetworkDegraded, RGPULoad, RIODriven,
      RSteal, RRunQueue}
    requires forall key :: sev(key) == SeverityIn(idx, key)
    requires sev("CPU Load/Steal") <= sev("CPU Load") && sev("CPU Load/IOWait") <= sev("CPU Load")
    ensures Apply(rule, idx).Some? <==> Warranted(rule, sev)
  {
    match rule
    case RMemoryCascade =>
      SignalTests(idx, "Memory"); SignalTests(idx, "Swap"); SignalTests(idx, "Processes"); SignalTests(idx, "Logs");
    case RHardOOM => SignalTests(idx, "Memory"); SignalTests(idx, "Logs"); SignalTests(idx, "Swap");
    case RIOUnderMemory => SignalTests(idx, "IO"); SignalTests(idx, "Memory"); SignalTests(idx, "Swap");
    case RNetworkDegraded =>
      SignalTests(idx, "Network"); SignalTests(idx, "CPU Load"); SignalTests(idx, "Swap");
      SignalTests(idx, "Memory");
    case RGPULoad => SignalTests(idx, "GPU"); SignalTests(idx, "CPU Thermal"); SignalTests(idx, "Memory");
    case RIODriven =>
      SignalTests(idx, "CPU Load"); SignalTests(idx, "CPU Load/IOWait"); SignalTests(idx, "CPU Load/Steal");
    case RSteal => SignalTests(idx, "CPU Load"); SignalTests(idx, "CPU Load/Steal");
    case RRunQueue =>
      SignalTests(idx, "CPU Load/RunQueue"); SignalTests(idx, "CPU Load/IOWait"); SignalTests(idx, "CPU Load/Steal");
  }

  lemma FailureRules(rule: Rule, idx: LevelIndex, sev: Severities)
    requires rule in {RDBus, REntropyTLS, RDiskFull, RNFSHang}
    requires forall key :: sev(key) == SeverityIn(idx, key)
    ensures Apply(rule, idx).Some? <==> Warranted(rule, sev)
  {
    match rule
    case RDBus => SignalTests(idx, "DBus"); SignalTests(idx, "Systemd");
    case REntropyTLS => SignalTests(idx, "Entropy"); SignalTests(idx, "TLS");
    case RDiskFull => SignalTests(idx, "Disk"); SignalTests(idx, "Systemd"); SignalTests(idx, "Logs");
    case RNFSHang => SignalTests(idx, "NFS"); SignalTests(idx, "Processes");
  }

  lemma ServiceRules(rule: Rule, idx: LevelIndex, sev: Severities)
    requires rule in {RClockSkew, RContainerOOM, RThermal, RDNSResolver}
    requires forall key :: sev(key) == SeverityIn(idx, key)
    ensures Apply(rule, idx).Some? <==> Warranted(rule, sev)
  {
    match rule
    case RClockSkew => SignalTests(idx, "Clock"); SignalTests(idx, "TLS"); SignalTests(idx, "Auth");
    case RContainerOOM => SignalTests(idx, "Docker"); SignalTests(idx, "Cgroup"); SignalTests(idx, "Memory");
    case RThermal => SignalTests(idx, "CPU Thermal"); SignalTests(idx, "CPU Load");
    case RDNSResolver => SignalTests(idx, "DNS"); SignalTests(idx, "Network");
  }

  // ----- diagnoses do not depend on the order of the insights

  lemma ApplyReadsSeverities(rule: Rule, idx: LevelIndex, idx': LevelIndex)
    requires forall key :: SeverityIn(idx, key) == SeverityIn(idx', key)
    ensures Apply(rule, idx) == Apply(rule, idx')
  {
    forall key ensures SameTests(idx, idx', key) {
      SignalTests(idx, key);
      SignalTests(idx', key);
    }
    match rule
    case RMemoryCascade | RHardOOM | RIOUnderMemory | RNetworkDegraded => SameTestsSamePressure(rule, idx, idx');
    case RGPULoad | RIODriven | RSteal | RRunQueue => SameTestsSameLoad(rule, idx, idx');
    case RDBus | REntropyTLS | RDiskFull | RNFSHang => SameTestsSameFailure(rule, idx, idx');
    case RClockSkew | RContainerOOM | RThermal | RDNSResolver => SameTestsSameService(rule, idx, idx');
  }

  lemma SameTestsSamePressure(rule: Rule, idx: LevelIndex, idx': LevelIndex)
    requires rule in {RMemoryCascade, RHardOOM, RIOUnderMemory, RNetworkDegraded}
      && forall key :: SameTests(idx, idx', key)
    ensures Apply(rule, idx) == Apply(rule, idx')
  {
    match rule
    case RMemoryCascade =>
      assert SameTests(idx, idx', "Memory"); assert SameTests(idx, idx', "Swap");
      assert SameTests(idx, idx', "Processes"); assert SameTests(idx, idx', "Logs");
    case RHardOOM =>
      assert SameTests(idx, idx', "Memory"); assert SameTests(idx, idx', "Logs");
      assert SameTests(idx, idx', "Swap");
    case RIOUnderMemory =>
      assert SameTests(idx, idx', "IO"); assert SameTests(idx, idx', "Memory"); assert SameTests(idx, idx', "Swap");
    case RNetworkDegraded =>
      assert SameTests(idx, idx', "Network"); assert SameTests(idx, idx', "CPU Load");
      assert SameTests(idx, idx', "Swap"); assert SameTests(idx, idx', "Memory");
  }

  lemma SameTestsSameLoad(rule: Rule, idx: LevelIndex, idx': LevelIndex)
    requires rule in {RGPULoad, RIODriven, RSteal, RRunQueue} && forall key :: SameTests(idx, idx', key)
    ensures Apply(rule, idx) == Apply(rule, idx')
  {
    match rule
    case RGPULoad =>
      assert SameTests(idx, idx', "GPU"); assert SameTests(idx, idx', "CPU Thermal");
      assert SameTests(idx, idx', "Memory");
    case RIODriven =>
      assert SameTests(idx, idx', "CPU Load"); assert SameTests(idx, idx', "CPU Load/IOWait");
      assert SameTests(idx, idx', "CPU Load/Steal");
    case RSteal => assert SameTests(idx, idx', "CPU Load"); assert SameTests(idx, idx', "CPU Load/Steal");
    case RRunQueue =>
      assert SameTests(idx, idx', "CPU Load/RunQueue"); assert SameTests(idx, idx', "CPU Load/IOWait");
      assert SameTests(idx, idx', "CPU Load/Steal");
  }

  lemma SameTestsSameFailure(rule: Rule, idx: LevelIndex, idx': LevelIndex)
    requires rule in {RDBus, REntropyTLS, RDiskFull, RNFSHang} && forall key :: SameTests(idx, idx', key)
    ensures Apply(rule, idx) == Apply(rule, idx')
  {
    match rule
    case RDBus => assert SameTests(idx, idx', "DBus"); assert SameTests(idx, idx', "Systemd");
    case REntropyTLS => assert SameTests(idx, idx', "Entropy"); assert SameTests(idx, idx', "TLS");
    case RDiskFull =>
      assert SameTests(idx, idx', "Disk"); assert SameTests(idx, idx', "Systemd");
      assert SameTests(idx, idx', "Logs");
    case RNFSHang => assert SameTests(idx, idx', "NFS"); assert SameTests(idx, idx', "Processes");
  }

  lemma SameTestsSameService(rule: Rule, idx: LevelIndex, idx': LevelIndex)
    requires rule in {RClockSkew, RContainerOOM, RThermal, RDNSResolver} && forall key :: SameTests(idx, idx', key)
    ensures Apply(rule, idx) == Apply(rule, idx')
  {
    match rule
    case RClockSkew =>
      assert SameTests(idx, idx', "Clock"); assert SameTests(idx, idx', "TLS"); assert SameTests(idx, idx', "Auth");
    case RContainerOOM =>
      assert SameTests(idx, idx', "Docker"); assert SameTests(idx, idx', "Cgroup");
      assert SameTests(idx, idx', "Memory");
    case RThermal => assert SameTests(idx, idx', "CPU Thermal"); assert SameTests(idx, idx', "CPU Load");
    case RDNSResolver => assert SameTests(idx, idx', "DNS"); assert SameTests(idx, idx', "Network");
  }

  predicate SameTests(idx: LevelIndex, idx': LevelIndex, key: string) {
    && (AtLeast(idx, key, "INFO") <==> AtLeast(idx', key, "INFO"))
    && (AtLeast(idx, key, "WARN") <==> AtLeast(idx', key, "WARN"))
    && (AtLeast(idx, key, "CRIT") <==> AtLeast(idx', key, "CRIT"))
    && (Exact(idx, key, "CRIT") <==> Exact(idx', key, "CRIT"))
    && (ConfirmedNot(idx, key, "WARN") <==> ConfirmedNot(idx', key, "WARN"))
    && (ConfirmedNot(idx, key, "CRIT") <==> ConfirmedNot(idx', key, "CRIT"))
  }

  /** More insights report at least as bad severities. */
  lemma MoreInsightsReportMore(a: seq<Insight>, b: seq<Insight>, key: string)
    requires forall ins :: ins in a ==> ins in b
    ensures Reported(a)(key) <= Reported(b)(key)
  {
    var worst := Reported(a)(key);
    ReportedIsMaximum(a, key);
    ReportedIsMaximum(b, key);
    if worst >= 0 {
      var rank: nat := worst;
      assert Has(a, key, rank);
      var i :| 0 <= i < |a| && FiledUnder(a[i], ToLower(key)) && Rank(a[i].level) >= rank;
      assert a[i] in a;
      var j :| 0 <= j < |b| && b[j] == a[i];
      assert Has(b, key, rank);
    }
  }

  /** The index of an insight list depends on its order, its diagnoses only on which insights it contains. */
  lemma {:induction false} DiagnosesIgnoreOrder(a: seq<Insight>, b: seq<Insight>)
    requires forall ins :: ins in a <==> ins in b
    ensures Diagnoses(IndexOf(a)) == Diagnoses(IndexOf(b))
  {
    forall key ensures SeverityIn(IndexOf(a), key) == SeverityIn(IndexOf(b), key) {
      MoreInsightsReportMore(a, b, key);
      MoreInsightsReportMore(b, a, key);
      assert Reported(a)(key) == SeverityIn(IndexOf(a), key) && Reported(b)(key) == SeverityIn(IndexOf(b), key);
    }
    SameSeveritiesSameDiagnoses(IndexOf(a), IndexOf(b));
  }

  lemma {:induction false} SameSeveritiesSameDiagnoses(idx: LevelIndex, idx': LevelIndex)
    requires forall key :: SeverityIn(idx, key) == SeverityIn(idx', key)
    ensures Diagnoses(idx) == Diagnoses(idx')
  {
    var f, g := (rule: Rule) => Apply(rule, idx), (rule: Rule) => Apply(rule, idx');
    forall rule: Rule ensures f(rule) == g(rule) {
      ApplyReadsSeverities(rule, idx, idx');
    }
    assert AllFired(f) == AllFired(g);
  }

  // ----- how diagnoses change when insights are added

  /** The one signal that can take a diagnosis back, reaching the level its rule excludes. */
  predicate Retracts(rule: Rule, sev: Severities) {
    match rule
    case RHardOOM => sev("Swap") == 3
    case RIODriven => sev("CPU Load/Steal") >= 2
    case RRunQueue => sev("CPU Load/IOWait") >= 2 || sev("CPU Load/Steal") >= 2
    case RContainerOOM => sev("Memory") == 3
    case RDNSResolver => sev("Network") == 3
    case _ => false
  }

  lemma WorseSeveritiesRetract(rule: Rule, sev: Severities, sev': Severities)
    requires forall key :: sev(key) <= sev'(key) <= 3
    requires Warranted(rule, sev)
    ensures Warranted(rule, sev') <==> !Retracts(rule, sev')
  {
  }

  /** Adding insights retracts a diagnosis exactly when its own negative signal reaches the excluded level. */
  lemma AddedInsightsRetract(rule: Rule, a: seq<Insight>, b: seq<Insight>)
    requires forall ins :: ins in a ==> ins in b
    requires Fires(rule, a)
    ensures Fires(rule, b) <==> !Retracts(rule, Reported(b))
  {
    forall key ensures Reported(a)(key) <= Reported(b)(key) <= 3 {
      MoreInsightsReportMore(a, b, key);
      ReportedIsMaximum(b, key);
    }
    FiresIffWarranted(rule, a);
    FiresIffWarranted(rule, b);
    WorseSeveritiesRetract(rule, Reported(a), Reported(b));
  }

  // ----- contradictory diagnoses

  /** The pairs of rules whose explanations contradict each other. */
  predicate Excludes(r1: Rule, r2: Rule) {
    Contradicts(r1, r2) || Contradicts(r2, r1)
  }

  predicate Contradicts(r1: Rule, r2: Rule) {
    match r1
    case RHardOOM => r2 == RMemoryCascade || r2 == RIOUnderMemory || r2 == RContainerOOM
    case RNetworkDegraded => r2 == RDNSResolver
    case RIODriven => r2 == RSteal || r2 == RRunQueue
    case RSteal => r2 == RRunQueue
    case _ => false
  }

  lemma ExcludedNeverWarranted(r1: Rule, r2: Rule, sev: Severities)
    requires Excludes(r1, r2)
    ensures !(Warranted(r1, sev) && Warranted(r2, sev))
  {
  }

  /** Contradictory diagnoses never come from one insight list. */
  lemma {:induction false} ContradictionsNeverCoOccur(r1: Rule, r2: Rule, l: seq<Insight>)
    requires Excludes(r1, r2)
    ensures !(Fires(r1, l) && Fires(r2, l))
  {
    FiresIffWarranted(r1, l);
    FiresIffWarranted(r2, l);
    ExcludedNeverWarranted(r1, r2, Reported(l));
  }

  // ----- evidence

  /** The signals a rule claims to have found below a level, with that level's rank. */
  function ConfirmedLow(rule: Rule): seq<(string, nat)> {
    match rule
    case RHardOOM => [("Swap", 3)]
    case RRunQueue => [("CPU Load/IOWait", 2), ("CPU Load/Steal", 2)]
    case RContainerOOM => [("Memory", 3)]
    case RDNSResolver => [("Network", 3)]
    case _ => []
  }

  /**
   A rule that rules a signal out has an insight filed under it, and none at the excluded level. That the insight
   measured anything does not follow: see `UnreadSignals`.
   */
  lemma RuledOutMeansReported(rule: Rule, l: seq<Insight>, k: nat)
    requires Fires(rule, l) && k < |ConfirmedLow(rule)|
    ensures var (key, rank) := ConfirmedLow(rule)[k]; Has(l, key, 0) && !Has(l, key, rank)
  {
    var (key, rank) := ConfirmedLow(rule)[k];
    FiresIffWarranted(rule, l);
    ReportedIsMaximum(l, key);
    assert Reported(l)(key) >= rank <==> Has(l, key, rank);
    assert Reported(l)(key) >= 0 <==> Has(l, key, 0);
  }

  /** The IO-driven load rule is the exception: it fires although no insight is filed under CPU steal. */
  lemma IODrivenNeedsNoStealReading() returns (l: seq<Insight>)
    ensures Fires(RIODriven, l) && !Has(l, "CPU Load/Steal", 0)
  {
    var ins := Insight("WARN", "CPU Load/IOWait", "", [], false, false, "");
    l := [ins];
    OtherSubCheck();
    SingleReading(ins, "CPU Load/IOWait", "CPU Load/Steal");
    IODrivenFires(l);
  }

  lemma OtherSubCheck()
    ensures ToLower("CPU Load/IOWait") != ToLower("CPU Load/Steal")
    ensures ToLower("CPU Load/Steal")[8] == '/' && '/' !in ToLower("CPU Load/Steal")[..8]
  {
    assert ToLower("CPU Load/IOWait")[9] == 'i' && ToLower("CPU Load/Steal")[9] == 's';
  }

  lemma IODrivenFires(l: seq<Insight>)
    requires Reported(l)("CPU Load/IOWait") >= 2 && Reported(l)("CPU Load/Steal") < 2
    ensures Fires(RIODriven, l)
  {
    FiresIffWarranted(RIODriven, l);
  }

  lemma SingleReading(ins: Insight, key: string, other: string)
    requires ins.check == key && 8 < |other| && ToLower(other)[8] == '/' && '/' !in ToLower(other)[..8]
    requires ToLower(key) != ToLower(other) && ins.level == "WARN"
    ensures Reported([ins])(key) >= 2 && Reported([ins])(other) < 0 && !Has([ins], other, 0)
  {
    var l := [ins];
    assert FiledUnder(l[0], ToLower(key)) && Rank(l[0].level) == 2;
    assert Has(l, key, 2);
    ReportedIsMaximum(l, key);
    ReportedIsMaximum(l, other);
    if FiledUnder(ins, ToLower(other)) {
      SlashedKeyIsWhole(ins.check, ToLower(other), 8);
    }
    assert !Has(l, other, 0);
  }
}
