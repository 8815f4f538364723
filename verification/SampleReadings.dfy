/**
 Insight lists on which two given rules of `Correlate` fire, for every two that do not exclude each other.

 - Five signals are ones that some rule needs to be low. For two rules that do not exclude each other there are
   levels of these five that suit both (LevelsFor); every other signal may be critical.
 - Such severities warrant both rules (SuitableLevelsWarrant).
 - One insight for each signal reports exactly these severities (ReadingsMatch): no check name is filed under the
   key of another of the five, which shows already in its length and first letter.
 - Rules fire on what is reported (Correlate.FiresIffWarranted).
 */
module SampleReadings {
  import opened Correlate
  import opened Insights
  import opened Text

  /** Severities of the five signals that some rule needs to be low. */
  datatype Levels = Levels(swap: nat, memory: nat, network: nat, iowait: nat, steal: nat) {

    predicate Valid() {
      swap <= 3 && memory <= 3 && network <= 3 && iowait <= 3 && steal <= 3
    }

    /** What `rule` needs of these five levels to fire. */
    predicate Suit(rule: Rule) {
      match rule
      case RMemoryCascade => swap == 3 && memory >= 2
      case RHardOOM => swap < 3 && memory == 3
      case RIOUnderMemory => swap == 3 && memory >= 2
      case RNetworkDegraded => network == 3
      case RIODriven => iowait >= 2 && steal < 2
      case RSteal => steal >= 2
      case RRunQueue => iowait < 2 && steal < 2
      case RContainerOOM => memory < 3
      case RDNSResolver => network < 3
      case _ => true
    }
  }

  /** The signals that no rule needs to be low. */
  const HIGH: seq<string> := ["Processes", "Logs", "IO", "CPU Load", "GPU", "CPU Thermal", "CPU Load/RunQueue", "DBus",
    "Systemd", "Entropy", "TLS", "Disk", "NFS", "Clock", "Auth", "Docker", "Cgroup", "DNS"]

  /** These severities, and critical ones for all other signals that rules read. */
  ghost predicate Matches(sev: Severities, levels: Levels) {
    MatchesLow(sev, levels) && PressureIsHigh(sev) && FailureIsHigh(sev)
  }

  ghost predicate MatchesLow(sev: Severities, levels: Levels) {
    && sev("Swap") == levels.swap && sev("Memory") == levels.memory && sev("Network") == levels.network
    && sev("CPU Load/IOWait") == levels.iowait && sev("CPU Load/Steal") == levels.steal
  }

  ghost predicate PressureIsHigh(sev: Severities) {
    && sev("Processes") == 3 && sev("Logs") == 3 && sev("IO") == 3 && sev("GPU") == 3
    && sev("CPU Load") == 3 && sev("CPU Thermal") == 3 && sev("CPU Load/RunQueue") == 3
  }

  ghost predicate FailureIsHigh(sev: Severities) {
    && sev("DBus") == 3 && sev("Systemd") == 3 && sev("Entropy") == 3 && sev("TLS") == 3
    && sev("Disk") == 3 && sev("NFS") == 3 && sev("Clock") == 3 && sev("Auth") == 3
    && sev("Docker") == 3 && sev("Cgroup") == 3 && sev("DNS") == 3
  }

  lemma LevelsFor(r1: Rule, r2: Rule) returns (levels: Levels)
    requires !Excludes(r1, r2)
    ensures levels.Valid() && levels.Suit(r1) && levels.Suit(r2)
  {
    levels := Levels(
      if r1 == RHardOOM || r2 == RHardOOM then 2 else 3,
      if r1 == RContainerOOM || r2 == RContainerOOM then 2 else 3,
      if r1 == RDNSResolver || r2 == RDNSResolver then 0 else 3,
      if r1 == RRunQueue || r2 == RRunQueue then 0 else 3,
      if r1 == RSteal || r2 == RSteal then 3 else 0);
  }

  // ----- suitable severities warrant the rule

  lemma SuitableLevelsWarrant(rule: Rule, levels: Levels, sev: Severities)
    requires levels.Suit(rule) && Matches(sev, levels)
    ensures Warranted(rule, sev)
  {
    if rule in {RMemoryCascade, RHardOOM, RIOUnderMemory, RNetworkDegraded, RGPULoad, RIODriven, RSteal, RRunQueue} {
      SuitableForPressure(rule, levels, sev);
    } else {
      SuitableForFailure(rule, levels, sev);
    }
  }

  lemma SuitableForPressure(rule: Rule, levels: Levels, sev: Severities)
    requires levels.Suit(rule) && Matches(sev, levels)
    requires rule in {RMemoryCascade, RHardOOM, RIOUnderMemory, RNetworkDegraded, RGPULoad, RIODriven,
      RSteal, RRunQueue}
    ensures Warranted(rule, sev)
  {
  }

  lemma SuitableForFailure(rule: Rule, levels: Levels, sev: Severities)
    requires levels.Suit(rule) && Matches(sev, levels)
    requires rule !in {RMemoryCascade, RHardOOM, RIOUnderMemory, RNetworkDegraded, RGPULoad, RIODriven,
      RSteal, RRunQueue}
    ensures Warranted(rule, sev)
  {
  }

  // ----- an insight list that reports them

  function LevelName(rank: nat): (level: string)
    ensures rank <= 3 ==> Rank(level) == rank
  {
    if rank == 0 then "OK" else if rank == 1 then "INFO" else if rank == 2 then "WARN" else "CRIT"
  }

  function Reading(check: string, rank: nat): Insight {
    Insight(LevelName(rank), check, "", [], false, false, "")
  }

  const LOW: seq<string> := ["Swap", "Memory", "Network", "CPU Load/IOWait", "CPU Load/Steal"]

  function LowRanks(levels: Levels): seq<nat> {
    [levels.swap, levels.memory, levels.network, levels.iowait, levels.steal]
  }

  /** One insight for each signal. */
  function Readings(levels: Levels): (l: seq<Insight>)
    ensures |l| == |LOW| + |HIGH|
  {
    seq(|LOW|, k requires 0 <= k < |LOW| => Reading(LOW[k], LowRanks(levels)[k]))
    + seq(|HIGH|, k requires 0 <= k < |HIGH| => Reading(HIGH[k], 3))
  }

  /** Seen from the length and the first letter, a check of this name is not filed under that key. */
  predicate Apart(check: string, key: string) {
    && check != "" && key != ""
    && (|check| != |key| || ToLowerChar(check[0]) != ToLowerChar(key[0]))
    && forall i :: 0 <= i < |check| && ToLowerChar(check[i]) == '/' ==> i != |key|
  }

  lemma ApartIsNotFiled(ins: Insight, key: string)
    requires Apart(ins.check, key)
    ensures !FiledUnder(ins, ToLower(key))
  {
    var lower := ToLower(ins.check);
    SlashIndex(lower);
    assert lower[0] == ToLowerChar(ins.check[0]) && ToLower(key)[0] == ToLowerChar(key[0]);
    assert lower != ToLower(key);
  }

  lemma LowNamesAreApart(j: nat, k: nat)
    requires j < |LOW| && k < |LOW| && j != k
    ensures Apart(LOW[j], LOW[k])
  {
    assert |LOW[0]| == 4 && |LOW[1]| == 6 && |LOW[2]| == 7 && |LOW[3]| == 15 && |LOW[4]| == 14;
    assert forall i :: 0 <= i < |LOW[j]| && ToLowerChar(LOW[j][i]) == '/' ==> i == 8;
  }

  lemma HighNamesAreApart(j: nat, k: nat)
    requires j < |HIGH| && k < |LOW|
    ensures Apart(HIGH[j], LOW[k])
  {
    assert |LOW[0]| == 4 && |LOW[1]| == 6 && |LOW[2]| == 7 && |LOW[3]| == 15 && |LOW[4]| == 14;
    assert LOW[0][0] == 'S' && LOW[1][0] == 'M' && LOW[2][0] == 'N';
    HighShape(j);
  }

  lemma HighShape(j: nat)
    requires j < |HIGH|
    ensures HIGH[j] != "" && |HIGH[j]| !in {14, 15}
    ensures |HIGH[j]| == 4 ==> ToLowerChar(HIGH[j][0]) != 's'
    ensures |HIGH[j]| == 6 ==> ToLowerChar(HIGH[j][0]) != 'm'
    ensures |HIGH[j]| == 7 ==> ToLowerChar(HIGH[j][0]) != 'n'
    ensures forall i :: 0 <= i < |HIGH[j]| && ToLowerChar(HIGH[j][i]) == '/' ==> i == 8
  {
  }

  /** The list reports exactly the wanted severities. */
  lemma ReadingsMatch(levels: Levels)
    requires levels.Valid()
    ensures Matches(Reported(Readings(levels)), levels)
  {
    LowMatch(levels);
    PressureMatches(levels, Reported(Readings(levels)));
    FailureMatches(levels, Reported(Readings(levels)));
  }

  lemma LowMatch(levels: Levels)
    requires levels.Valid()
    ensures MatchesLow(Reported(Readings(levels)), levels)
  {
    forall k | 0 <= k < |LOW| ensures Reported(Readings(levels))(LOW[k]) == LowRanks(levels)[k] {
      LowIsReported(levels, k);
    }
    assert LOW[0] == "Swap" && LOW[1] == "Memory" && LOW[2] == "Network";
    assert LOW[3] == "CPU Load/IOWait" && LOW[4] == "CPU Load/Steal";
  }

  lemma PressureMatches(levels: Levels, sev: Severities)
    requires levels.Valid() && sev == Reported(Readings(levels))
    ensures PressureIsHigh(sev)
  {
    CPUMatches(levels, sev);
    HostMatches(levels, sev);
  }

  lemma CPUMatches(levels: Levels, sev: Severities)
    requires levels.Valid() && sev == Reported(Readings(levels))
    ensures sev("CPU Load") == 3 && sev("CPU Thermal") == 3 && sev("CPU Load/RunQueue") == 3
  {
    NamedHighIsReported(levels, sev, 3, "CPU Load");
    NamedHighIsReported(levels, sev, 5, "CPU Thermal");
    NamedHighIsReported(levels, sev, 6, "CPU Load/RunQueue");
  }

  lemma HostMatches(levels: Levels, sev: Severities)
    requires levels.Valid() && sev == Reported(Readings(levels))
    ensures sev("Processes") == 3 && sev("Logs") == 3 && sev("IO") == 3 && sev("GPU") == 3
  {
    NamedHighIsReported(levels, sev, 0, "Processes");
    NamedHighIsReported(levels, sev, 1, "Logs");
    NamedHighIsReported(levels, sev, 2, "IO");
    NamedHighIsReported(levels, sev, 4, "GPU");
  }

  lemma FailureMatches(levels: Levels, sev: Severities)
    requires levels.Valid() && sev == Reported(Readings(levels))
    ensures FailureIsHigh(sev)
  {
    SystemMatches(levels, sev);
    ServiceMatches(levels, sev);
  }

  lemma SystemMatches(levels: Levels, sev: Severities)
    requires levels.Valid() && sev == Reported(Readings(levels))
    ensures sev("DBus") == 3 && sev("Systemd") == 3 && sev("Entropy") == 3
    ensures sev("Disk") == 3 && sev("Clock") == 3
  {
    NamedHighIsReported(levels, sev, 7, "DBus");
    NamedHighIsReported(levels, sev, 8, "Systemd");
    NamedHighIsReported(levels, sev, 9, "Entropy");
    NamedHighIsReported(levels, sev, 11, "Disk");
    NamedHighIsReported(levels, sev, 13, "Clock");
  }

  lemma ServiceMatches(levels: Levels, sev: Severities)
    requires levels.Valid() && sev == Reported(Readings(levels))
    ensures sev("TLS") == 3 && sev("NFS") == 3 && sev("Auth") == 3 && sev("Docker") == 3
    ensures sev("Cgroup") == 3 && sev("DNS") == 3
  {
    NamedHighIsReported(levels, sev, 10, "TLS");
    NamedHighIsReported(levels, sev, 12, "NFS");
    NamedHighIsReported(levels, sev, 14, "Auth");
    NamedHighIsReported(levels, sev, 15, "Docker");
    NamedHighIsReported(levels, sev, 16, "Cgroup");
    NamedHighIsReported(levels, sev, 17, "DNS");
  }

  lemma NamedHighIsReported(levels: Levels, sev: Severities, j: nat, key: string)
    requires levels.Valid() && sev == Reported(Readings(levels)) && j < |HIGH| && HIGH[j] == key
    ensures sev(key) == 3
  {
    HighIsReported(levels, j);
  }

  lemma HighIsReported(levels: Levels, j: nat)
    requires levels.Valid() && j < |HIGH|
    ensures Reported(Readings(levels))(HIGH[j]) == 3
  {
    var l, key := Readings(levels), HIGH[j];
    assert l[|LOW| + j] == Reading(key, 3);
    ReadingIsFiled(l, |LOW| + j);
    ReportedIsMaximum(l, key);
    assert Has(l, key, 3);
    assert Reported(l)(key) >= 3;
  }

  lemma ReadingIsFiled(l: seq<Insight>, k: nat)
    requires k < |l|
    ensures FiledUnder(l[k], ToLower(l[k].check))
  {
  }

  lemma LowIsReported(levels: Levels, k: nat)
    requires levels.Valid() && k < |LOW|
    ensures Reported(Readings(levels))(LOW[k]) == LowRanks(levels)[k]
  {
    var l, rank := Readings(levels), LowRanks(levels)[k];
    assert l[k] == Reading(LOW[k], rank) && rank <= 3;
    ReadingIsFiled(l, k);
    forall j | 0 <= j < |l| && j != k ensures !FiledUnder(l[j], ToLower(LOW[k])) {
      if j < |LOW| {
        LowNamesAreApart(j, k);
      } else {
        HighNamesAreApart(j - |LOW|, k);
        assert l[j].check == HIGH[j - |LOW|];
      }
      ApartIsNotFiled(l[j], LOW[k]);
    }
    ReportedIsMaximum(l, LOW[k]);
    assert Has(l, LOW[k], rank) && !Has(l, LOW[k], rank + 1);
    assert Reported(l)(LOW[k]) >= rank && !(Reported(l)(LOW[k]) >= rank + 1);
  }
}
