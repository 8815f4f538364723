/** Which category `Consequences` counts a check in, by how its name starts. */
module Categories {
  import opened Consequences
  import opened Text

  predicate Starts(check: string, word: string) {
    |word| <= |check| && check[..|word|] == word
  }

  predicate StartsAny(check: string, words: seq<string>) {
    exists k :: 0 <= k < |words| && Starts(check, words[k])
  }

  predicate StartsStorage(check: string) {
    StartsAny(check, ["Disk", "RAID", "DRBD", "Multipath", "Ceph", "LVM", "ZFS", "Root FS", "Drives", "HBA", "IO",
      "Fstab"])
  }

  predicate StartsMemory(check: string) {
    StartsAny(check, ["Memory", "Swap", "Pressure", "NUMA", "HugePages"])
  }

  predicate StartsPatches(check: string) {
    StartsAny(check, ["CVE", "Packages", "Kernel", "LivePatch", "Ksplice"])
  }

  predicate StartsSecurity(check: string) {
    StartsAny(check, ["Hardening", "TLS", "Sessions", "Security", "MTE"])
  }

  predicate StartsServices(check: string) {
    StartsAny(check, ["Systemd", "Services", "ServiceRestart", "Launchd", "Cron", "DBus"])
  }

  predicate StartsNetwork(check: string) {
    StartsAny(check, ["Network", "DNS", "Clock", "VLAN", "Entropy"])
  }

  predicate StartsCompute(check: string) {
    StartsAny(check, ["CPU", "Processes", "OOM", "Cgroup", "Logs", "PostBoot"])
  }

  /** A number that the first three letters of a word determine; each category has words of one number only. */
  function Tag(a: char, b: char, c: char): nat {
    if a == 'C' then (if b == 'e' then 1 else if b == 'V' then 3 else if b == 'r' then 5 else if b == 'l' then 6 else 7)
    else if a == 'D' then (if b == 'B' then 5 else if b == 'N' then 6 else 1)
    else if a == 'E' || a == 'V' then 6
    else if a == 'H' then (if b == 'B' then 1 else if b == 'u' then 2 else 4)
    else if a == 'K' then 3
    else if a == 'L' then (if b == 'V' then 1 else if b == 'i' then 3 else if b == 'a' then 5 else 7)
    else if a == 'M' then (if b == 'u' then 1 else if b == 'e' then 2 else 4)
    else if a == 'N' then (if b == 'U' then 2 else 6)
    else if a == 'O' then 7
    else if a == 'P' then (if b == 'a' then 3 else if b == 'r' && c == 'e' then 2 else 7)
    else if a == 'S' then (if b == 'w' then 2 else if b == 'y' || c == 'r' then 5 else 4)
    else if a == 'T' then 4
    else 1
  }

  predicate Tagged(word: string, tag: nat) {
    |word| >= 2 && (|word| == 2 ==> word[0] == 'I' && tag == 1) &&
    (|word| > 2 ==> Tag(word[0], word[1], word[2]) == tag)
  }

  lemma TagOf(check: string, words: seq<string>, tag: nat)
    requires StartsAny(check, words) && forall k :: 0 <= k < |words| ==> Tagged(words[k], tag)
    ensures |check| >= 2 && Tag(check[0], check[1], if |check| > 2 then check[2] else ' ') == tag
  {
    var k :| 0 <= k < |words| && Starts(check, words[k]);
    assert Tagged(words[k], tag);
    assert forall j :: 0 <= j < |words[k]| ==> check[j] == words[k][j];
  }

  /** The number of a name is that of its category. */
  ghost predicate Numbered(check: string, starts: bool, tag: nat) {
    starts ==> |check| >= 2 && Tag(check[0], check[1], if |check| > 2 then check[2] else ' ') == tag
  }

  lemma FirstNumbers(check: string)
    ensures Numbered(check, StartsStorage(check), 1)
    ensures Numbered(check, StartsMemory(check), 2)
  {
    if StartsStorage(check) {
      TagOf(check, ["Disk", "RAID", "DRBD", "Multipath", "Ceph", "LVM", "ZFS", "Root FS", "Drives", "HBA", "IO",
        "Fstab"], 1);
    }
    if StartsMemory(check) {
      TagOf(check, ["Memory", "Swap", "Pressure", "NUMA", "HugePages"], 2);
    }
  }

  lemma MiddleNumbers(check: string)
    ensures Numbered(check, StartsPatches(check), 3)
    ensures Numbered(check, StartsSecurity(check), 4)
    ensures Numbered(check, StartsServices(check), 5)
  {
    if StartsPatches(check) {
      TagOf(check, ["CVE", "Packages", "Kernel", "LivePatch", "Ksplice"], 3);
    }
    if StartsSecurity(check) {
      TagOf(check, ["Hardening", "TLS", "Sessions", "Security", "MTE"], 4);
    }
    if StartsServices(check) {
      TagOf(check, ["Systemd", "Services", "ServiceRestart", "Launchd", "Cron", "DBus"], 5);
    }
  }

  lemma LastNumbers(check: string)
    ensures Numbered(check, StartsNetwork(check), 6)
    ensures Numbered(check, StartsCompute(check), 7)
  {
    if StartsNetwork(check) {
      TagOf(check, ["Network", "DNS", "Clock", "VLAN", "Entropy"], 6);
    }
    if StartsCompute(check) {
      TagOf(check, ["CPU", "Processes", "OOM", "Cgroup", "Logs", "PostBoot"], 7);
    }
  }

  /** One more word that already counts elsewhere, or that a shorter word covers. */
  lemma OneMore(check: string, words: seq<string>, word: string)
    ensures HasAnyPrefix(check, words + [word]) <==> HasAnyPrefix(check, words) || Starts(check, word)
    ensures HasAnyPrefix(check, words) <==> StartsAny(check, words)
  {
    var all := words + [word];
    assert all[|words|] == word;
    assert forall k :: 0 <= k < |words| ==> all[k] == words[k];
    assert forall w :: HasPrefix(check, w) <==> Starts(check, w);
  }

  lemma SameWords(check: string)
    ensures HasAnyPrefix(check, STORAGE) <==> StartsStorage(check)
    ensures HasAnyPrefix(check, ["Memory", "Swap", "Pressure", "NUMA", "HugePages"]) <==> StartsMemory(check)
    ensures HasAnyPrefix(check, ["CVE", "Packages", "Kernel", "LivePatch", "Ksplice"]) <==> StartsPatches(check)
    ensures HasAnyPrefix(check, ["Systemd", "Services", "ServiceRestart", "Launchd", "Cron", "DBus"])
      <==> StartsServices(check)
    ensures HasAnyPrefix(check, ["Network", "DNS", "Clock", "VLAN", "Entropy"]) <==> StartsNetwork(check)
  {
    assert forall w :: HasPrefix(check, w) <==> Starts(check, w);
  }

  /** "Pressure" is listed for two categories, and "KernelSec" after "Kernel": only the first of the two counts. */
  lemma CoveredWords(check: string)
    ensures HasAnyPrefix(check, ["CPU", "Processes", "OOM", "Cgroup", "Logs", "PostBoot", "Pressure"])
      <==> StartsCompute(check) || Starts(check, "Pressure")
    ensures HasAnyPrefix(check, ["Hardening", "TLS", "Sessions", "KernelSec", "Security", "MTE"])
      <==> StartsSecurity(check) || Starts(check, "KernelSec")
    ensures Starts(check, "Pressure") ==> StartsMemory(check)
    ensures Starts(check, "KernelSec") ==> StartsPatches(check)
  {
    var compute := ["CPU", "Processes", "OOM", "Cgroup", "Logs", "PostBoot"];
    OneMore(check, compute, "Pressure");
    assert compute + ["Pressure"] == ["CPU", "Processes", "OOM", "Cgroup", "Logs", "PostBoot", "Pressure"];
    SecurityWords(check);
    assert ["Memory", "Swap", "Pressure", "NUMA", "HugePages"][2] == "Pressure";
    if Starts(check, "KernelSec") {
      assert check[..6] == check[..9][..6] == "Kernel";
      assert ["CVE", "Packages", "Kernel", "LivePatch", "Ksplice"][2] == "Kernel";
    }
  }

  lemma SecurityWords(check: string)
    ensures HasAnyPrefix(check, ["Hardening", "TLS", "Sessions", "KernelSec", "Security", "MTE"])
      <==> StartsSecurity(check) || Starts(check, "KernelSec")
  {
    var listed := ["Hardening", "TLS", "Sessions", "KernelSec", "Security", "MTE"];
    var words := ["Hardening", "TLS", "Sessions", "Security", "MTE"];
    assert forall w :: HasPrefix(check, w) <==> Starts(check, w);
    assert forall k :: 0 <= k < |words| ==> words[k] == listed[if k < 3 then k else k + 1];
    assert listed[3] == "KernelSec";
    assert forall k :: 0 <= k < |listed| && k != 3 ==> listed[k] == words[if k < 3 then k else k - 1];
  }

  /**
   The category of every check, by the words its name may start with. The order in which the source tries the
   categories matters for two words only: "Pressure" counts as memory, and "KernelSec" as patches, not security.
   */
  lemma {:induction false} CategoryIff(check: string)
    ensures CheckCategory(check) == "storage" <==> StartsStorage(check)
    ensures CheckCategory(check) == "memory" <==> StartsMemory(check)
    ensures CheckCategory(check) == "patches" <==> StartsPatches(check)
    ensures CheckCategory(check) == "security" <==> StartsSecurity(check)
    ensures CheckCategory(check) == "services" <==> StartsServices(check)
    ensures CheckCategory(check) == "network" <==> StartsNetwork(check)
    ensures CheckCategory(check) == "compute" <==> StartsCompute(check)
    ensures CheckCategory(check) in {"storage", "memory", "patches", "security", "services", "network", "compute",
      "other"}
  {
    FirstNumbers(check);
    MiddleNumbers(check);
    LastNumbers(check);
    SameWords(check);
    CoveredWords(check);
  }
}
