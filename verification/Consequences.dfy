/**
 fleetConsequences of cmd/consequences.go. Go ranges over maps in an unspecified order and sorts without
 stability; here every such order is allowed, and what the bullets owe to none of them is proved.
 */
module Consequences {
  import opened Sequences
  import opened Text

  /** A group of hosts that share an issue. */
  datatype Issue = Issue(check: string, level: string, hosts: seq<string>)

  datatype Key = Key(cat: string, level: string)

  datatype Entry = Entry(cat: string, level: string, count: nat)

  predicate HasAnyPrefix(s: string, prefixes: seq<string>) {
    exists k :: 0 <= k < |prefixes| && HasPrefix(s, prefixes[k])
  }

  const STORAGE := [
    "Disk", "RAID", "DRBD", "Multipath", "Ceph", "LVM", "ZFS", "Root FS", "Drives", "HBA", "IO", "Fstab"]

  function CheckCategory(check: string): string {
    if HasAnyPrefix(check, STORAGE) then "storage"
    else if HasAnyPrefix(check, ["Memory", "Swap", "Pressure", "NUMA", "HugePages"]) then "memory"
    else if HasAnyPrefix(check, ["CVE", "Packages", "Kernel", "LivePatch", "Ksplice"]) then "patches"
    else if HasAnyPrefix(check, ["Hardening", "TLS", "Sessions", "KernelSec", "Security", "MTE"]) then "security"
    else if HasAnyPrefix(check, ["Systemd", "Services", "ServiceRestart", "Launchd", "Cron", "DBus"]) then "services"
    else if HasAnyPrefix(check, ["Network", "DNS", "Clock", "VLAN", "Entropy"]) then "network"
    else if HasAnyPrefix(check, ["CPU", "Processes", "OOM", "Cgroup", "Logs", "PostBoot", "Pressure"]) then "compute"
    else "other"
  }

  function KeyOf(g: Issue): Key {
    Key(CheckCategory(g.check), g.level)
  }

  // ----- host sets

  /** The hosts on which some issue of category and level `k` was seen. */
  function HostsWith(issues: seq<Issue>, k: Key): set<string> {
    set g, h | g in issues && KeyOf(g) == k && h in g.hosts :: h
  }

  function Keys(issues: seq<Issue>): set<Key> {
    set g | g in issues :: KeyOf(g)
  }

  method CollectHosts(issues: seq<Issue>) returns (hostSets: map<Key, set<string>>)
    ensures hostSets.Keys == Keys(issues)
    ensures forall k :: k in hostSets ==> hostSets[k] == HostsWith(issues, k)
  {
    hostSets := map[];
    for n := 0 to |issues|
      invariant hostSets.Keys == Keys(issues[..n])
      invariant forall k :: k in hostSets ==> hostSets[k] == HostsWith(issues[..n], k)
    {
      var g := issues[n];
      var k := KeyOf(g);
      assert issues[..n + 1] == issues[..n] + [g];
      assert k !in Keys(issues[..n]) ==> HostsWith(issues[..n], k) == {};
      var hosts := AddHosts(if k in hostSets then hostSets[k] else {}, g.hosts);
      hostSets := hostSets[k := hosts];
    }
    assert issues[..|issues|] == issues;
  }

  method AddHosts(hosts: set<string>, more: seq<string>) returns (all: set<string>)
    ensures all == hosts + set h | h in more
  {
    all := hosts;
    for m := 0 to |more|
      invariant all == hosts + set h | h in more[..m]
    {
      assert more[..m + 1] == more[..m] + [more[m]];
      all := all + {more[m]};
    }
    assert more[..|more|] == more;
  }

  // ----- CRIT subsumes WARN

  /** The keys that remain: every CRIT, and a WARN only in a category without a CRIT. */
  predicate Survives(keys: set<Key>, k: Key) {
    k in keys && !(k.level == "WARN" && Key(k.cat, "CRIT") in keys)
  }

  /**
   Ranging over a Go map while deleting from it: a key is visited at most once, in any order, and not
   after it was deleted.
   */
  method DropSubsumed(hostSets: map<Key, set<string>>) returns (kept: map<Key, set<string>>)
    ensures kept == map k | k in hostSets && Survives(hostSets.Keys, k) :: hostSets[k]
  {
    kept := hostSets;
    var left := hostSets.Keys;
    while left != {}
      invariant left <= kept.Keys <= hostSets.Keys
      invariant forall k :: k in kept ==> kept[k] == hostSets[k]
      invariant forall k :: k in hostSets && k !in kept ==> !Survives(hostSets.Keys, k)
      invariant forall k :: k in hostSets && k.level == "CRIT" && k !in left ==> Key(k.cat, "WARN") !in kept
      decreases left
    {
      var k :| k in left;
      left := left - {k};
      if k.level == "CRIT" {
        var warnKey := Key(k.cat, "WARN");
        kept := kept - {warnKey};
        left := left - {warnKey};
      }
    }
    assert forall k :: k in kept ==> Survives(hostSets.Keys, k);
  }

  // ----- sorting

  function EntryOf(hostSets: map<Key, set<string>>, k: Key): Entry
    requires k in hostSets
  {
    Entry(k.cat, k.level, |hostSets[k]|)
  }

  /** The entries in the order in which the map happens to yield them. */
  method ListEntries(hostSets: map<Key, set<string>>) returns (entries: seq<Entry>)
    ensures |entries| == |hostSets|
    ensures forall e :: e in entries <==> Key(e.cat, e.level) in hostSets && e == EntryOf(hostSets, Key(e.cat, e.level))
    ensures forall i, j :: 0 <= i < j < |entries| ==>
      Key(entries[i].cat, entries[i].level) != Key(entries[j].cat, entries[j].level)
  {
    entries := [];
    var left := hostSets.Keys;
    while left != {}
      invariant left <= hostSets.Keys && |entries| + |left| == |hostSets|
      invariant forall e :: e in entries <==>
        Key(e.cat, e.level) in hostSets.Keys - left && e == EntryOf(hostSets, Key(e.cat, e.level))
      invariant forall i, j :: 0 <= i < j < |entries| ==>
        Key(entries[i].cat, entries[i].level) != Key(entries[j].cat, entries[j].level)
      decreases left
    {
      var k :| k in left;
      entries := entries + [EntryOf(hostSets, k)];
      left := left - {k};
    }
  }

  /** The comparator given to sort.Slice. */
  predicate Before(a: Entry, b: Entry) {
    if a.level != b.level then a.level == "CRIT" else a.count > b.count
  }

  /** All that sort.Slice promises: a permutation in which nothing is before what precedes it. */
  ghost predicate SortOf(sorted: seq<Entry>, entries: seq<Entry>) {
    multiset(sorted) == multiset(entries) && forall i, j :: 0 <= i < j < |sorted| ==> !Before(sorted[j], sorted[i])
  }

  ghost predicate KnownLevels(entries: seq<Entry>) {
    forall e :: e in entries ==> e.level == "CRIT" || e.level == "WARN"
  }

  /** One of the sorts the comparator allows. */
  method Sort(entries: seq<Entry>) returns (sorted: seq<Entry>)
    requires KnownLevels(entries)
    ensures SortOf(sorted, entries)
  {
    sorted := [];
    for n := 0 to |entries|
      invariant SortOf(sorted, entries[..n])
    {
      assert entries[..n + 1] == entries[..n] + [entries[n]];
      SameElements(sorted, entries[..n]);
      sorted := Insert(sorted, entries[n]);
    }
    assert entries[..|entries|] == entries;
  }

  method Insert(sorted: seq<Entry>, e: Entry) returns (r: seq<Entry>)
    requires KnownLevels(sorted) && (e.level == "CRIT" || e.level == "WARN")
    requires forall i, j :: 0 <= i < j < |sorted| ==> !Before(sorted[j], sorted[i])
    ensures SortOf(r, sorted + [e])
  {
    var k := |sorted|;
    while k > 0 && Before(e, sorted[k - 1])
      invariant 0 <= k <= |sorted|
      invariant forall j :: k <= j < |sorted| ==> Before(e, sorted[j])
    {
      k := k - 1;
    }
    r := sorted[..k] + [e] + sorted[k..];
    InsertedOnce(sorted, e, k);
    InsertedInOrder(sorted, e, k);
  }

  lemma InsertedOnce(sorted: seq<Entry>, e: Entry, k: nat)
    requires k <= |sorted|
    ensures multiset(sorted[..k] + [e] + sorted[k..]) == multiset(sorted + [e])
  {
    assert sorted == sorted[..k] + sorted[k..];
  }

  lemma InsertedInOrder(sorted: seq<Entry>, e: Entry, k: nat)
    requires k <= |sorted| && forall i, j :: 0 <= i < j < |sorted| ==> !Before(sorted[j], sorted[i])
    requires forall i :: 0 <= i < k ==> !Before(e, sorted[i])
    requires forall j :: k <= j < |sorted| ==> Before(e, sorted[j]) && (e.level == "CRIT" || e.level == "WARN")
    ensures var r := sorted[..k] + [e] + sorted[k..]; forall i, j :: 0 <= i < j < |r| ==> !Before(r[j], r[i])
  {
    var r := sorted[..k] + [e] + sorted[k..];
    forall i, j | 0 <= i < j < |r| ensures !Before(r[j], r[i]) {
      var si, sj := if i < k then i else i - 1, if j < k then j else j - 1;
      assert i != k ==> r[i] == sorted[si];
      assert j != k ==> r[j] == sorted[sj];
    }
  }

  // ----- what every sort agrees on

  /** What the comparator sees of an entry. */
  function Score(e: Entry): (nat, nat) {
    (if e.level == "CRIT" then 1 else 0, e.count)
  }

  function Scores(entries: seq<Entry>): seq<(nat, nat)> {
    Flat(entries, Scoring())
  }

  function Scoring(): Entry -> seq<(nat, nat)> {
    e => [Score(e)]
  }

  predicate AtLeast(a: (nat, nat), b: (nat, nat)) {
    a.0 > b.0 || (a.0 == b.0 && a.1 >= b.1)
  }

  predicate Descending(s: seq<(nat, nat)>) {
    forall i, j :: 0 <= i < j < |s| ==> AtLeast(s[i], s[j])
  }

  lemma {:induction false} ScoresAt(entries: seq<Entry>)
    ensures |Scores(entries)| == |entries| && forall i :: 0 <= i < |entries| ==> Scores(entries)[i] == Score(entries[i])
    decreases |entries|
  {
    if entries != [] {
      ScoresAt(entries[..|entries| - 1]);
    }
  }

  /** Two descending arrangements of the same scores are the same. */
  lemma {:induction false} DescendingIsUnique(a: seq<(nat, nat)>, b: seq<(nat, nat)>)
    requires multiset(a) == multiset(b) && Descending(a) && Descending(b)
    ensures a == b
    decreases |a|
  {
    SameElements(a, b);
    if a != [] {
      assert a[0] in b && b[0] in a;
      assert a[0] == b[0];
      assert a == [a[0]] + a[1..] && b == [b[0]] + b[1..];
      assert multiset(a[1..]) == multiset(a) - multiset{a[0]} == multiset(b[1..]);
      DescendingIsUnique(a[1..], b[1..]);
    }
  }

  lemma SortedScoresDescend(sorted: seq<Entry>, entries: seq<Entry>)
    requires SortOf(sorted, entries) && KnownLevels(entries)
    ensures Descending(Scores(sorted)) && multiset(Scores(sorted)) == multiset(Scores(entries))
  {
    SameElements(sorted, entries);
    FlatPermutes(sorted, entries, Scoring());
    ScoresAt(sorted);
    forall i, j | 0 <= i < j < |sorted| ensures AtLeast(Score(sorted[i]), Score(sorted[j])) {
      assert sorted[i] in entries && sorted[j] in entries;
      assert !Before(sorted[j], sorted[i]);
    }
  }

  /** However the map was listed and the entries sorted, position by position level and count are the same. */
  lemma SortsAgreeOnLevelsAndCounts(a: seq<Entry>, b: seq<Entry>, entriesA: seq<Entry>, entriesB: seq<Entry>)
    requires SortOf(a, entriesA) && SortOf(b, entriesB) && multiset(entriesA) == multiset(entriesB)
      && KnownLevels(entriesA)
    ensures |a| == |b|
    ensures forall i :: 0 <= i < |a| ==> a[i].level == b[i].level && a[i].count == b[i].count
  {
    SameElements(entriesA, entriesB);
    SortedScoresDescend(a, entriesA);
    SortedScoresDescend(b, entriesB);
    FlatPermutes(entriesA, entriesB, Scoring());
    DescendingIsUnique(Scores(a), Scores(b));
    ScoresAt(a);
    ScoresAt(b);
    SameElements(a, entriesA);
    SameElements(b, entriesB);
    forall i | 0 <= i < |a| ensures a[i].level == b[i].level && a[i].count == b[i].count {
      assert Score(a[i]) == Scores(a)[i] == Scores(b)[i] == Score(b[i]);
      assert a[i] in entriesA && b[i] in entriesB;
    }
  }

  /** With a third level the comparator no longer determines the order: two sorts, two leading levels. */
  lemma UnknownLevelLeavesOrderOpen() returns (a: seq<Entry>, b: seq<Entry>)
    ensures SortOf(a, b) && SortOf(b, b) && |a| == |b| == 3 && a[0].level != b[0].level
  {
    var info, warn3, warn1 := Entry("memory", "INFO", 2), Entry("storage", "WARN", 3), Entry("network", "WARN", 1);
    a, b := [info, warn3, warn1], [warn3, info, warn1];
  }

  // ----- the bullets

  const MAX_BULLETS := 5

  /** Distinct categories, and for each the size of the union of its hosts at its worst level. */
  ghost predicate TruthfulEntries(issues: seq<Issue>, entries: seq<Entry>) {
    && (forall e :: e in entries <==>
          Survives(Keys(issues), Key(e.cat, e.level)) && e.count == |HostsWith(issues, Key(e.cat, e.level))|)
    && (forall i, j :: 0 <= i < j < |entries| ==>
      Key(entries[i].cat, entries[i].level) != Key(entries[j].cat, entries[j].level))
  }

  /** Some listing of the map and some sort of it lead to these bullets. */
  ghost predicate PossibleBullets(issues: seq<Issue>, bullets: seq<Entry>) {
    exists entries, sorted ::
      TruthfulEntries(issues, entries) && SortOf(sorted, entries) &&
      bullets == if |sorted| > MAX_BULLETS then sorted[..MAX_BULLETS] else sorted
  }

  ghost predicate KnownIssues(issues: seq<Issue>) {
    forall g :: g in issues ==> g.level == "CRIT" || g.level == "WARN"
  }

  /** The category, level and count that each consequence line is worded from. */
  method FleetConsequences(issues: seq<Issue>) returns (bullets: seq<Entry>)
    requires KnownIssues(issues)
    ensures PossibleBullets(issues, bullets)
  {
    if |issues| == 0 {
      assert TruthfulEntries(issues, []) && SortOf([], []);
      return [];
    }
    var entries := CountHosts(issues);
    var sorted := Sort(entries);
    bullets := Leading(sorted);
  }

  method CountHosts(issues: seq<Issue>) returns (entries: seq<Entry>)
    ensures TruthfulEntries(issues, entries)
  {
    var hostSets := CollectHosts(issues);
    var kept := DropSubsumed(hostSets);
    entries := ListEntries(kept);
    forall e ensures e in entries <==>
      Survives(Keys(issues), Key(e.cat, e.level)) && e.count == |HostsWith(issues, Key(e.cat, e.level))|
    {
      assert Key(e.cat, e.level) in kept ==> e == EntryOf(kept, Key(e.cat, e.level)) || e !in entries;
    }
  }

  method Leading(sorted: seq<Entry>) returns (bullets: seq<Entry>)
    ensures bullets == if |sorted| > MAX_BULLETS then sorted[..MAX_BULLETS] else sorted
  {
    bullets := [];
    for n := 0 to |sorted|
      invariant bullets == sorted[..if n > MAX_BULLETS then MAX_BULLETS else n]
    {
      if |bullets| >= MAX_BULLETS {
        break;
      }
      bullets := bullets + [sorted[n]];
    }
  }

  lemma DistinctElements(entries: seq<Entry>)
    requires forall i, j :: 0 <= i < j < |entries| ==>
      Key(entries[i].cat, entries[i].level) != Key(entries[j].cat, entries[j].level)
    ensures forall e :: multiset(entries)[e] == if e in entries then 1 else 0
    decreases |entries|
  {
    if entries != [] {
      var n := |entries| - 1;
      DistinctElements(entries[..n]);
      assert entries == entries[..n] + [entries[n]];
      assert entries[n] !in entries[..n];
    }
  }

  /** The bullets' levels and counts do not depend on map order or on the sort. */
  lemma BulletsAreDetermined(issues: seq<Issue>, a: seq<Entry>, b: seq<Entry>)
    requires KnownIssues(issues) && PossibleBullets(issues, a) && PossibleBullets(issues, b)
    ensures |a| == |b|
    ensures forall i :: 0 <= i < |a| ==> a[i].level == b[i].level && a[i].count == b[i].count
  {
    var ea, sa :| TruthfulEntries(issues, ea) && SortOf(sa, ea)
      && a == if |sa| > MAX_BULLETS then sa[..MAX_BULLETS] else sa;
    var eb, sb :| TruthfulEntries(issues, eb) && SortOf(sb, eb)
      && b == if |sb| > MAX_BULLETS then sb[..MAX_BULLETS] else sb;
    SameEntries(issues, ea, eb);
    SortsAgreeOnLevelsAndCounts(sa, sb, ea, eb);
  }

  lemma SameEntries(issues: seq<Issue>, a: seq<Entry>, b: seq<Entry>)
    requires TruthfulEntries(issues, a) && TruthfulEntries(issues, b)
    ensures multiset(a) == multiset(b)
  {
    DistinctElements(a);
    DistinctElements(b);
    forall e ensures multiset(a)[e] == multiset(b)[e] {
      assert e in a <==> e in b;
    }
  }

  /** At most five bullets, one per category, CRIT before WARN, counts falling within a level, all truthful. */
  lemma BulletsAreTruthful(issues: seq<Issue>, bullets: seq<Entry>)
    requires KnownIssues(issues) && PossibleBullets(issues, bullets)
    ensures |bullets| <= MAX_BULLETS
    ensures forall e :: e in bullets ==>
      Survives(Keys(issues), Key(e.cat, e.level)) && e.count == |HostsWith(issues, Key(e.cat, e.level))|
    ensures forall i, j :: 0 <= i < j < |bullets| ==> bullets[i].cat != bullets[j].cat
    ensures forall i, j :: 0 <= i < j < |bullets| ==>
      (bullets[j].level == "CRIT" ==> bullets[i].level == "CRIT") &&
      (bullets[i].level == bullets[j].level ==> bullets[i].count >= bullets[j].count)
    ensures |bullets| < MAX_BULLETS ==>
      forall k :: Survives(Keys(issues), k) ==> exists e :: e in bullets && Key(e.cat, e.level) == k
  {
    var entries, sorted :| TruthfulEntries(issues, entries) && SortOf(sorted, entries) &&
      bullets == if |sorted| > MAX_BULLETS then sorted[..MAX_BULLETS] else sorted;
    SameElements(sorted, entries);
    DistinctElements(entries);
    forall i, j | 0 <= i < j < |bullets|
      ensures bullets[i].cat != bullets[j].cat
      ensures bullets[j].level == "CRIT" ==> bullets[i].level == "CRIT"
      ensures bullets[i].level == bullets[j].level ==> bullets[i].count >= bullets[j].count
    {
      assert bullets[i] == sorted[i] && bullets[j] == sorted[j] && !Before(sorted[j], sorted[i]);
      assert sorted[i] in entries && sorted[j] in entries;
      if bullets[i].cat == bullets[j].cat {
        SameCategorySameEntry(issues, sorted[i], sorted[j]);
        TwiceInSorted(sorted, i, j);
        assert false;
      }
    }
    if |bullets| < MAX_BULLETS {
      forall k | Survives(Keys(issues), k) ensures exists e :: e in bullets && Key(e.cat, e.level) == k {
        assert Entry(k.cat, k.level, |HostsWith(issues, k)|) in entries;
      }
    }
  }

  lemma SameCategorySameEntry(issues: seq<Issue>, a: Entry, b: Entry)
    requires KnownIssues(issues) && a.cat == b.cat
    requires Survives(Keys(issues), Key(a.cat, a.level)) && a.count == |HostsWith(issues, Key(a.cat, a.level))|
    requires Survives(Keys(issues), Key(b.cat, b.level)) && b.count == |HostsWith(issues, Key(b.cat, b.level))|
    ensures a == b
  {
  }

  lemma TwiceInSorted(sorted: seq<Entry>, i: nat, j: nat)
    requires i < j < |sorted| && sorted[i] == sorted[j]
    ensures multiset(sorted)[sorted[i]] >= 2
  {
    assert sorted == sorted[..j] + [sorted[j]] + sorted[j + 1..];
    assert sorted[..j][i] == sorted[i];
    assert sorted[i] in multiset(sorted[..j]);
  }
}
