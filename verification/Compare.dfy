/** `dsd compare`: the status matrix of several hosts, the checks on which they differ, and the outlier. */
module Compare {
  import opened Wrappers
  import opened Text
  import opened Sequences

  datatype Check = Check(name: string, status: string)

  datatype Snapshot = Snapshot(hostname: string, checks: seq<Check>)

  /** Shown for a host that did not report the check. */
  const ABSENT := "—"

  /** The first status a host reports for a check. */
  function StatusIn(checks: seq<Check>, name: string): string {
    if checks == [] then ABSENT
    else if checks[0].name == name then checks[0].status
    else StatusIn(checks[1..], name)
  }

  function StatusOn(s: Snapshot, name: string): string {
    StatusIn(s.checks, name)
  }

  ghost predicate Lacks(s: Snapshot, name: string) {
    forall j :: 0 <= j < |s.checks| ==> s.checks[j].name != name
  }

  /** Entry `j` is the first that the host reports under this name. */
  ghost predicate FirstReport(s: Snapshot, name: string, j: nat) {
    j < |s.checks| && s.checks[j].name == name && forall k :: 0 <= k < j ==> s.checks[k].name != name
  }

  /** The status of the first entry with the name, and a dash where there is none. */
  lemma {:induction false} StatusIsFirst(s: Snapshot, name: string)
    ensures forall j: nat :: FirstReport(s, name, j) ==> StatusOn(s, name) == s.checks[j].status
    ensures Lacks(s, name) ==> StatusOn(s, name) == "—"
    decreases |s.checks|
  {
    if s.checks != [] {
      var rest := Snapshot(s.hostname, s.checks[1..]);
      StatusIsFirst(rest, name);
      forall j: nat | FirstReport(s, name, j) ensures StatusOn(s, name) == s.checks[j].status {
        if j > 0 {
          assert FirstReport(rest, name, j - 1);
        }
      }
    }
  }

  /** A host that lacks a check differs from every host that has it, unless the status there is the dash. */
  lemma {:induction false} AbsenceDiffers(snaps: seq<Snapshot>, name: string, i: nat, j: nat, k: nat)
    requires i < |snaps| && j < |snaps| && Lacks(snaps[i], name) && FirstReport(snaps[j], name, k)
    ensures snaps[j].checks[k].status != "—" ==> Differs(snaps, name)
    ensures snaps[j].checks[k].status in {"", "OK", "INFO", "WARN", "CRIT"} ==> Differs(snaps, name)
  {
    StatusIsFirst(snaps[i], name);
    StatusIsFirst(snaps[j], name);
    DashIsNoStatus();
    if StatusOn(snaps[i], name) != StatusOn(snaps[j], name) {
      var a, b := if i < j then i else j, if i < j then j else i;
      assert StatusOn(snaps[a], name) != StatusOn(snaps[b], name);
    }
  }

  lemma DashIsNoStatus()
    ensures "—" !in {"", "OK", "INFO", "WARN", "CRIT"}
  {
    assert "—"[0] != 'O' && "—"[0] != 'I' && "—"[0] != 'W' && "—"[0] != 'C';
  }

  /** Every check some host reports. */
  function CheckNames(snaps: seq<Snapshot>): set<string> {
    set s, c | s in snaps && c in s.checks :: c.name
  }

  predicate Ascending(names: seq<string>) {
    forall i, j :: 0 <= i < j < |names| ==> Less(names[i], names[j])
  }

  // ----- the matrix

  /** The position at which a new name goes. */
  method Place(names: seq<string>, name: string) returns (at: nat)
    requires Ascending(names) && name !in names
    ensures at <= |names|
    ensures forall k :: 0 <= k < at ==> Less(names[k], name)
    ensures forall k :: at <= k < |names| ==> Less(name, names[k])
  {
    at := |names|;
    while at > 0 && Less(name, names[at - 1])
      invariant 0 <= at <= |names|
      invariant forall k :: at <= k < |names| ==> Less(name, names[k])
    {
      at := at - 1;
    }
    if at > 0 {
      LessTotal(names[at - 1], name);
      forall k | 0 <= k < at ensures Less(names[k], name) {
        if k < at - 1 {
          LessTransitive(names[k], names[at - 1], name);
        }
      }
    }
  }

  /** sort.Strings, on names that occur once. */
  method SortStrings(names: seq<string>) returns (sorted: seq<string>)
    requires forall i, j :: 0 <= i < j < |names| ==> names[i] != names[j]
    ensures Ascending(sorted)
    ensures forall x :: x in sorted <==> x in names
  {
    sorted := [];
    for n := 0 to |names|
      invariant Ascending(sorted)
      invariant forall x :: x in sorted <==> x in names[..n]
    {
      var at := Place(sorted, names[n]);
      assert names[..n + 1] == names[..n] + [names[n]];
      assert sorted == sorted[..at] + sorted[at..];
      sorted := sorted[..at] + [names[n]] + sorted[at..];
    }
  }

  method CollectCheckNames(snaps: seq<Snapshot>) returns (names: seq<string>)
    ensures Ascending(names)
    ensures forall x :: x in names <==> x in CheckNames(snaps)
  {
    var seen: set<string> := {};
    names := [];
    for i := 0 to |snaps|
      invariant seen == CheckNames(snaps[..i])
      invariant forall x :: x in names <==> x in seen
      invariant forall a, b :: 0 <= a < b < |names| ==> names[a] != names[b]
    {
      var checks := snaps[i].checks;
      for j := 0 to |checks|
        invariant seen == CheckNames(snaps[..i]) + (set c | c in checks[..j] :: c.name)
        invariant forall x :: x in names <==> x in seen
        invariant forall a, b :: 0 <= a < b < |names| ==> names[a] != names[b]
      {
        assert checks[..j + 1] == checks[..j] + [checks[j]];
        if checks[j].name !in seen {
          seen := seen + {checks[j].name};
          names := names + [checks[j].name];
        }
      }
      assert checks[..|checks|] == checks;
    }
    assert snaps[..|snaps|] == snaps;
    names := SortStrings(names);
  }

  /** The sorted list of names is determined by the set of names. */
  lemma {:induction false} AscendingIsUnique(a: seq<string>, b: seq<string>)
    requires Ascending(a) && Ascending(b)
    requires forall x :: x in a <==> x in b
    ensures a == b
    decreases |a|
  {
    if a == [] {
      NothingIn(b);
    } else {
      LeastIsFirst(a, b);
      LeastIsFirst(b, a);
      assert a[0] == b[0] by {
        LessTotal(a[0], b[0]);
        if Less(a[0], b[0]) { NotBoth(a[0], b[0]); }
        if Less(b[0], a[0]) { NotBoth(a[0], b[0]); }
      }
      forall x ensures x in a[1..] <==> x in b[1..] {
        TailWithoutHead(a, x);
        TailWithoutHead(b, x);
      }
      AscendingIsUnique(a[1..], b[1..]);
    }
  }

  lemma NotBoth(x: string, y: string)
    ensures !(Less(x, y) && Less(y, x))
  {
    if Less(x, y) && Less(y, x) {
      LessTransitive(x, y, x);
      LessIrreflexive(x);
    }
  }

  lemma LeastIsFirst(a: seq<string>, b: seq<string>)
    requires Ascending(a) && a != [] && forall x :: x in a <==> x in b
    ensures b != [] && (b[0] == a[0] || Less(a[0], b[0]))
  {
    assert a[0] in b;
    assert b[0] in a;
  }

  lemma TailWithoutHead(a: seq<string>, x: string)
    requires Ascending(a) && a != []
    ensures x in a[1..] <==> x in a && x != a[0]
  {
    LessIrreflexive(a[0]);
    assert a == [a[0]] + a[1..];
  }

  method BuildStatusMatrix(snaps: seq<Snapshot>, checks: seq<string>) returns (m: map<string, seq<string>>)
    ensures forall name :: name in m <==> name in checks
    ensures forall name :: name in m ==> IsRow(snaps, name, m[name])
  {
    m := map[];
    for n := 0 to |checks|
      invariant forall name :: name in m <==> name in checks[..n]
      invariant forall name :: name in m ==> IsRow(snaps, name, m[name])
    {
      var statuses := BuildRow(snaps, checks[n]);
      m := m[checks[n] := statuses];
    }
  }

  ghost predicate IsRow(snaps: seq<Snapshot>, name: string, statuses: seq<string>) {
    |statuses| == |snaps| && forall i :: 0 <= i < |snaps| ==> statuses[i] == StatusOn(snaps[i], name)
  }

  method BuildRow(snaps: seq<Snapshot>, name: string) returns (statuses: seq<string>)
    ensures IsRow(snaps, name, statuses)
  {
    statuses := seq(|snaps|, _ => "");
    for i := 0 to |snaps|
      invariant |statuses| == |snaps|
      invariant forall k :: 0 <= k < i ==> statuses[k] == StatusOn(snaps[k], name)
    {
      statuses := statuses[i := ABSENT];
      var checks := snaps[i].checks;
      var j := 0;
      while j < |checks|
        invariant 0 <= j <= |checks|
        invariant |statuses| == |snaps| && statuses[i] == ABSENT
        invariant forall k :: 0 <= k < i ==> statuses[k] == StatusOn(snaps[k], name)
        invariant StatusIn(checks[j..], name) == StatusOn(snaps[i], name)
      {
        if checks[j].name == name {
          statuses := statuses[i := checks[j].status];
          break;
        }
        j := j + 1;
      }
    }
  }

  // ----- checks that differ

  /** Two hosts show different statuses for the check. */
  ghost predicate Differs(snaps: seq<Snapshot>, name: string) {
    exists i, j :: 0 <= i < j < |snaps| && StatusOn(snaps[i], name) != StatusOn(snaps[j], name)
  }

  ghost predicate Disagree(statuses: seq<string>) {
    exists i, j :: 0 <= i < j < |statuses| && statuses[i] != statuses[j]
  }

  method StatusesDiffer(statuses: seq<string>) returns (differ: bool)
    ensures differ <==> Disagree(statuses)
  {
    if |statuses| == 0 {
      return false;
    }
    var first := statuses[0];
    for k := 1 to |statuses|
      invariant forall i :: 0 <= i < k ==> statuses[i] == first
    {
      if statuses[k] != first {
        return true;
      }
    }
    return false;
  }

  lemma FreshName(names: seq<string>, n: nat)
    requires Ascending(names) && n < |names|
    ensures names[n] !in names[..n]
    ensures names[..n + 1] == names[..n] + [names[n]]
  {
    LessIrreflexive(names[n]);
  }

  /** The listed names that a set keeps. */
  ghost function Among(names: seq<string>, keep: set<string>): set<string> {
    set c | c in names && c in keep
  }

  lemma OneMoreAmong(names: seq<string>, n: nat, keep: set<string>)
    requires Ascending(names) && n < |names|
    ensures |Among(names[..n + 1], keep)| == |Among(names[..n], keep)| + if names[n] in keep then 1 else 0
  {
    FreshName(names, n);
    var before := Among(names[..n], keep);
    assert Among(names[..n + 1], keep) == before + if names[n] in keep then {names[n]} else {};
  }

  lemma AmongAll(names: seq<string>, all: set<string>, keep: set<string>)
    requires (forall x :: x in names <==> x in all) && keep <= all
    ensures Among(names, keep) == keep && names[..|names|] == names
  {
  }

  /** The checks on which two hosts differ. */
  ghost function Diverging(snaps: seq<Snapshot>): set<string> {
    set c | c in CheckNames(snaps) && Differs(snaps, c)
  }

  /** The headline's number of checks that differ. */
  method CountDiverging(snaps: seq<Snapshot>) returns (diverging: nat)
    ensures diverging == |Diverging(snaps)|
  {
    var names := CollectCheckNames(snaps);
    var matrix := BuildStatusMatrix(snaps, names);
    diverging := 0;
    for n := 0 to |names|
      invariant diverging == |Among(names[..n], Diverging(snaps))|
    {
      var statuses := matrix[names[n]];
      var differ := StatusesDiffer(statuses);
      assert differ <==> names[n] in Diverging(snaps) by {
        assert names[n] in names;
      }
      OneMoreAmong(names, n, Diverging(snaps));
      if differ {
        diverging := diverging + 1;
      }
    }
    AmongAll(names, CheckNames(snaps), Diverging(snaps));
  }

  // ----- the outlier

  /** No other host shares this host's status. */
  ghost predicate Alone(snaps: seq<Snapshot>, name: string, i: nat)
    requires i < |snaps|
  {
    forall j :: 0 <= j < |snaps| && j != i ==> StatusOn(snaps[j], name) != StatusOn(snaps[i], name)
  }

  /** The checks on which a host stands alone. */
  ghost function AloneOn(snaps: seq<Snapshot>, i: nat): set<string>
    requires i < |snaps|
  {
    set c | c in CheckNames(snaps) && Alone(snaps, c, i)
  }

  ghost function Score(snaps: seq<Snapshot>, i: nat): nat
    requires i < |snaps|
  {
    |AloneOn(snaps, i)|
  }

  /** How often each status occurs in a row. */
  method Frequencies(statuses: seq<string>) returns (freq: map<string, nat>)
    ensures forall i :: 0 <= i < |statuses| ==> statuses[i] in freq
    ensures forall i :: 0 <= i < |statuses| ==>
      (freq[statuses[i]] == 1 <==> forall j :: 0 <= j < |statuses| && j != i ==> statuses[j] != statuses[i])
  {
    freq := map[];
    for n := 0 to |statuses|
      invariant forall x :: x in freq <==> x in statuses[..n]
      invariant forall x :: x in freq ==> freq[x] == multiset(statuses[..n])[x]
    {
      assert statuses[..n + 1] == statuses[..n] + [statuses[n]];
      var x := statuses[n];
      freq := freq[x := (if x in freq then freq[x] else 0) + 1];
    }
    assert statuses[..|statuses|] == statuses;
    forall i | 0 <= i < |statuses|
      ensures freq[statuses[i]] == 1 <==> forall j :: 0 <= j < |statuses| && j != i ==> statuses[j] != statuses[i]
    {
      OccursOnce(statuses, i);
    }
  }

  lemma OccursOnce(xs: seq<string>, i: nat)
    requires i < |xs|
    ensures multiset(xs)[xs[i]] == 1 <==> forall j :: 0 <= j < |xs| && j != i ==> xs[j] != xs[i]
  {
    var before, after := xs[..i], xs[i + 1..];
    assert xs == before + [xs[i]] + after;
    assert multiset(xs) == multiset(before) + multiset{xs[i]} + multiset(after);
    assert multiset(before)[xs[i]] > 0 <==> xs[i] in before;
    assert multiset(after)[xs[i]] > 0 <==> xs[i] in after;
    forall j | 0 <= j < |xs| && j != i && xs[j] == xs[i] ensures multiset(xs)[xs[i]] != 1 {
      if j < i {
        assert before[j] == xs[j];
      } else {
        assert after[j - i - 1] == xs[j];
      }
    }
  }

  ghost predicate ScoredUpTo(snaps: seq<Snapshot>, names: seq<string>, scores: seq<nat>) {
    |scores| == |snaps| && forall i :: 0 <= i < |snaps| ==> scores[i] == |Among(names, AloneOn(snaps, i))|
  }

  /** The inner loops: one more point for every host that stands alone on this check. */
  method ScoreCheck(snaps: seq<Snapshot>, name: string, statuses: seq<string>, scores: array<nat>)
    requires IsRow(snaps, name, statuses) && scores.Length == |snaps|
    modifies scores
    ensures forall i :: 0 <= i < |snaps| ==> scores[i] == old(scores[i]) + if Alone(snaps, name, i) then 1 else 0
  {
    var freq := Frequencies(statuses);
    for i := 0 to |statuses|
      invariant forall k :: 0 <= k < i ==> scores[k] == old(scores[k]) + if Alone(snaps, name, k) then 1 else 0
      invariant forall k :: i <= k < |snaps| ==> scores[k] == old(scores[k])
    {
      if freq[statuses[i]] == 1 {
        scores[i] := scores[i] + 1;
      }
    }
  }

  method ScoreHosts(snaps: seq<Snapshot>, matrix: map<string, seq<string>>, names: seq<string>)
    returns (scores: array<nat>)
    requires Ascending(names) && forall name :: name in names ==> name in CheckNames(snaps)
    requires forall name :: name in names ==> name in matrix && IsRow(snaps, name, matrix[name])
    ensures fresh(scores) && ScoredUpTo(snaps, names, scores[..])
  {
    scores := new nat[|snaps|](_ => 0);
    for n := 0 to |names|
      invariant ScoredUpTo(snaps, names[..n], scores[..])
    {
      ghost var was := scores[..];
      ScoreCheck(snaps, names[n], matrix[names[n]], scores);
      OneMoreName(snaps, names, n, was, scores[..]);
    }
    assert names[..|names|] == names;
  }

  lemma OneMoreName(snaps: seq<Snapshot>, names: seq<string>, n: nat, was: seq<nat>, now: seq<nat>)
    requires Ascending(names) && n < |names| && ScoredUpTo(snaps, names[..n], was) && |now| == |was|
    requires names[n] in CheckNames(snaps)
    requires forall i :: 0 <= i < |snaps| ==> now[i] == was[i] + if Alone(snaps, names[n], i) then 1 else 0
    ensures ScoredUpTo(snaps, names[..n + 1], now)
  {
    forall i | 0 <= i < |snaps| ensures now[i] == |Among(names[..n + 1], AloneOn(snaps, i))| {
      OneMoreAmong(names, n, AloneOn(snaps, i));
    }
  }

  /** i is the first of the hosts that stand alone most often, and does so at all. */
  ghost predicate IsOutlier(snaps: seq<Snapshot>, i: nat) {
    && i < |snaps| && Score(snaps, i) > 0
    && (forall j :: 0 <= j < |snaps| ==> Score(snaps, j) <= Score(snaps, i))
    && (forall j :: 0 <= j < i ==> Score(snaps, j) < Score(snaps, i))
  }

  /** The first position of the largest score, or -1 where all are 0. */
  method FirstMaximum(scores: array<nat>) returns (outlierIdx: int, maxScore: nat)
    ensures -1 <= outlierIdx < scores.Length && (outlierIdx == -1 <==> maxScore == 0)
    ensures outlierIdx >= 0 ==>
      maxScore == scores[outlierIdx] && forall k :: 0 <= k < outlierIdx ==> scores[k] < maxScore
    ensures forall k :: 0 <= k < scores.Length ==> scores[k] <= maxScore
  {
    maxScore, outlierIdx := 0, -1;
    for i := 0 to scores.Length
      invariant -1 <= outlierIdx < i && (outlierIdx == -1 <==> maxScore == 0)
      invariant outlierIdx >= 0 ==>
        maxScore == scores[outlierIdx] && forall k :: 0 <= k < outlierIdx ==> scores[k] < maxScore
      invariant forall k :: 0 <= k < i ==> scores[k] <= maxScore
    {
      if scores[i] > maxScore {
        maxScore := scores[i];
        outlierIdx := i;
      }
    }
  }

  lemma ScoredAll(snaps: seq<Snapshot>, names: seq<string>, scores: seq<nat>)
    requires ScoredUpTo(snaps, names, scores) && forall x :: x in names <==> x in CheckNames(snaps)
    ensures forall i :: 0 <= i < |snaps| ==> scores[i] == Score(snaps, i)
  {
    forall i | 0 <= i < |snaps| ensures scores[i] == Score(snaps, i) {
      AmongAll(names, CheckNames(snaps), AloneOn(snaps, i));
    }
  }

  /** The outlier analysis for the hosts of one run: the host it names and on how many checks that one differs. */
  method OutlierAnalysis(snaps: seq<Snapshot>) returns (outlier: Option<(nat, nat)>)
    ensures |snaps| < 3 ==> outlier == None
    ensures outlier.Some? ==>
      |snaps| >= 3 && IsOutlier(snaps, outlier.value.0) && outlier.value.1 == Score(snaps, outlier.value.0)
    ensures |snaps| >= 3 && outlier == None ==> forall i :: 0 <= i < |snaps| ==> Score(snaps, i) == 0
  {
    var names := CollectCheckNames(snaps);
    var matrix := BuildStatusMatrix(snaps, names);
    if |snaps| < 3 {
      return None;
    }
    var scores := ScoreHosts(snaps, matrix, names);
    ScoredAll(snaps, names, scores[..]);
    var outlierIdx, maxScore := FirstMaximum(scores);
    assert forall i :: 0 <= i < |snaps| ==> scores[i] == Score(snaps, i);
    outlier := if outlierIdx >= 0 && maxScore > 0 then Some((outlierIdx, maxScore)) else None;
  }

  // ----- what the outlier means

  lemma SubsetIsSmaller<T>(a: set<T>, b: set<T>)
    requires a <= b
    ensures |a| <= |b|
  {
    assert b == a + (b - a);
  }

  /** A host is never reported to differ on more checks than the headline says differ at all. */
  lemma ScoreWithinDiverging(snaps: seq<Snapshot>, i: nat)
    requires i < |snaps| && |snaps| >= 2
    ensures Score(snaps, i) <= |Diverging(snaps)|
  {
    forall c | c in AloneOn(snaps, i) ensures c in Diverging(snaps) {
      var j := if i == 0 then 1 else 0;
      assert StatusOn(snaps[j], c) != StatusOn(snaps[i], c);
      if j < i {
        assert Differs(snaps, c);
      } else {
        assert Differs(snaps, c);
      }
    }
    SubsetIsSmaller(AloneOn(snaps, i), Diverging(snaps));
  }

  /** q undoes p, and both run over the positions below n. */
  ghost predicate Permutation(p: seq<nat>, q: seq<nat>, n: nat) {
    && |p| == n && |q| == n
    && (forall k :: 0 <= k < n ==> p[k] < n && q[p[k]] == k)
    && (forall k :: 0 <= k < n ==> q[k] < n && p[q[k]] == k)
  }

  /** The hosts of `other` are those of `snaps` in another order. */
  ghost predicate Reordered(snaps: seq<Snapshot>, other: seq<Snapshot>, p: seq<nat>, q: seq<nat>) {
    && |other| == |snaps| && Permutation(p, q, |snaps|)
    && forall k :: 0 <= k < |snaps| ==> other[k] == snaps[p[k]]
  }

  lemma SameNames(snaps: seq<Snapshot>, other: seq<Snapshot>, p: seq<nat>, q: seq<nat>)
    requires Reordered(snaps, other, p, q)
    ensures CheckNames(snaps) == CheckNames(other)
  {
    forall s ensures s in snaps <==> s in other {
      if s in snaps {
        var i :| 0 <= i < |snaps| && snaps[i] == s;
        assert other[q[i]] == snaps[p[q[i]]];
      }
    }
  }

  /** Permuting the hosts permutes their scores. */
  lemma ReorderingPermutesScores(snaps: seq<Snapshot>, other: seq<Snapshot>, p: seq<nat>, q: seq<nat>)
    requires Reordered(snaps, other, p, q)
    ensures forall k :: 0 <= k < |snaps| ==> Score(other, k) == Score(snaps, p[k])
  {
    SameNames(snaps, other, p, q);
    forall k | 0 <= k < |snaps| ensures AloneOn(other, k) == AloneOn(snaps, p[k]) {
      forall c ensures Alone(other, c, k) <==> Alone(snaps, c, p[k]) {
        AloneMoves(snaps, other, p, q, c, k);
      }
    }
  }

  lemma AloneMoves(snaps: seq<Snapshot>, other: seq<Snapshot>, p: seq<nat>, q: seq<nat>, c: string, k: nat)
    requires Reordered(snaps, other, p, q) && k < |snaps|
    ensures Alone(other, c, k) <==> Alone(snaps, c, p[k])
  {
    if Alone(other, c, k) {
      forall j | 0 <= j < |snaps| && j != p[k] ensures StatusOn(snaps[j], c) != StatusOn(snaps[p[k]], c) {
        assert other[q[j]] == snaps[p[q[j]]];
      }
    }
  }

  ghost predicate UniqueMaximum(snaps: seq<Snapshot>, i: nat) {
    && i < |snaps|
    && forall j :: 0 <= j < |snaps| && j != i ==> Score(snaps, j) < Score(snaps, i)
  }

  /** The swap of two positions. */
  function Swap(n: nat, a: nat, b: nat): seq<nat> {
    seq(n, k => if k == a then b else if k == b then a else k)
  }

  /** A host stays the reported one under every order of the hosts iff no other scores as high. */
  lemma OutlierIgnoresHostOrderIff(snaps: seq<Snapshot>, i: nat)
    requires IsOutlier(snaps, i)
    ensures UniqueMaximum(snaps, i) <==>
      forall other, p, q :: Reordered(snaps, other, p, q) ==> IsOutlier(other, q[i])
  {
    if UniqueMaximum(snaps, i) {
      forall other, p, q | Reordered(snaps, other, p, q) ensures IsOutlier(other, q[i]) {
        ReorderingPermutesScores(snaps, other, p, q);
      }
    } else {
      var j :| 0 <= j < |snaps| && j != i && Score(snaps, j) >= Score(snaps, i);
      var p := Swap(|snaps|, i, j);
      var other := seq(|snaps|, k requires 0 <= k < |snaps| => snaps[p[k]]);
      assert Reordered(snaps, other, p, p);
      ReorderingPermutesScores(snaps, other, p, p);
      assert Score(other, i) == Score(snaps, j) && Score(other, j) == Score(snaps, i);
      assert !IsOutlier(other, p[i]);
    }
  }
}
