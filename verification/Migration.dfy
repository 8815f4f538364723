/**
 Certification of a migration end to end: ComputeDiff of internal/baseline/baseline.go composed with
 certifyVerdict, so that the verdict is stated on the two snapshots and not on the text of a diff.
 */
module Migration {
  import opened Certify
  import Insights
  import opened Sequences
  import opened Text
  import opened Wrappers

  datatype SnapshotCheck = SnapshotCheck(name: string, status: string, value: string, unverified: bool)

  // ----- ComputeDiff

  function Named(name: string): SnapshotCheck -> Option<SnapshotCheck> {
    (c: SnapshotCheck) => if c.name == name then Some(c) else None
  }

  /** The check that a map filled in list order holds for `name`. */
  function Lookup(checks: seq<SnapshotCheck>, name: string): Option<SnapshotCheck> {
    LastSome(checks, Named(name))
  }

  function Line(c: SnapshotCheck): string {
    c.status + " " + c.value
  }

  datatype Bucket = Degraded | Improved | Unchanged

  function EntryFor(before: seq<SnapshotCheck>, ac: SnapshotCheck): DiffEntry {
    match Lookup(before, ac.name)
    case None => DiffEntry(ac.name, " ", Line(ac), ac.unverified)
    case Some(bc) => DiffEntry(ac.name, Line(bc), Line(ac), bc.unverified || ac.unverified)
  }

  function BucketFor(before: seq<SnapshotCheck>, ac: SnapshotCheck): Bucket {
    match Lookup(before, ac.name)
    case None => if Insights.Rank(ac.status) > 0 then Degraded else Unchanged
    case Some(bc) =>
      var changed := bc.status != ac.status;
      var improved := !(bc.unverified || ac.unverified) && Insights.Rank(ac.status) < Insights.Rank(bc.status);
      if changed && !improved then Degraded else if changed && improved then Improved else Unchanged
  }

  function InBucket(before: seq<SnapshotCheck>, bucket: Bucket): SnapshotCheck -> seq<DiffEntry> {
    ac => if BucketFor(before, ac) == bucket then [EntryFor(before, ac)] else []
  }

  function Names(checks: seq<SnapshotCheck>): set<string> {
    set c | c in checks :: c.name
  }

  predicate Vanishes(after: seq<SnapshotCheck>, bc: SnapshotCheck) {
    bc.name !in Names(after) && Insights.Rank(bc.status) > 0
  }

  function VanishedEntry(bc: SnapshotCheck): DiffEntry {
    DiffEntry(bc.name, Line(bc), "absent", bc.unverified)
  }

  function Vanished(after: seq<SnapshotCheck>): SnapshotCheck -> seq<DiffEntry> {
    bc => if Vanishes(after, bc) then [VanishedEntry(bc)] else []
  }

  function Diff(before: seq<SnapshotCheck>, after: seq<SnapshotCheck>): seq<DiffEntry> {
    Flat(after, InBucket(before, Degraded)) + Flat(before, Vanished(after))
    + Flat(after, InBucket(before, Improved)) + Flat(after, InBucket(before, Unchanged))
  }

  method IndexByName(checks: seq<SnapshotCheck>) returns (byName: map<string, SnapshotCheck>)
    ensures forall name :: name in byName <==> Lookup(checks, name).Some?
    ensures forall name :: name in byName ==> byName[name] == Lookup(checks, name).value
  {
    byName := map[];
    for n := 0 to |checks|
      invariant forall name :: name in byName <==> Lookup(checks[..n], name).Some?
      invariant forall name :: name in byName ==> byName[name] == Lookup(checks[..n], name).value
    {
      assert checks[..n + 1][..n] == checks[..n];
      byName := byName[checks[n].name := checks[n]];
    }
    assert checks[..|checks|] == checks;
  }

  method ComputeDiff(before: seq<SnapshotCheck>, after: seq<SnapshotCheck>) returns (diff: seq<DiffEntry>)
    ensures diff == Diff(before, after)
  {
    var beforeMap := IndexByName(before);
    var degraded: seq<DiffEntry>, improved: seq<DiffEntry>, same: seq<DiffEntry> := [], [], [];
    var seen: set<string> := {};
    for n := 0 to |after|
      invariant seen == Names(after[..n])
      invariant degraded == Flat(after[..n], InBucket(before, Degraded))
      invariant improved == Flat(after[..n], InBucket(before, Improved))
      invariant same == Flat(after[..n], InBucket(before, Unchanged))
    {
      var ac := after[n];
      assert after[..n + 1][..n] == after[..n];
      NamesOneMore(after, n);
      seen := seen + {ac.name};
      var d, bucket := Classify(before, beforeMap, ac);
      match bucket
      case Degraded => degraded := degraded + [d];
      case Improved => improved := improved + [d];
      case Unchanged => same := same + [d];
    }
    assert after[..|after|] == after;
    var gone := VanishedChecks(before, after, seen);
    diff := degraded + gone + improved + same;
  }

  lemma NamesOneMore(checks: seq<SnapshotCheck>, n: nat)
    requires n < |checks|
    ensures Names(checks[..n + 1]) == Names(checks[..n]) + {checks[n].name}
  {
    assert checks[..n + 1] == checks[..n] + [checks[n]];
    assert forall c :: c in checks[..n + 1] <==> c in checks[..n] || c == checks[n];
  }

  method Classify(ghost before: seq<SnapshotCheck>, beforeMap: map<string, SnapshotCheck>, ac: SnapshotCheck)
    returns (d: DiffEntry, bucket: Bucket)
    requires forall name :: name in beforeMap <==> Lookup(before, name).Some?
    requires forall name :: name in beforeMap ==> beforeMap[name] == Lookup(before, name).value
    ensures d == EntryFor(before, ac) && bucket == BucketFor(before, ac)
  {
    if ac.name !in beforeMap {
      d := DiffEntry(ac.name, " ", Line(ac), ac.unverified);
      return d, if Insights.Rank(ac.status) > 0 then Degraded else Unchanged;
    }
    var bc := beforeMap[ac.name];
    d := DiffEntry(ac.name, Line(bc), Line(ac), bc.unverified || ac.unverified);
    var changed := bc.status != ac.status;
    var improved := if d.unverified then false else Insights.Rank(ac.status) < Insights.Rank(bc.status);
    if changed && !improved {
      bucket := Degraded;
    } else if changed && improved {
      bucket := Improved;
    } else {
      bucket := Unchanged;
    }
  }

  method VanishedChecks(before: seq<SnapshotCheck>, after: seq<SnapshotCheck>, seen: set<string>)
    returns (gone: seq<DiffEntry>)
    requires seen == Names(after)
    ensures gone == Flat(before, Vanished(after))
  {
    gone := [];
    for n := 0 to |before|
      invariant gone == Flat(before[..n], Vanished(after))
    {
      var bc := before[n];
      assert before[..n + 1][..n] == before[..n];
      if bc.name in seen || Insights.Rank(bc.status) == 0 {
        continue;
      }
      gone := gone + [DiffEntry(bc.name, Line(bc), "absent", bc.unverified)];
    }
    assert before[..|before|] == before;
  }

  /** The buckets order the diff; between them they hold every check once. */
  lemma DiffMembers(before: seq<SnapshotCheck>, after: seq<SnapshotCheck>, e: DiffEntry)
    ensures e in Diff(before, after) <==>
      (exists ac :: ac in after && e == EntryFor(before, ac)) ||
      (exists bc :: bc in before && Vanishes(after, bc) && e == VanishedEntry(bc))
  {
    FlatMembers(after, InBucket(before, Degraded), e);
    FlatMembers(before, Vanished(after), e);
    FlatMembers(after, InBucket(before, Improved), e);
    FlatMembers(after, InBucket(before, Unchanged), e);
    if exists ac :: ac in after && e == EntryFor(before, ac) {
      var ac :| ac in after && e == EntryFor(before, ac);
      assert e in InBucket(before, BucketFor(before, ac))(ac);
    }
    if exists bc :: bc in before && Vanishes(after, bc) && e == VanishedEntry(bc) {
      var bc :| bc in before && Vanishes(after, bc) && e == VanishedEntry(bc);
      assert e in Vanished(after)(bc);
    }
  }

  // ----- the round trip of a status through the text of a diff

  predicate Known(status: string) {
    status == "OK" || status == "INFO" || status == "WARN" || status == "CRIT"
  }

  ghost predicate KnownStatuses(checks: seq<SnapshotCheck>) {
    forall c :: c in checks ==> Known(c.status)
  }

  /** firstToken recovers the status that ComputeDiff wrote before the value, whatever the value is. */
  lemma FirstTokenRoundTrip(status: string, value: string)
    requires status != "" && forall k :: 0 <= k < |status| ==> !IsSpace(status[k])
    ensures FirstToken(status + " " + value) == status
  {
    var s := status + " " + value;
    assert s[0] == status[0];
    TrimSpaceShape(s);
    var t := TrimSpace(s);
    assert s[|status| - 1] == status[|status| - 1];
    assert |t| >= |status|;
    assert t[..|status|] == status;
    IndexMeaning(t, " ");
    forall k | 0 <= k < |status| ensures !HasPrefix(t[k..], " ") {
      assert t[k..][0] == status[k] && IsSpace(' ');
    }
    if |t| > |status| {
      assert t[|status|] == s[|status|] == ' ' && HasPrefix(t[|status|..], " ");
      IndexIs(t, " ", |status|);
    } else {
      assert t == status && t[|status|..] == "";
      assert !Contains(t, " ");
    }
  }

  lemma {:induction false} StatusRoundTrip(c: SnapshotCheck)
    requires Known(c.status)
    ensures FirstToken(Line(c)) == c.status && StatusSeverity(c.status) == Insights.Rank(c.status)
      && !IsAbsent(c.status)
  {
    KnownHasNoBlank(c.status);
    FirstTokenRoundTrip(c.status, c.value);
  }

  lemma KnownHasNoBlank(status: string)
    requires Known(status)
    ensures status != "" && forall k :: 0 <= k < |status| ==> !IsSpace(status[k])
  {
  }

  lemma BlankAndAbsent()
    ensures StatusSeverity(FirstToken(" ")) == 0 && IsAbsent(FirstToken("absent"))
  {
    assert TrimLeft(" ") == TrimLeft(" "[1..]) == "";
    assert FirstToken(" ") == "" && StatusSeverity("") == 0;
    assert !IsSpace("absent"[0]) && !IsSpace("absent"[5]);
    TrimSpaceShape("absent");
    assert |TrimSpace("absent")| == 6;
    IndexMeaning("absent", " ");
    forall k | 0 <= k <= 6 ensures !HasPrefix("absent"[k..], " ") {
      assert k < 6 ==> "absent"[k..][0] == "absent"[k];
    }
    assert FirstToken("absent") == "absent";
  }

  // ----- the verdict on the snapshots

  function RankBefore(before: seq<SnapshotCheck>, name: string): nat {
    match Lookup(before, name)
    case Some(bc) => Insights.Rank(bc.status)
    case None => 0
  }

  /** The check is worse on the destination, or was a confirmed problem and can no longer be measured. */
  predicate Worse(before: seq<SnapshotCheck>, ac: SnapshotCheck) {
    Insights.Rank(ac.status) > RankBefore(before, ac.name) || (RankBefore(before, ac.name) >= 2 && ac.status == "INFO")
  }

  lemma {:induction false} EntryJudged(before: seq<SnapshotCheck>, ac: SnapshotCheck)
    requires KnownStatuses(before) && Known(ac.status)
    ensures var e := EntryFor(before, ac);
      !Absent(e) && Certify.Before(e) == RankBefore(before, ac.name) && After(e) == Insights.Rank(ac.status)
  {
    StatusRoundTrip(ac);
    BlankAndAbsent();
    LastSomeMeaning(before, Named(ac.name));
    match Lookup(before, ac.name)
    case Some(bc) => StatusRoundTrip(bc);
    case None =>
  }

  /**
   What a certified verdict says about the two hosts: FAIL exactly when some check is critical on the
   destination and was not on the source, PASS exactly when no check is worse and no check vanished whose
   source reading was itself a problem that could not be verified.
   */
  lemma {:induction false} CertifiedMigration(before: seq<SnapshotCheck>, after: seq<SnapshotCheck>)
    requires KnownStatuses(before) && KnownStatuses(after)
    ensures Certified(Diff(before, after)).verdict == Fail <==>
      exists ac :: ac in after && ac.status == "CRIT" && RankBefore(before, ac.name) < 3
    ensures Certified(Diff(before, after)).verdict == Pass <==>
      (forall ac :: ac in after ==> !Worse(before, ac)) &&
      (forall bc :: bc in before && Vanishes(after, bc) ==> !bc.unverified)
  {
    var diff := Diff(before, after);
    FailIffNewlyCritical(diff);
    CertifiedMeaning(diff);
    forall e ensures e in diff <==>
      (exists ac :: ac in after && e == EntryFor(before, ac)) ||
      (exists bc :: bc in before && Vanishes(after, bc) && e == VanishedEntry(bc))
    {
      DiffMembers(before, after, e);
    }
    forall ac | ac in after
      ensures EntryFor(before, ac) in diff
      ensures VerdictOf(EntryFor(before, ac)) == Pass <==> !Worse(before, ac)
      ensures VerdictOf(EntryFor(before, ac)) == Fail <==> ac.status == "CRIT" && RankBefore(before, ac.name) < 3
    {
      EntryJudged(before, ac);
    }
    BlankAndAbsent();
    forall bc | bc in before && Vanishes(after, bc)
      ensures VanishedEntry(bc) in diff
      ensures VerdictOf(VanishedEntry(bc)) != Fail && (VerdictOf(VanishedEntry(bc)) == Pass <==> !bc.unverified)
    {
    }
  }

  /**
   A literal case: a WARN that was measured on the source vanishes, and the migration passes, whatever the
   destination could confirm. The same check with an unverified source reading does not pass.
   */
  lemma VanishedWarningPasses() returns (before: seq<SnapshotCheck>, unsure: seq<SnapshotCheck>)
    ensures before == [SnapshotCheck("Backup", "WARN", "last backup 9d ago", false)]
    ensures unsure == [before[0].(unverified := true)]
    ensures Certified(Diff(before, [])).verdict == Pass && Certified(Diff(unsure, [])).verdict == Warn
  {
    before := [SnapshotCheck("Backup", "WARN", "last backup 9d ago", false)];
    unsure := [before[0].(unverified := true)];
    CertifiedMigration(before, []);
    CertifiedMigration(unsure, []);
    assert unsure[0] in unsure && Vanishes([], unsure[0]);
  }

  /**
   The unconfirmed absences of a computed diff say that the SOURCE reading was unverified; nothing about
   the destination enters, contrary to what certifyVerdict's documentation takes the flag to mean.
   */
  lemma AbsenceFlagIsTheSources(before: seq<SnapshotCheck>, after: seq<SnapshotCheck>, e: DiffEntry)
    requires KnownStatuses(before) && KnownStatuses(after) && e in Diff(before, after) && Absent(e)
    ensures exists bc :: bc in before && bc.name == e.name && Vanishes(after, bc) && (Unconfirmed(e) <==> bc.unverified)
  {
    DiffMembers(before, after, e);
    if exists ac :: ac in after && e == EntryFor(before, ac) {
      var ac :| ac in after && e == EntryFor(before, ac);
      EntryJudged(before, ac);
    }
  }
}
