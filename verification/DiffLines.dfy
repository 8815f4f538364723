/** The lines of the diff that `Migration` computes, in their order, read off the two snapshots. */
module DiffLines {
  import opened Certify
  import opened Migration
  import opened Sequences
  import opened Wrappers
  import Insights

  /** The check of this name that counts: the last one of a snapshot. */
  ghost predicate Counts(checks: seq<SnapshotCheck>, name: string, k: nat) {
    k < |checks| && checks[k].name == name && forall j :: k < j < |checks| ==> checks[j].name != name
  }

  ghost predicate Missing(checks: seq<SnapshotCheck>, name: string) {
    forall k :: 0 <= k < |checks| ==> checks[k].name != name
  }

  /** The line of a check of the later snapshot: what it was, if it was there, and what it is. */
  ghost predicate Tells(before: seq<SnapshotCheck>, ac: SnapshotCheck, e: DiffEntry) {
    && e.name == ac.name && e.after == ac.status + " " + ac.value
    && (Missing(before, ac.name) ==> e.before == " " && (e.unverified <==> ac.unverified))
    && (forall k: nat :: Counts(before, ac.name, k) ==> TellsChange(before[k], ac, e))
  }

  predicate TellsChange(bc: SnapshotCheck, ac: SnapshotCheck, e: DiffEntry) {
    e.before == bc.status + " " + bc.value && (e.unverified <==> bc.unverified || ac.unverified)
  }

  /** A check got better: both readings are verified and the later one ranks lower. */
  predicate Better(bc: SnapshotCheck, ac: SnapshotCheck) {
    !bc.unverified && !ac.unverified && Insights.Rank(ac.status) < Insights.Rank(bc.status)
  }

  /** A new problem, or another status that is not better. */
  ghost predicate GotWorse(before: seq<SnapshotCheck>, ac: SnapshotCheck) {
    || (Missing(before, ac.name) && ac.status in {"CRIT", "WARN", "INFO"})
    || (exists k: nat :: Counts(before, ac.name, k) && before[k].status != ac.status && !Better(before[k], ac))
  }

  ghost predicate GotBetter(before: seq<SnapshotCheck>, ac: SnapshotCheck) {
    exists k: nat :: Counts(before, ac.name, k) && before[k].status != ac.status && Better(before[k], ac)
  }

  /** A problem of the earlier snapshot of which the later one says nothing. */
  ghost predicate Gone(after: seq<SnapshotCheck>, bc: SnapshotCheck) {
    Missing(after, bc.name) && bc.status in {"CRIT", "WARN", "INFO"}
  }

  predicate TellsGone(bc: SnapshotCheck, e: DiffEntry) {
    e == DiffEntry(bc.name, bc.status + " " + bc.value, "absent", bc.unverified)
  }

  lemma {:induction false} LookupMeaning(checks: seq<SnapshotCheck>, name: string) returns (k: nat)
    ensures Lookup(checks, name) == None <==> Missing(checks, name)
    ensures Lookup(checks, name).Some? ==> Counts(checks, name, k) && checks[k] == Lookup(checks, name).value
    ensures forall j: nat :: Counts(checks, name, j) ==> Lookup(checks, name).Some? && j == k
  {
    k := LastSomeIsLast(checks, Named(name));
    if Lookup(checks, name).Some? {
      assert Named(name)(checks[k]) == Some(checks[k]);
      assert forall j :: k < j < |checks| ==> Named(name)(checks[j]) == None;
    }
    assert forall j :: 0 <= j < |checks| && checks[j].name == name ==> Named(name)(checks[j]).Some?;
  }

  lemma {:induction false} EntryTells(before: seq<SnapshotCheck>, ac: SnapshotCheck)
    ensures Tells(before, ac, EntryFor(before, ac))
  {
    var k := LookupMeaning(before, ac.name);
  }

  lemma {:induction false} BucketMeaning(before: seq<SnapshotCheck>, ac: SnapshotCheck)
    ensures BucketFor(before, ac) == Degraded <==> GotWorse(before, ac)
    ensures BucketFor(before, ac) == Improved <==> GotBetter(before, ac)
  {
    var k := LookupMeaning(before, ac.name);
    RankPositive(ac.status);
    if Lookup(before, ac.name).Some? {
      assert Counts(before, ac.name, k);
    }
  }

  lemma RankPositive(status: string)
    ensures Insights.Rank(status) > 0 <==> status in {"CRIT", "WARN", "INFO"}
  {
  }

  lemma VanishesIff(after: seq<SnapshotCheck>, bc: SnapshotCheck)
    ensures Vanishes(after, bc) <==> Gone(after, bc)
  {
    RankPositive(bc.status);
    if Missing(after, bc.name) {
      assert forall c :: c in after ==> c.name != bc.name;
    } else {
      var k :| 0 <= k < |after| && after[k].name == bc.name;
      assert after[k] in after;
    }
  }

  /** A part of the diff: its lines, and the positions of the checks that they tell of. */
  datatype Part = Part(at: seq<nat>, lines: seq<DiffEntry>)

  ghost predicate LinesOf(before: seq<SnapshotCheck>, after: seq<SnapshotCheck>, part: Part) {
    && |part.at| == |part.lines| && Positions(part.at, |after|)
    && forall k :: 0 <= k < |part.at| ==> Tells(before, after[part.at[k]], part.lines[k])
  }

  ghost predicate GoneLinesOf(before: seq<SnapshotCheck>, part: Part) {
    && |part.at| == |part.lines| && Positions(part.at, |before|)
    && forall k :: 0 <= k < |part.at| ==> TellsGone(before[part.at[k]], part.lines[k])
  }

  lemma {:induction false} PartMeaning(before: seq<SnapshotCheck>, after: seq<SnapshotCheck>, bucket: Bucket)
    returns (part: Part)
    ensures part.lines == Flat(after, InBucket(before, bucket)) && LinesOf(before, after, part)
    ensures forall i: nat :: i in part.at <==> i < |after| && BucketFor(before, after[i]) == bucket
  {
    var f := InBucket(before, bucket);
    var at := FlatPositions(after, f);
    part := Part(at, Flat(after, f));
    forall k | 0 <= k < |at| ensures Tells(before, after[at[k]], part.lines[k]) {
      EntryTells(before, after[at[k]]);
      assert f(after[at[k]]) == [part.lines[k]];
    }
  }

  lemma {:induction false} GoneMeaning(before: seq<SnapshotCheck>, after: seq<SnapshotCheck>) returns (part: Part)
    ensures part.lines == Flat(before, Vanished(after)) && GoneLinesOf(before, part)
    ensures forall i: nat :: i in part.at <==> i < |before| && Gone(after, before[i])
  {
    var f := Vanished(after);
    var at := FlatPositions(before, f);
    part := Part(at, Flat(before, f));
    forall i: nat | i < |before| ensures Vanishes(after, before[i]) <==> Gone(after, before[i]) {
      VanishesIff(after, before[i]);
    }
    forall k | 0 <= k < |at| ensures TellsGone(before[at[k]], part.lines[k]) {
      assert f(before[at[k]]) == [part.lines[k]];
    }
  }

  /**
   The whole diff, for any two snapshots: first what got worse, then the problems that are gone, then what got better,
   then the rest, each in the order of its snapshot, with the status and value of either side.
   */
  lemma {:induction false} DiffMeaning(before: seq<SnapshotCheck>, after: seq<SnapshotCheck>)
    returns (worse: Part, gone: Part, better: Part, same: Part)
    ensures Diff(before, after) == worse.lines + gone.lines + better.lines + same.lines
    ensures LinesOf(before, after, worse) && LinesOf(before, after, better) && LinesOf(before, after, same)
    ensures GoneLinesOf(before, gone)
    ensures forall i: nat :: i in worse.at <==> i < |after| && GotWorse(before, after[i])
    ensures forall i: nat :: i in gone.at <==> i < |before| && Gone(after, before[i])
    ensures forall i: nat :: i in better.at <==> i < |after| && GotBetter(before, after[i])
    ensures forall i: nat :: i in same.at <==> i < |after| && i !in worse.at && i !in better.at
  {
    worse := PartMeaning(before, after, Degraded);
    gone := GoneMeaning(before, after);
    better := PartMeaning(before, after, Improved);
    same := PartMeaning(before, after, Unchanged);
    forall i: nat | i < |after|
      ensures BucketFor(before, after[i]) == Degraded <==> GotWorse(before, after[i])
      ensures BucketFor(before, after[i]) == Improved <==> GotBetter(before, after[i])
    {
      BucketMeaning(before, after[i]);
    }
  }
}
