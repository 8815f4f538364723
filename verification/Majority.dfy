/**
 What `dsd compare` calls an outlier against what its comment says: the host that diverges most from the majority.
 The code counts the checks on which a host stands alone and never looks for a majority.
 */
module Majority {
  import opened Compare
  import opened Sequences
  import opened Wrappers

  /** The hosts that show a status. */
  function Holders(snaps: seq<Snapshot>, name: string, status: string): set<nat> {
    set j | 0 <= j < |snaps| && StatusOn(snaps[j], name) == status
  }

  /** More than half of the hosts show the status. */
  predicate IsMajority(snaps: seq<Snapshot>, name: string, status: string) {
    2 * |Holders(snaps, name, status)| > |snaps|
  }

  ghost predicate HasMajority(snaps: seq<Snapshot>, name: string) {
    exists status :: IsMajority(snaps, name, status)
  }

  /** The majority shows one status and this host another. */
  ghost predicate Diverges(snaps: seq<Snapshot>, name: string, i: nat)
    requires i < |snaps|
  {
    exists status :: IsMajority(snaps, name, status) && StatusOn(snaps[i], name) != status
  }

  /** The checks on which a host diverges from the majority. */
  ghost function DivergesOn(snaps: seq<Snapshot>, i: nat): set<string>
    requires i < |snaps|
  {
    set c | c in CheckNames(snaps) && Diverges(snaps, c, i)
  }

  ghost function MajorityDivergence(snaps: seq<Snapshot>, i: nat): nat
    requires i < |snaps|
  {
    |DivergesOn(snaps, i)|
  }

  // ----- in terms of the frequencies of a row

  function Positions(n: nat): set<nat> {
    if n == 0 then {} else Positions(n - 1) + {n - 1}
  }

  lemma {:induction false} CountPositions(n: nat)
    ensures |Positions(n)| == n && forall j: nat :: j in Positions(n) <==> j < n
  {
    if n > 0 {
      CountPositions(n - 1);
    }
  }

  lemma MajorityIsUnique(snaps: seq<Snapshot>, name: string, v: string, w: string)
    requires IsMajority(snaps, name, v) && IsMajority(snaps, name, w)
    ensures v == w
  {
    var a, b := Holders(snaps, name, v), Holders(snaps, name, w);
    if v != w {
      CountPositions(|snaps|);
      assert a !! b && |a + b| == |a| + |b|;
      SubsetIsSmaller(a + b, Positions(|snaps|));
      assert false;
    }
  }

  /** A host diverges iff there is a majority and its own status is not it. */
  lemma DivergesIff(snaps: seq<Snapshot>, name: string, i: nat)
    requires i < |snaps|
    ensures Diverges(snaps, name, i) <==> HasMajority(snaps, name) && !IsMajority(snaps, name, StatusOn(snaps[i], name))
  {
    if Diverges(snaps, name, i) && IsMajority(snaps, name, StatusOn(snaps[i], name)) {
      var status :| IsMajority(snaps, name, status) && StatusOn(snaps[i], name) != status;
      MajorityIsUnique(snaps, name, status, StatusOn(snaps[i], name));
    }
  }

  /** A host stands alone iff its status occurs once. */
  lemma AloneIff(snaps: seq<Snapshot>, name: string, i: nat)
    requires i < |snaps|
    ensures i in Holders(snaps, name, StatusOn(snaps[i], name))
    ensures Alone(snaps, name, i) <==> |Holders(snaps, name, StatusOn(snaps[i], name))| == 1
  {
    var holders := Holders(snaps, name, StatusOn(snaps[i], name));
    if Alone(snaps, name, i) {
      assert holders == {i};
    } else if |holders| == 1 {
      var j :| 0 <= j < |snaps| && j != i && StatusOn(snaps[j], name) == StatusOn(snaps[i], name);
      SubsetIsSmaller({i, j}, holders);
      assert false;
    }
  }

  /**
   The frequencies of a row for which the count is right: beside a majority every status that is shown is held by one
   host, and without a majority none is.
   */
  ghost predicate FrequenciesFit(snaps: seq<Snapshot>, name: string) {
    if HasMajority(snaps, name) then
      forall status :: IsMajority(snaps, name, status) || |Holders(snaps, name, status)| <= 1
    else
      forall status :: |Holders(snaps, name, status)| != 1
  }

  /** On this check the hosts that stand alone are those that diverge from the majority. */
  ghost predicate AloneIsDiverging(snaps: seq<Snapshot>, name: string) {
    forall i :: 0 <= i < |snaps| ==> (Alone(snaps, name, i) <==> Diverges(snaps, name, i))
  }

  /** Check by check: standing alone is diverging from the majority, for every host, iff the frequencies fit. */
  lemma AloneIsDivergingIff(snaps: seq<Snapshot>, name: string)
    requires |snaps| >= 3
    ensures AloneIsDiverging(snaps, name) <==> FrequenciesFit(snaps, name)
  {
    forall i | 0 <= i < |snaps|
      ensures i in Holders(snaps, name, StatusOn(snaps[i], name))
      ensures Alone(snaps, name, i) <==> |Holders(snaps, name, StatusOn(snaps[i], name))| == 1
      ensures Diverges(snaps, name, i) <==>
        HasMajority(snaps, name) && !IsMajority(snaps, name, StatusOn(snaps[i], name))
    {
      AloneIff(snaps, name, i);
      DivergesIff(snaps, name, i);
    }
    if AloneIsDiverging(snaps, name) {
      forall status | |Holders(snaps, name, status)| > 0
        ensures if HasMajority(snaps, name) then IsMajority(snaps, name, status) || |Holders(snaps, name, status)| == 1
                else |Holders(snaps, name, status)| != 1
      {
        var i :| i in Holders(snaps, name, status);
        assert StatusOn(snaps[i], name) == status;
      }
    }
  }

  /** For every host the checks on which it stands alone are those on which it diverges, iff all frequencies fit. */
  lemma ScoresMajorityIff(snaps: seq<Snapshot>)
    requires |snaps| >= 3
    ensures (forall i :: 0 <= i < |snaps| ==> AloneOn(snaps, i) == DivergesOn(snaps, i))
      <==> forall c :: c in CheckNames(snaps) ==> FrequenciesFit(snaps, c)
  {
    forall c | c in CheckNames(snaps) ensures AloneIsDiverging(snaps, c) <==> FrequenciesFit(snaps, c) {
      AloneIsDivergingIff(snaps, c);
    }
    if forall i :: 0 <= i < |snaps| ==> AloneOn(snaps, i) == DivergesOn(snaps, i) {
      forall c, i | c in CheckNames(snaps) && 0 <= i < |snaps|
        ensures Alone(snaps, c, i) <==> Diverges(snaps, c, i)
      {
        assert c in AloneOn(snaps, i) <==> c in DivergesOn(snaps, i);
      }
    }
  }

  /** Where they do, the score is the divergence, and the host that is named is one that diverges most. */
  lemma OutlierDivergesMost(snaps: seq<Snapshot>, i: nat)
    requires |snaps| >= 3 && IsOutlier(snaps, i)
    requires forall c :: c in CheckNames(snaps) ==> FrequenciesFit(snaps, c)
    ensures forall j :: 0 <= j < |snaps| ==> Score(snaps, j) == MajorityDivergence(snaps, j)
    ensures forall j :: 0 <= j < |snaps| ==> MajorityDivergence(snaps, j) <= MajorityDivergence(snaps, i)
  {
    ScoresMajorityIff(snaps);
  }

  // ----- the numbers alone

  /** The checks without a majority on which this host's status occurs once. */
  ghost function LoneWithoutMajority(snaps: seq<Snapshot>, i: nat): set<string>
    requires i < |snaps|
  {
    set c | c in CheckNames(snaps) && !HasMajority(snaps, c) && |Holders(snaps, c, StatusOn(snaps[i], c))| == 1
  }

  /** The checks with a majority on which this host's status is another and occurs more than once. */
  ghost function SharedMinority(snaps: seq<Snapshot>, i: nat): set<string>
    requires i < |snaps|
  {
    set c | c in CheckNames(snaps) && HasMajority(snaps, c) && !IsMajority(snaps, c, StatusOn(snaps[i], c))
      && |Holders(snaps, c, StatusOn(snaps[i], c))| > 1
  }

  /** The two sets of checks have in common all but the lone and the shared ones. */
  lemma ScoreSplits(snaps: seq<Snapshot>, i: nat)
    requires |snaps| >= 3 && i < |snaps|
    ensures AloneOn(snaps, i) - LoneWithoutMajority(snaps, i) == DivergesOn(snaps, i) - SharedMinority(snaps, i)
    ensures LoneWithoutMajority(snaps, i) <= AloneOn(snaps, i) && SharedMinority(snaps, i) <= DivergesOn(snaps, i)
  {
    forall c | c in CheckNames(snaps)
      ensures c in AloneOn(snaps, i) <==> |Holders(snaps, c, StatusOn(snaps[i], c))| == 1
      ensures c in DivergesOn(snaps, i) <==> HasMajority(snaps, c) && !IsMajority(snaps, c, StatusOn(snaps[i], c))
      ensures |Holders(snaps, c, StatusOn(snaps[i], c))| > 0
    {
      AloneIff(snaps, c, i);
      DivergesIff(snaps, c, i);
    }
  }

  /**
   The numbers agree for every host iff its status occurs once on as many checks without a majority as it is a
   minority shared with others: one check of each kind cancel in the score.
   */
  lemma ScoreIsDivergenceIff(snaps: seq<Snapshot>)
    requires |snaps| >= 3
    ensures (forall i :: 0 <= i < |snaps| ==> Score(snaps, i) == MajorityDivergence(snaps, i)) <==>
      (forall i :: 0 <= i < |snaps| ==> |LoneWithoutMajority(snaps, i)| == |SharedMinority(snaps, i)|)
  {
    forall i | 0 <= i < |snaps|
      ensures Score(snaps, i) - MajorityDivergence(snaps, i) ==
        |LoneWithoutMajority(snaps, i)| - |SharedMinority(snaps, i)|
    {
      ScoreSplits(snaps, i);
      SizeOfDifference(AloneOn(snaps, i), LoneWithoutMajority(snaps, i));
      SizeOfDifference(DivergesOn(snaps, i), SharedMinority(snaps, i));
    }
  }

  lemma SizeOfDifference(a: set<string>, b: set<string>)
    requires b <= a
    ensures |a - b| == |a| - |b|
  {
    assert a == (a - b) + b;
  }

  // ----- one input for each way

  /** Hosts that report one check, with these statuses. */
  function OneCheck(name: string, statuses: seq<string>): seq<Snapshot> {
    seq(|statuses|, k requires 0 <= k < |statuses| => Snapshot("", [Check(name, statuses[k])]))
  }

  lemma OneCheckShows(name: string, statuses: seq<string>)
    ensures var snaps := OneCheck(name, statuses);
      && |snaps| == |statuses|
      && (forall k :: 0 <= k < |snaps| ==> StatusOn(snaps[k], name) == statuses[k])
      && (statuses != [] ==> CheckNames(snaps) == {name})
  {
    var snaps := OneCheck(name, statuses);
    forall k | 0 <= k < |snaps| ensures snaps[k].checks == [Check(name, statuses[k])] {
    }
    if statuses != [] {
      assert snaps[0] in snaps && snaps[0].checks[0] in snaps[0].checks;
      assert forall s :: s in snaps ==> forall c :: c in s.checks ==> c.name == name;
    }
  }

  /** Whenever every host shows something else, the first host is named. */
  lemma AllDifferentNamesTheFirst(snaps: seq<Snapshot>, c: string)
    requires |snaps| >= 3 && CheckNames(snaps) == {c} && forall i :: 0 <= i < |snaps| ==> Alone(snaps, c, i)
    ensures IsOutlier(snaps, 0)
  {
    forall i | 0 <= i < |snaps| ensures Score(snaps, i) == 1 {
      assert AloneOn(snaps, i) == {c};
    }
  }

  /** "OK", "WARN" and "CRIT" on three hosts: there is no majority, and the first host is named. */
  lemma NoMajorityNamesTheFirst() returns (snaps: seq<Snapshot>)
    ensures snaps == OneCheck("Disk", ["OK", "WARN", "CRIT"])
    ensures IsOutlier(snaps, 0) && !HasMajority(snaps, "Disk") && MajorityDivergence(snaps, 0) == 0
  {
    snaps := OneCheck("Disk", ["OK", "WARN", "CRIT"]);
    OneCheckShows("Disk", ["OK", "WARN", "CRIT"]);
    AllDifferentNamesTheFirst(snaps, "Disk");
    forall status ensures !IsMajority(snaps, "Disk", status) {
      var holders := Holders(snaps, "Disk", status);
      assert holders <= {0} || holders <= {1} || holders <= {2};
      SubsetIsSmaller(holders, if holders <= {0} then {0} else if holders <= {1} then {1} else {2});
    }
    assert DivergesOn(snaps, 0) == {};
  }

  /** Three hosts "OK" and two "CRIT": two diverge from the majority, and no host is named. */
  lemma SharedMinorityNamesNobody() returns (snaps: seq<Snapshot>)
    ensures snaps == OneCheck("Disk", ["OK", "OK", "OK", "CRIT", "CRIT"])
    ensures MajorityDivergence(snaps, 3) == 1 && MajorityDivergence(snaps, 4) == 1
    ensures forall i :: 0 <= i < 5 ==> Score(snaps, i) == 0
  {
    snaps := OneCheck("Disk", ["OK", "OK", "OK", "CRIT", "CRIT"]);
    OneCheckShows("Disk", ["OK", "OK", "OK", "CRIT", "CRIT"]);
    forall i | 0 <= i < 5 ensures AloneOn(snaps, i) == {} {
      var j := if i == 0 then 1 else if i <= 2 then 0 else if i == 3 then 4 else 3;
      assert StatusOn(snaps[j], "Disk") == StatusOn(snaps[i], "Disk");
    }
    assert Holders(snaps, "Disk", "OK") == {0, 1, 2};
    assert IsMajority(snaps, "Disk", "OK");
    assert DivergesOn(snaps, 3) == {"Disk"} && DivergesOn(snaps, 4) == {"Disk"};
  }

  /** Two hosts "OK" and two "CRIT": a check that differs without a majority does no harm where nobody is alone. */
  lemma EvenSplitNamesNobody() returns (snaps: seq<Snapshot>)
    ensures snaps == OneCheck("Disk", ["OK", "OK", "CRIT", "CRIT"])
    ensures Differs(snaps, "Disk") && !HasMajority(snaps, "Disk")
    ensures forall i :: 0 <= i < 4 ==> Score(snaps, i) == 0 && MajorityDivergence(snaps, i) == 0
  {
    snaps := OneCheck("Disk", ["OK", "OK", "CRIT", "CRIT"]);
    OneCheckShows("Disk", ["OK", "OK", "CRIT", "CRIT"]);
    assert StatusOn(snaps[0], "Disk") != StatusOn(snaps[2], "Disk");
    forall i | 0 <= i < 4 ensures AloneOn(snaps, i) == {} {
      var j := if i == 0 then 1 else if i == 1 then 0 else if i == 2 then 3 else 2;
      assert StatusOn(snaps[j], "Disk") == StatusOn(snaps[i], "Disk");
    }
    forall status ensures !IsMajority(snaps, "Disk", status) {
      var holders := Holders(snaps, "Disk", status);
      assert holders <= {0, 1} || holders <= {2, 3};
      SubsetIsSmaller(holders, if holders <= {0, 1} then {0, 1} else {2, 3});
    }
    assert forall i :: 0 <= i < 4 ==> DivergesOn(snaps, i) == {};
  }
}
