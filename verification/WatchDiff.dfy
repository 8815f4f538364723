/** What watch mode prints between two refreshes, for every signature that tells findings apart by their message. */
module WatchDiff {
  import opened Insights
  import opened Sequences
  import opened StableSort
  import opened Text

  datatype Change = Change(insight: Insight, fromLevel: string, toLevel: string)

  datatype Delta = Delta(added: seq<Insight>, resolved: seq<Insight>, changed: seq<Change>)

  type Signature = Insight -> string

  /** The level shown for each signature; a later finding overwrites an earlier one. */
  function LevelsOf(xs: seq<Insight>, sig: Signature): map<string, string> {
    if xs == [] then map[]
    else
      var x := xs[|xs| - 1];
      LevelsOf(xs[..|xs| - 1], sig)[sig(x) := x.level]
  }

  /** The findings whose signature is not among the known ones. */
  function Unknown(known: map<string, string>, xs: seq<Insight>, sig: Signature): seq<Insight> {
    if xs == [] then []
    else
      var x := xs[|xs| - 1];
      Unknown(known, xs[..|xs| - 1], sig) + if sig(x) in known then [] else [x]
  }

  /** The findings whose signature is known at another level. */
  function Moved(known: map<string, string>, xs: seq<Insight>, sig: Signature): seq<Change> {
    if xs == [] then []
    else
      var x := xs[|xs| - 1];
      Moved(known, xs[..|xs| - 1], sig) +
        if sig(x) in known && known[sig(x)] != x.level then [Change(x, known[sig(x)], x.level)] else []
  }

  /** CRIT first, then by check. */
  predicate Louder(x: Insight, y: Insight) {
    if Rank(x.level) != Rank(y.level) then Rank(x.level) > Rank(y.level) else Less(x.check, y.check)
  }

  predicate EarlierCheck(c: Change, d: Change) {
    Less(c.insight.check, d.insight.check)
  }

  function Changes(prev: seq<Insight>, cur: seq<Insight>, sig: Signature): Delta {
    var before, after := LevelsOf(prev, sig), LevelsOf(cur, sig);
    Delta(Sorted(Unknown(before, cur, sig), Louder), Sorted(Unknown(after, prev, sig), Louder),
          Sorted(Moved(before, cur, sig), EarlierCheck))
  }

  /** InsightChanges, with the three lists sorted as they are printed. */
  method InsightChanges(prev: seq<Insight>, cur: seq<Insight>, sig: Signature)
    returns (added: seq<Insight>, resolved: seq<Insight>, changed: seq<Change>)
    ensures Delta(added, resolved, changed) == Changes(prev, cur, sig)
  {
    var prevBySig: map<string, string> := map[];
    for n := 0 to |prev|
      invariant prevBySig == LevelsOf(prev[..n], sig)
    {
      assert prev[..n + 1][..n] == prev[..n];
      prevBySig := prevBySig[sig(prev[n]) := prev[n].level];
    }
    assert prev[..|prev|] == prev;
    var curBySig: map<string, string> := map[];
    added, resolved, changed := [], [], [];
    for n := 0 to |cur|
      invariant curBySig == LevelsOf(cur[..n], sig)
      invariant added == Unknown(prevBySig, cur[..n], sig)
      invariant changed == Moved(prevBySig, cur[..n], sig)
    {
      assert cur[..n + 1][..n] == cur[..n];
      var ins := cur[n];
      var s := sig(ins);
      curBySig := curBySig[s := ins.level];
      if s !in prevBySig {
        added := added + [ins];
      } else if prevBySig[s] != ins.level {
        changed := changed + [Change(ins, prevBySig[s], ins.level)];
      }
    }
    assert cur[..|cur|] == cur;
    for n := 0 to |prev|
      invariant resolved == Unknown(curBySig, prev[..n], sig)
    {
      assert prev[..n + 1][..n] == prev[..n];
      if sig(prev[n]) !in curBySig {
        resolved := resolved + [prev[n]];
      }
    }
    assert prev[..|prev|] == prev;
    added, resolved := Sorted(added, Louder), Sorted(resolved, Louder);
    changed := Sorted(changed, EarlierCheck);
  }

  // ----- what the lists say

  lemma {:induction false} LevelsMeaning(xs: seq<Insight>, sig: Signature)
    ensures forall k :: k in LevelsOf(xs, sig) <==> exists x :: x in xs && sig(x) == k
    ensures forall k :: k in LevelsOf(xs, sig) ==> exists x :: x in xs && sig(x) == k && x.level == LevelsOf(xs, sig)[k]
    decreases |xs|
  {
    if xs != [] {
      var n := |xs| - 1;
      LevelsMeaning(xs[..n], sig);
      assert xs == xs[..n] + [xs[n]];
      assert xs[n] in xs;
    }
  }

  lemma {:induction false} UnknownMeaning(known: map<string, string>, xs: seq<Insight>, sig: Signature)
    ensures forall x :: x in Unknown(known, xs, sig) <==> x in xs && sig(x) !in known
    decreases |xs|
  {
    if xs != [] {
      var n := |xs| - 1;
      UnknownMeaning(known, xs[..n], sig);
      assert xs == xs[..n] + [xs[n]];
    }
  }

  lemma {:induction false} MovedMeaning(known: map<string, string>, xs: seq<Insight>, sig: Signature)
    ensures forall c :: c in Moved(known, xs, sig) <==>
      (c.insight in xs && sig(c.insight) in known && c.fromLevel == known[sig(c.insight)]
        && c.toLevel == c.insight.level && c.fromLevel != c.toLevel)
    decreases |xs|
  {
    if xs != [] {
      var n := |xs| - 1;
      MovedMeaning(known, xs[..n], sig);
      assert xs == xs[..n] + [xs[n]];
    }
  }

  // ----- a reader who sees only the changes

  /** `now` is what a reader who knew `known` knows after reading the changes, in whatever order they are printed. */
  ghost predicate Follows(known: map<string, string>, d: Delta, now: map<string, string>, sig: Signature) {
    && (forall k :: KeyFollows(known, d, now, sig, k))
    && (forall a :: a in d.added ==> sig(a) in now && now[sig(a)] == a.level)
    && (forall c :: c in d.changed ==> sig(c.insight) in now && now[sig(c.insight)] == c.toLevel)
  }

  /** What the reader knows of one signature: whether it is still there, and a new level only where one was printed. */
  ghost predicate KeyFollows(known: map<string, string>, d: Delta, now: map<string, string>, sig: Signature,
                             k: string) {
    && (k in now <==>
      (k in known && !(exists r :: r in d.resolved && sig(r) == k)) || (exists a :: a in d.added && sig(a) == k))
    && (k in now && k in known && now[k] != known[k] ==> exists c :: c in d.changed && sig(c.insight) == k)
  }

  /** No two findings of one refresh share a signature at different levels. */
  ghost predicate OneLevelPerSignature(xs: seq<Insight>, sig: Signature) {
    forall x, y :: x in xs && y in xs && sig(x) == sig(y) ==> x.level == y.level
  }

  lemma LevelsAgree(xs: seq<Insight>, sig: Signature)
    requires OneLevelPerSignature(xs, sig)
    ensures forall x :: x in xs ==> sig(x) in LevelsOf(xs, sig) && LevelsOf(xs, sig)[sig(x)] == x.level
  {
    LevelsMeaning(xs, sig);
  }

  lemma LouderIsAnOrder()
    ensures WeakOrder(Louder)
  {
    forall x, y, z ensures !Louder(x, x) && (Louder(x, y) && Louder(y, z) ==> Louder(x, z))
      && (Tied(Louder, x, y) && Tied(Louder, y, z) ==> Tied(Louder, x, z))
    {
      LessFacts(x.check, y.check, z.check);
    }
  }

  lemma EarlierIsAnOrder()
    ensures WeakOrder(EarlierCheck)
  {
    forall x, y, z ensures !EarlierCheck(x, x) && (EarlierCheck(x, y) && EarlierCheck(y, z) ==> EarlierCheck(x, z))
      && (Tied(EarlierCheck, x, y) && Tied(EarlierCheck, y, z) ==> Tied(EarlierCheck, x, z))
    {
      LessFacts(x.insight.check, y.insight.check, z.insight.check);
    }
  }

  lemma LessFacts(a: string, b: string, c: string)
    ensures !Less(a, a) && (Less(a, b) && Less(b, c) ==> Less(a, c))
    ensures (a == b || Less(a, b) || Less(b, a)) && (b == c || Less(b, c) || Less(c, b))
  {
    LessIrreflexive(a);
    if Less(a, b) && Less(b, c) { LessTransitive(a, b, c); }
    LessTotal(a, b);
    LessTotal(b, c);
  }

  /**
   Added and resolved findings are printed by severity, then check, and changed ones by check; those that tie are in
   the order of the refresh.
   */
  lemma {:induction false} PrintedInOrder(prev: seq<Insight>, cur: seq<Insight>, sig: Signature)
    ensures var before, after, d := LevelsOf(prev, sig), LevelsOf(cur, sig), Changes(prev, cur, sig);
      && Ordered(d.added, Louder) && Ordered(d.resolved, Louder) && Ordered(d.changed, EarlierCheck)
      && (forall e :: TiedWith(d.added, e, Louder) == TiedWith(Unknown(before, cur, sig), e, Louder))
      && (forall e :: TiedWith(d.resolved, e, Louder) == TiedWith(Unknown(after, prev, sig), e, Louder))
      && (forall e :: TiedWith(d.changed, e, EarlierCheck) == TiedWith(Moved(before, cur, sig), e, EarlierCheck))
  {
    LouderIsAnOrder();
    EarlierIsAnOrder();
    SortedIsStable(Unknown(LevelsOf(prev, sig), cur, sig), Louder);
    SortedIsStable(Unknown(LevelsOf(cur, sig), prev, sig), Louder);
    SortedIsStable(Moved(LevelsOf(prev, sig), cur, sig), EarlierCheck);
  }

  /** What that order is: CRIT before WARN before INFO, and within one severity by the name of the check. */
  lemma {:induction false} LoudestFirst(prev: seq<Insight>, cur: seq<Insight>, sig: Signature, i: nat, j: nat)
    requires i < j
    ensures var d := Changes(prev, cur, sig);
      && (j < |d.added| ==> InPrintOrder(d.added[i], d.added[j]))
      && (j < |d.resolved| ==> InPrintOrder(d.resolved[i], d.resolved[j]))
      && (j < |d.changed| ==> !Precedes(d.changed[j].insight.check, d.changed[i].insight.check))
  {
    var d := Changes(prev, cur, sig);
    PrintedInOrder(prev, cur, sig);
    if j < |d.added| {
      LessIff(d.added[j].check, d.added[i].check);
    }
    if j < |d.resolved| {
      LessIff(d.resolved[j].check, d.resolved[i].check);
    }
    if j < |d.changed| {
      LessIff(d.changed[j].insight.check, d.changed[i].insight.check);
    }
  }

  ghost predicate InPrintOrder(x: Insight, y: Insight) {
    && (y.level == "CRIT" ==> x.level == "CRIT")
    && (y.level == "WARN" ==> x.level == "CRIT" || x.level == "WARN")
    && (y.level == "INFO" ==> x.level == "CRIT" || x.level == "WARN" || x.level == "INFO")
    && (x.level == y.level ==> !Precedes(y.check, x.check))
  }

  lemma SortedMembers<T(!new)>(xs: seq<T>, before: Order<T>)
    requires WeakOrder(before)
    ensures forall x :: x in Sorted(xs, before) <==> x in xs
  {
    SortedIsStable(xs, before);
    SameElements(Sorted(xs, before), xs);
  }

  /** What each list of changes says, whatever its order. */
  ghost predicate Tells(d: Delta, prev: seq<Insight>, cur: seq<Insight>, sig: Signature) {
    var before, after := LevelsOf(prev, sig), LevelsOf(cur, sig);
    && (forall x :: x in d.added <==> x in cur && sig(x) !in before)
    && (forall x :: x in d.resolved <==> x in prev && sig(x) !in after)
    && (forall c :: c in d.changed <==>
      (c.insight in cur && sig(c.insight) in before && c.fromLevel == before[sig(c.insight)]
        && c.toLevel == c.insight.level && c.fromLevel != c.toLevel))
  }

  lemma ChangesMeaning(prev: seq<Insight>, cur: seq<Insight>, sig: Signature)
    ensures Tells(Changes(prev, cur, sig), prev, cur, sig)
  {
    LouderIsAnOrder();
    EarlierIsAnOrder();
    SortedMembers(Unknown(LevelsOf(prev, sig), cur, sig), Louder);
    SortedMembers(Unknown(LevelsOf(cur, sig), prev, sig), Louder);
    SortedMembers(Moved(LevelsOf(prev, sig), cur, sig), EarlierCheck);
    UnknownMeaning(LevelsOf(prev, sig), cur, sig);
    UnknownMeaning(LevelsOf(cur, sig), prev, sig);
    MovedMeaning(LevelsOf(prev, sig), cur, sig);
  }

  lemma {:induction false} ReaderFollows(prev: seq<Insight>, cur: seq<Insight>, sig: Signature)
    requires OneLevelPerSignature(cur, sig)
    ensures Follows(LevelsOf(prev, sig), Changes(prev, cur, sig), LevelsOf(cur, sig), sig)
  {
    ChangesMeaning(prev, cur, sig);
    LevelsAgree(cur, sig);
    forall k ensures KeyFollows(LevelsOf(prev, sig), Changes(prev, cur, sig), LevelsOf(cur, sig), sig, k) {
      OneKeyFollows(prev, cur, Changes(prev, cur, sig), sig, k);
    }
  }

  lemma {:induction false} OneKeyFollows(prev: seq<Insight>, cur: seq<Insight>, d: Delta, sig: Signature, k: string)
    requires Tells(d, prev, cur, sig)
    ensures KeyFollows(LevelsOf(prev, sig), d, LevelsOf(cur, sig), sig, k)
  {
    var before, after := LevelsOf(prev, sig), LevelsOf(cur, sig);
    LevelsMeaning(prev, sig);
    LevelsMeaning(cur, sig);
    if k in after && k in before && after[k] != before[k] {
      var x :| x in cur && sig(x) == k && x.level == after[k];
      assert Change(x, before[k], x.level) in d.changed;
    }
  }

  /** The changes tell the whole story of a refresh, whatever came before, iff no signature occurs at two levels. */
  lemma ReaderFollowsIff(cur: seq<Insight>, sig: Signature)
    ensures (forall prev :: Follows(LevelsOf(prev, sig), Changes(prev, cur, sig), LevelsOf(cur, sig), sig))
      <==> OneLevelPerSignature(cur, sig)
  {
    if OneLevelPerSignature(cur, sig) {
      forall prev ensures Follows(LevelsOf(prev, sig), Changes(prev, cur, sig), LevelsOf(cur, sig), sig) {
        ReaderFollows(prev, cur, sig);
      }
    } else {
      var x, y :| x in cur && y in cur && sig(x) == sig(y) && x.level != y.level;
      ChangesMeaning([], cur, sig);
      var d := Changes([], cur, sig);
      assert x in d.added && y in d.added;
      assert !Follows(LevelsOf([], sig), d, LevelsOf(cur, sig), sig);
    }
  }

  /** What the reader knows is determined by what was printed. */
  lemma {:induction false} FollowsIsAFunction(known: map<string, string>, d: Delta, m: map<string, string>,
                                              n: map<string, string>, sig: Signature)
    requires Follows(known, d, m, sig) && Follows(known, d, n, sig)
    ensures m == n
  {
    forall k ensures k in m <==> k in n {
      assert KeyFollows(known, d, m, sig, k) && KeyFollows(known, d, n, sig, k);
    }
    forall k | k in m ensures m[k] == n[k] {
      assert KeyFollows(known, d, m, sig, k) && KeyFollows(known, d, n, sig, k);
      if exists a :: a in d.added && sig(a) == k {
        var a :| a in d.added && sig(a) == k;
      } else if exists c :: c in d.changed && sig(c.insight) == k {
        var c :| c in d.changed && sig(c.insight) == k;
      } else {
        assert k in known;
      }
    }
  }

  lemma SameLevelsNoChange(prev: seq<Insight>, cur: seq<Insight>, sig: Signature)
    requires OneLevelPerSignature(cur, sig) && LevelsOf(prev, sig) == LevelsOf(cur, sig)
    ensures Changes(prev, cur, sig) == Delta([], [], [])
  {
    var d := Changes(prev, cur, sig);
    ChangesMeaning(prev, cur, sig);
    LevelsAgree(cur, sig);
    LevelsMeaning(prev, sig);
    NothingIn(d.added);
    NothingIn(d.resolved);
    NothingIn(d.changed);
  }

  /** "No change" is printed exactly when every level is what it was. */
  lemma NoChangeIff(prev: seq<Insight>, cur: seq<Insight>, sig: Signature)
    requires OneLevelPerSignature(cur, sig)
    ensures Changes(prev, cur, sig) == Delta([], [], []) <==> LevelsOf(prev, sig) == LevelsOf(cur, sig)
  {
    if Changes(prev, cur, sig) == Delta([], [], []) {
      ReaderFollows(prev, cur, sig);
      FollowsIsAFunction(LevelsOf(prev, sig), Delta([], [], []), LevelsOf(prev, sig), LevelsOf(cur, sig), sig);
    } else if LevelsOf(prev, sig) == LevelsOf(cur, sig) {
      SameLevelsNoChange(prev, cur, sig);
    }
  }

  /** Escalation on one signature is a change, never a resolved and a new finding. */
  lemma EscalationIsAChange(prev: seq<Insight>, cur: seq<Insight>, x: Insight, y: Insight, sig: Signature)
    requires x in prev && y in cur && sig(x) == sig(y) && x.level != y.level
    requires OneLevelPerSignature(prev, sig)
    ensures var d := Changes(prev, cur, sig);
      x !in d.resolved && y !in d.added && Change(y, x.level, y.level) in d.changed
  {
    ChangesMeaning(prev, cur, sig);
    LevelsMeaning(cur, sig);
    LevelsAgree(prev, sig);
  }

  // ----- completion order

  /** The findings of one check, in their order. */
  function WithCheck(xs: seq<Insight>, check: string): seq<Insight> {
    if xs == [] then []
    else WithCheck(xs[..|xs| - 1], check) + if xs[|xs| - 1].check == check then [xs[|xs| - 1]] else []
  }

  lemma {:induction false} TiesOfUnknown(known: map<string, string>, xs: seq<Insight>, sig: Signature, e: Insight)
    ensures TiedWith(Unknown(known, xs, sig), e, Louder)
         == TiedWith(Unknown(known, WithCheck(xs, e.check), sig), e, Louder)
    decreases |xs|
  {
    if xs != [] {
      var n := |xs| - 1;
      TiesOfUnknown(known, xs[..n], sig, e);
      var rest := WithCheck(xs[..n], e.check);
      TiedAppend(Unknown(known, xs[..n], sig), if sig(xs[n]) in known then [] else [xs[n]], e, Louder);
      TiedAppend(Unknown(known, rest, sig), if sig(xs[n]) in known then [] else [xs[n]], e, Louder);
      if xs[n].check == e.check {
        assert WithCheck(xs, e.check)[..|rest|] == rest;
      } else {
        LessTotal(e.check, xs[n].check);
        TiedWithOne(xs[n], e, Louder);
        assert WithCheck(xs, e.check) == rest;
      }
    }
  }

  lemma {:induction false} TiesOfMoved(known: map<string, string>, xs: seq<Insight>, sig: Signature, e: Change)
    ensures TiedWith(Moved(known, xs, sig), e, EarlierCheck)
         == TiedWith(Moved(known, WithCheck(xs, e.insight.check), sig), e, EarlierCheck)
    decreases |xs|
  {
    if xs != [] {
      var n := |xs| - 1;
      TiesOfMoved(known, xs[..n], sig, e);
      var rest := WithCheck(xs[..n], e.insight.check);
      var moved := if sig(xs[n]) in known && known[sig(xs[n])] != xs[n].level
        then [Change(xs[n], known[sig(xs[n])], xs[n].level)] else [];
      TiedAppend(Moved(known, xs[..n], sig), moved, e, EarlierCheck);
      TiedAppend(Moved(known, rest, sig), moved, e, EarlierCheck);
      if xs[n].check == e.insight.check {
        assert WithCheck(xs, e.insight.check)[..|rest|] == rest;
      } else {
        LessTotal(e.insight.check, xs[n].check);
        if moved != [] {
          TiedWithOne(moved[0], e, EarlierCheck);
        }
        assert WithCheck(xs, e.insight.check) == rest;
      }
    }
  }

  lemma {:induction false} UnknownReadsKeys(a: map<string, string>, b: map<string, string>, xs: seq<Insight>,
                                            sig: Signature)
    requires a.Keys == b.Keys
    ensures Unknown(a, xs, sig) == Unknown(b, xs, sig)
    decreases |xs|
  {
    if xs != [] {
      UnknownReadsKeys(a, b, xs[..|xs| - 1], sig);
    }
  }

  /** Two refreshes with the same findings in two orders print the same iff what ties is in the same order in both. */
  lemma {:induction false} ChangesAgreeIff(prev: seq<Insight>, a: seq<Insight>, b: seq<Insight>, sig: Signature)
    requires multiset(a) == multiset(b)
    ensures Changes(prev, a, sig) == Changes(prev, b, sig) <==>
      && SameTies(Unknown(LevelsOf(prev, sig), a, sig), Unknown(LevelsOf(prev, sig), b, sig), Louder)
      && SameTies(Moved(LevelsOf(prev, sig), a, sig), Moved(LevelsOf(prev, sig), b, sig), EarlierCheck)
  {
    var known := LevelsOf(prev, sig);
    LevelsMeaning(a, sig);
    LevelsMeaning(b, sig);
    SameElements(a, b);
    UnknownReadsKeys(LevelsOf(a, sig), LevelsOf(b, sig), prev, sig);
    LouderIsAnOrder();
    EarlierIsAnOrder();
    SameSizes(known, a, b, sig);
    SortsEqualIff(Unknown(known, a, sig), Unknown(known, b, sig), Louder);
    SortsEqualIff(Moved(known, a, sig), Moved(known, b, sig), EarlierCheck);
  }

  /**
   So what is printed does not depend on the order in which collectors complete, as long as the findings of each check
   keep their order.
   */
  lemma {:induction false} ChangesIgnoreCompletionOrder(prev: seq<Insight>, a: seq<Insight>, b: seq<Insight>,
                                                        sig: Signature)
    requires multiset(a) == multiset(b) && forall check :: WithCheck(a, check) == WithCheck(b, check)
    ensures Changes(prev, a, sig) == Changes(prev, b, sig)
  {
    var known := LevelsOf(prev, sig);
    forall e ensures TiedWith(Unknown(known, a, sig), e, Louder) == TiedWith(Unknown(known, b, sig), e, Louder) {
      TiesOfUnknown(known, a, sig, e);
      TiesOfUnknown(known, b, sig, e);
    }
    forall e
      ensures TiedWith(Moved(known, a, sig), e, EarlierCheck) == TiedWith(Moved(known, b, sig), e, EarlierCheck)
    {
      TiesOfMoved(known, a, sig, e);
      TiesOfMoved(known, b, sig, e);
    }
    ChangesAgreeIff(prev, a, b, sig);
  }

  lemma {:induction false} SameSizes(known: map<string, string>, a: seq<Insight>, b: seq<Insight>, sig: Signature)
    requires multiset(a) == multiset(b)
    ensures |Unknown(known, a, sig)| == |Unknown(known, b, sig)| && |Moved(known, a, sig)| == |Moved(known, b, sig)|
  {
    UnknownIsFlat(known, a, sig);
    UnknownIsFlat(known, b, sig);
    MovedIsFlat(known, a, sig);
    MovedIsFlat(known, b, sig);
    FlatPermutes(a, b, IfUnknown(known, sig));
    FlatPermutes(a, b, IfMoved(known, sig));
    SameElements(Unknown(known, a, sig), Unknown(known, b, sig));
    SameElements(Moved(known, a, sig), Moved(known, b, sig));
  }

  function IfUnknown(known: map<string, string>, sig: Signature): Insight -> seq<Insight> {
    (x: Insight) => if sig(x) in known then [] else [x]
  }

  function IfMoved(known: map<string, string>, sig: Signature): Insight -> seq<Change> {
    (x: Insight) =>
      if sig(x) in known && known[sig(x)] != x.level then [Change(x, known[sig(x)], x.level)] else []
  }

  lemma {:induction false} UnknownIsFlat(known: map<string, string>, xs: seq<Insight>, sig: Signature)
    ensures Unknown(known, xs, sig) == Flat(xs, IfUnknown(known, sig))
    decreases |xs|
  {
    if xs != [] {
      UnknownIsFlat(known, xs[..|xs| - 1], sig);
    }
  }

  lemma {:induction false} MovedIsFlat(known: map<string, string>, xs: seq<Insight>, sig: Signature)
    ensures Moved(known, xs, sig) == Flat(xs, IfMoved(known, sig))
    decreases |xs|
  {
    if xs != [] {
      MovedIsFlat(known, xs[..|xs| - 1], sig);
    }
  }

  /** The order within a check does show: two new findings of one check and level are printed as they come. */
  lemma OrderWithinACheckShows(x: Insight, y: Insight, sig: Signature)
    requires x != y && x.check == y.check && x.level == y.level
    ensures Changes([], [x, y], sig) != Changes([], [y, x], sig)
  {
    TwoTied(x, y, sig);
    TwoTied(y, x, sig);
  }

  lemma TwoTied(x: Insight, y: Insight, sig: Signature)
    requires x.check == y.check && x.level == y.level
    ensures Changes([], [x, y], sig).added == [x, y]
  {
    assert [x, y][..1] == [x];
    assert Unknown(map[], [x], sig) == [x] && Unknown(map[], [x, y], sig) == [x, y];
    LessIrreflexive(x.check);
    assert Sorted([x], Louder) == [x];
    assert Sorted([x, y], Louder) == Insert(Sorted([x], Louder), y, Louder);
  }
}
