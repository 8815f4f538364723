/** healthFixGroups of cmd/explain.go: the fixes of the worst findings by check, deduplicated on `check|command`. */
module FixGroups {
  import opened Insights
  import opened Text
  import opened Wrappers

  datatype Fix = Fix(check: string, cmd: string)

  datatype Group = Group(check: string, cmds: seq<string>)

  // ----- extraction

  predicate IsControl(c: char) {
    c < ' ' || c == '\U{7F}'
  }

  function Stripped(cmd: string): (r: string)
    ensures |r| == |cmd| && forall k :: 0 <= k < |r| ==> r[k] == if IsControl(cmd[k]) then ' ' else cmd[k]
  {
    seq(|cmd|, k requires 0 <= k < |cmd| => if IsControl(cmd[k]) then ' ' else cmd[k])
  }

  function SanitizeFixCmd(cmd: string): string {
    TrimSpace(Stripped(cmd))
  }

  const TO_FIX := "to fix:"

  /** The command that a hint asks to run, if it is a fix hint at all. */
  function CommandOf(hint: string): Option<string> {
    if !HasPrefix(hint, TO_FIX) then None
    else
      var cmd := SanitizeFixCmd(TrimSpace(hint[|TO_FIX|..]));
      if cmd == "" then None else Some(cmd)
  }

  function FixesOfHints(check: string, hints: seq<string>): seq<Fix> {
    if hints == [] then []
    else
      FixesOfHints(check, hints[..|hints| - 1]) +
      match CommandOf(hints[|hints| - 1])
      case Some(cmd) => [Fix(check, cmd)]
      case None => []
  }

  function Fixes(insights: seq<Insight>): seq<Fix> {
    if insights == [] then []
    else
      var ins := insights[|insights| - 1];
      Fixes(insights[..|insights| - 1])
      + if ins.level != "WARN" && ins.level != "CRIT" then [] else FixesOfHints(ins.check, ins.hints)
  }

  // ----- grouping

  function KeyOf(f: Fix): string {
    f.check + "|" + f.cmd
  }

  predicate Seen(fixes: seq<Fix>, key: string) {
    exists k :: 0 <= k < |fixes| && KeyOf(fixes[k]) == key
  }

  function Position(groups: seq<Group>, check: string): Option<nat> {
    if groups == [] then None
    else if Position(groups[..|groups| - 1], check).Some? then Position(groups[..|groups| - 1], check)
    else if groups[|groups| - 1].check == check then Some(|groups| - 1)
    else None
  }

  lemma {:induction false} PositionMeaning(groups: seq<Group>, check: string)
    ensures Position(groups, check) == None ==> forall k :: 0 <= k < |groups| ==> groups[k].check != check
    ensures Position(groups, check).Some? ==>
      Position(groups, check).value < |groups| && groups[Position(groups, check).value].check == check
    decreases |groups|
  {
    if groups != [] { PositionMeaning(groups[..|groups| - 1], check); }
  }

  function Added(groups: seq<Group>, f: Fix): seq<Group> {
    PositionMeaning(groups, f.check);
    match Position(groups, f.check)
    case Some(k) => groups[k := Group(f.check, groups[k].cmds + [f.cmd])]
    case None => groups + [Group(f.check, [f.cmd])]
  }

  function Grouped(fixes: seq<Fix>): seq<Group> {
    if fixes == [] then []
    else
      var before, f := fixes[..|fixes| - 1], fixes[|fixes| - 1];
      if Seen(before, KeyOf(f)) then Grouped(before) else Added(Grouped(before), f)
  }

  /** `idx` finds the group of a check, `seen` holds the keys met so far. */
  ghost predicate Tracks(groups: seq<Group>, idx: map<string, nat>, seen: set<string>, fixes: seq<Fix>) {
    && groups == Grouped(fixes)
    && (forall key :: key in seen <==> Seen(fixes, key))
    && (forall check :: check in idx <==> Position(groups, check).Some?)
    && (forall check :: check in idx ==> Position(groups, check) == Some(idx[check]))
  }

  method AddFix(groups: seq<Group>, idx: map<string, nat>, seen: set<string>, ghost fixes: seq<Fix>, f: Fix)
    returns (groups': seq<Group>, idx': map<string, nat>, seen': set<string>)
    requires Tracks(groups, idx, seen, fixes)
    ensures Tracks(groups', idx', seen', fixes + [f])
  {
    groups', idx', seen' := groups, idx, seen;
    var key := KeyOf(f);
    assert (fixes + [f])[..|fixes|] == fixes;
    SeenOneMore(fixes, f);
    if key in seen {
      return;
    }
    seen' := seen + {key};
    PositionMeaning(groups, f.check);
    PositionsAfterAdding(groups, f);
    if f.check in idx {
      var gi := idx[f.check];
      groups' := groups[gi := Group(f.check, groups[gi].cmds + [f.cmd])];
    } else {
      idx' := idx[f.check := |groups|];
      groups' := groups + [Group(f.check, [f.cmd])];
    }
  }

  lemma SeenOneMore(before: seq<Fix>, f: Fix)
    ensures forall key :: Seen(before + [f], key) <==> Seen(before, key) || key == KeyOf(f)
  {
    var all := before + [f];
    assert all[|before|] == f;
    forall key | Seen(before, key) ensures Seen(all, key) {
      var k :| 0 <= k < |before| && KeyOf(before[k]) == key;
      assert all[k] == before[k];
    }
  }

  lemma {:induction false} PositionReadsChecks(a: seq<Group>, b: seq<Group>, check: string)
    requires |a| == |b| && forall k :: 0 <= k < |a| ==> a[k].check == b[k].check
    ensures Position(a, check) == Position(b, check)
    decreases |a|
  {
    if a != [] { PositionReadsChecks(a[..|a| - 1], b[..|b| - 1], check); }
  }

  function PositionThen(groups: seq<Group>, f: Fix, check: string): Option<nat> {
    if check == f.check && Position(groups, check) == None then Some(|groups|) else Position(groups, check)
  }

  lemma PositionsAfterAdding(groups: seq<Group>, f: Fix)
    ensures forall check :: Position(Added(groups, f), check) == PositionThen(groups, f, check)
  {
    PositionMeaning(groups, f.check);
    var added := Added(groups, f);
    forall check ensures Position(added, check) == PositionThen(groups, f, check) {
      if Position(groups, f.check).Some? {
        PositionReadsChecks(added, groups, check);
      } else {
        assert added[..|groups|] == groups;
      }
    }
  }

  method HealthFixGroups(insights: seq<Insight>) returns (groups: seq<Group>)
    ensures groups == Grouped(Fixes(insights))
  {
    groups := [];
    var idx: map<string, nat>, seen: set<string> := map[], {};
    for n := 0 to |insights|
      invariant Tracks(groups, idx, seen, Fixes(insights[..n]))
    {
      var ins := insights[n];
      assert insights[..n + 1][..n] == insights[..n];
      assert Fixes(insights[..n]) + [] == Fixes(insights[..n]);
      if ins.level != "WARN" && ins.level != "CRIT" {
        continue;
      }
      groups, idx, seen := AddHints(groups, idx, seen, Fixes(insights[..n]), ins.check, ins.hints);
    }
    assert insights[..|insights|] == insights;
  }

  method AddHints(groups: seq<Group>, idx: map<string, nat>, seen: set<string>, ghost fixes: seq<Fix>, check: string,
                  hints: seq<string>)
    returns (groups': seq<Group>, idx': map<string, nat>, seen': set<string>)
    requires Tracks(groups, idx, seen, fixes)
    ensures Tracks(groups', idx', seen', fixes + FixesOfHints(check, hints))
  {
    groups', idx', seen' := groups, idx, seen;
    ghost var met := fixes;
    assert fixes + [] == fixes;
    for k := 0 to |hints|
      invariant met == fixes + FixesOfHints(check, hints[..k])
      invariant Tracks(groups', idx', seen', met)
    {
      assert hints[..k + 1][..k] == hints[..k];
      match CommandOf(hints[k])
      case Some(cmd) =>
        var f := Fix(check, cmd);
        groups', idx', seen' := AddFix(groups', idx', seen', met, f);
        met := met + [f];
      case None =>
    }
    assert hints[..|hints|] == hints;
  }

  // ----- what the groups are

  predicate Listed(groups: seq<Group>, f: Fix) {
    exists k :: 0 <= k < |groups| && groups[k].check == f.check && f.cmd in groups[k].cmds
  }

  /** The first fix with its key. */
  ghost predicate First(fixes: seq<Fix>, k: nat) {
    k < |fixes| && !Seen(fixes[..k], KeyOf(fixes[k]))
  }

  ghost predicate DistinctChecks(groups: seq<Group>) {
    forall i, j :: 0 <= i < j < |groups| ==> groups[i].check != groups[j].check
  }

  ghost predicate GoodGroup(g: Group) {
    g.cmds != [] && forall i, j :: 0 <= i < j < |g.cmds| ==> g.cmds[i] != g.cmds[j]
  }

  lemma AddedLists(groups: seq<Group>, f: Fix)
    requires DistinctChecks(groups)
    ensures DistinctChecks(Added(groups, f))
    ensures forall h :: Listed(Added(groups, f), h) <==> Listed(groups, h) || h == f
  {
    PositionMeaning(groups, f.check);
    var added := Added(groups, f);
    match Position(groups, f.check)
    case Some(k) =>
      forall h ensures Listed(added, h) <==> Listed(groups, h) || h == f {
        if h.check == f.check {
          assert added[k].check == h.check;
        } else if Listed(groups, h) {
          var i :| 0 <= i < |groups| && groups[i].check == h.check && h.cmd in groups[i].cmds;
          assert added[i] == groups[i];
        }
      }
    case None =>
      assert added[|groups|] == Group(f.check, [f.cmd]);
      forall h | Listed(groups, h) ensures Listed(added, h) {
        var i :| 0 <= i < |groups| && groups[i].check == h.check && h.cmd in groups[i].cmds;
        assert added[i] == groups[i];
      }
  }

  /** `h` is in the list, and it is the first fix there with its key. */
  ghost predicate FirstOfKey(fixes: seq<Fix>, h: Fix) {
    exists k: nat :: First(fixes, k) && fixes[k] == h
  }

  lemma FirstOneMore(before: seq<Fix>, f: Fix, h: Fix)
    ensures FirstOfKey(before + [f], h) <==> FirstOfKey(before, h) || (h == f && !Seen(before, KeyOf(f)))
  {
    var all := before + [f];
    forall k: nat | k <= |before| ensures all[..k] == before[..k] {
    }
    assert First(all, |before|) <==> !Seen(before, KeyOf(f));
    assert forall k: nat :: k < |before| ==> (First(all, k) <==> First(before, k));
  }

  /** The groups list exactly the fixes that are the first with their key. */
  lemma {:induction false} GroupedLists(fixes: seq<Fix>, h: Fix)
    ensures DistinctChecks(Grouped(fixes))
    ensures Listed(Grouped(fixes), h) <==> FirstOfKey(fixes, h)
    decreases |fixes|
  {
    if fixes != [] {
      var before, f := fixes[..|fixes| - 1], fixes[|fixes| - 1];
      GroupedLists(before, h);
      assert fixes == before + [f];
      FirstOneMore(before, f, h);
      if !Seen(before, KeyOf(f)) {
        AddedLists(Grouped(before), f);
      }
    }
  }

  /** Two different fixes share a key. */
  ghost predicate Collide(fixes: seq<Fix>) {
    exists i, j :: 0 <= i < j < |fixes| && fixes[i] != fixes[j] && KeyOf(fixes[i]) == KeyOf(fixes[j])
  }

  lemma {:induction false} FirstWithKey(fixes: seq<Fix>, k: nat) returns (i: nat)
    requires k < |fixes|
    ensures i <= k && First(fixes, i) && KeyOf(fixes[i]) == KeyOf(fixes[k])
  {
    if First(fixes, k) {
      i := k;
    } else {
      var m :| 0 <= m < k && KeyOf(fixes[..k][m]) == KeyOf(fixes[k]);
      i := FirstWithKey(fixes, m);
    }
  }

  /** Every command of the findings reaches its group, exactly when no two different ones share a key. */
  lemma NothingLostIffNoCollision(insights: seq<Insight>)
    ensures var fixes := Fixes(insights);
      (forall f :: f in fixes ==> Listed(Grouped(fixes), f)) <==> !Collide(fixes)
  {
    var fixes := Fixes(insights);
    if Collide(fixes) {
      var i, j :| 0 <= i < j < |fixes| && fixes[i] != fixes[j] && KeyOf(fixes[i]) == KeyOf(fixes[j]);
      OneOfTwoIsLost(fixes, i, j);
    } else {
      forall f | f in fixes ensures Listed(Grouped(fixes), f) {
        var k :| 0 <= k < |fixes| && fixes[k] == f;
        var i := FirstWithKey(fixes, k);
        GroupedLists(fixes, f);
      }
    }
  }

  lemma {:induction false} OneOfTwoIsLost(fixes: seq<Fix>, i: nat, j: nat)
    requires i < j < |fixes| && fixes[i] != fixes[j] && KeyOf(fixes[i]) == KeyOf(fixes[j])
    ensures !Listed(Grouped(fixes), fixes[i]) || !Listed(Grouped(fixes), fixes[j])
  {
    GroupedLists(fixes, fixes[i]);
    GroupedLists(fixes, fixes[j]);
    if FirstOfKey(fixes, fixes[i]) && FirstOfKey(fixes, fixes[j]) {
      var a: nat :| First(fixes, a) && fixes[a] == fixes[i];
      var b: nat :| First(fixes, b) && fixes[b] == fixes[j];
    }
  }

  /** Nothing else is ever listed. */
  lemma OnlyFixesListed(insights: seq<Insight>, h: Fix)
    requires Listed(Grouped(Fixes(insights)), h)
    ensures h in Fixes(insights)
  {
    GroupedLists(Fixes(insights), h);
  }

  /** A check name without a bar cannot take part in a collision. */
  lemma NoBarNoCollision(fixes: seq<Fix>)
    requires forall f :: f in fixes ==> '|' !in f.check
    ensures !Collide(fixes)
  {
    forall i, j | 0 <= i < j < |fixes| && KeyOf(fixes[i]) == KeyOf(fixes[j]) ensures fixes[i] == fixes[j] {
      assert fixes[i] in fixes && fixes[j] in fixes;
      KeyDetermines(fixes[i], fixes[j]);
    }
  }

  lemma KeyDetermines(f: Fix, g: Fix)
    requires '|' !in f.check && '|' !in g.check && KeyOf(f) == KeyOf(g)
    ensures f == g
  {
    var key := KeyOf(f);
    assert key[|f.check|] == '|' && key[|g.check|] == '|';
    assert forall k :: 0 <= k < |f.check| ==> key[k] == f.check[k];
    assert forall k :: 0 <= k < |g.check| ==> key[k] == g.check[k];
    assert |f.check| == |g.check|;
    assert f.check == key[..|f.check|] == g.check;
    assert f.cmd == key[|f.check| + 1..] == g.cmd;
  }

  /** A bar in a check name can lose a command: two findings, two commands, one of them in no group. */
  lemma BarLosesCommand() returns (fixes: seq<Fix>)
    ensures |fixes| == 2 && fixes[0].check != fixes[1].check
    ensures !Listed(Grouped(fixes), fixes[0]) || !Listed(Grouped(fixes), fixes[1])
  {
    fixes := [Fix("a", "b|c"), Fix("a|b", "c")];
    assert "a" + "|" + "b|c" == "a|b" + "|" + "c";
    OneOfTwoIsLost(fixes, 0, 1);
  }

  // ----- every group, every command

  /** Commands come out trimmed, non-empty and on one line. */
  predicate CleanCommand(cmd: string) {
    cmd != "" && !IsSpace(cmd[0]) && !IsSpace(cmd[|cmd| - 1]) && forall k :: 0 <= k < |cmd| ==> !IsControl(cmd[k])
  }

  lemma CommandsAreClean(hint: string)
    ensures CommandOf(hint).Some? ==> CleanCommand(CommandOf(hint).value)
  {
    if CommandOf(hint).Some? {
      SanitizedIsClean(TrimSpace(hint[|TO_FIX|..]));
    }
  }

  lemma SanitizedIsClean(cmd: string)
    ensures SanitizeFixCmd(cmd) == "" || CleanCommand(SanitizeFixCmd(cmd))
  {
    var raw := Stripped(cmd);
    var n := Text.TrimLeftIsSuffix(raw);
    TrimLeftShape(raw);
    TrimRightShape(TrimLeft(raw));
    var clean := TrimSpace(raw);
    forall k | 0 <= k < |clean| ensures !IsControl(clean[k]) {
      assert clean[k] == raw[n + k];
    }
  }

  /** Sanitizing leaves exactly the clean commands, and nothing, as they are; so doing it twice is doing it once. */
  lemma {:induction false} SanitizeKeepsIffClean(cmd: string)
    ensures SanitizeFixCmd(cmd) == cmd <==> cmd == "" || CleanCommand(cmd)
    ensures SanitizeFixCmd(SanitizeFixCmd(cmd)) == SanitizeFixCmd(cmd)
  {
    SanitizedIsClean(cmd);
    if cmd == "" || CleanCommand(cmd) {
      CleanIsKept(cmd);
    }
    CleanIsKept(SanitizeFixCmd(cmd));
  }

  lemma CleanIsKept(cmd: string)
    requires cmd == "" || CleanCommand(cmd)
    ensures SanitizeFixCmd(cmd) == cmd
  {
    assert Stripped(cmd) == cmd;
    if cmd != "" {
      TrimSpaceShape(cmd);
    }
  }

  lemma {:induction false} FixesAreClean(insights: seq<Insight>, f: Fix)
    requires f in Fixes(insights)
    ensures CleanCommand(f.cmd)
    ensures exists ins :: ins in insights && ins.check == f.check && (ins.level == "WARN" || ins.level == "CRIT") &&
                          exists h :: h in ins.hints && CommandOf(h) == Some(f.cmd)
    decreases |insights|
  {
    var n := |insights| - 1;
    assert insights == insights[..n] + [insights[n]];
    if f in Fixes(insights[..n]) {
      FixesAreClean(insights[..n], f);
    } else {
      HintsAreClean(insights[n].check, insights[n].hints, f);
      assert insights[n] in insights;
    }
  }

  lemma {:induction false} HintsAreClean(check: string, hints: seq<string>, f: Fix)
    requires f in FixesOfHints(check, hints)
    ensures CleanCommand(f.cmd) && f.check == check && exists h :: h in hints && CommandOf(h) == Some(f.cmd)
    decreases |hints|
  {
    var n := |hints| - 1;
    assert hints == hints[..n] + [hints[n]];
    if f in FixesOfHints(check, hints[..n]) {
      HintsAreClean(check, hints[..n], f);
    } else {
      CommandsAreClean(hints[n]);
      assert hints[n] in hints;
    }
  }

  /** One group per check, none of them empty, and no command twice in a group. */
  lemma {:induction false} GroupsAreGood(fixes: seq<Fix>)
    ensures DistinctChecks(Grouped(fixes))
    ensures forall k :: 0 <= k < |Grouped(fixes)| ==> GoodGroup(Grouped(fixes)[k])
    decreases |fixes|
  {
    if fixes != [] {
      var before, f := fixes[..|fixes| - 1], fixes[|fixes| - 1];
      GroupsAreGood(before);
      if !Seen(before, KeyOf(f)) {
        AddedLists(Grouped(before), f);
        GroupedLists(before, f);
        assert !Listed(Grouped(before), f);
        AddedIsGood(Grouped(before), f);
      }
    }
  }

  lemma AddedIsGood(groups: seq<Group>, f: Fix)
    requires forall k :: 0 <= k < |groups| ==> GoodGroup(groups[k])
    requires !Listed(groups, f)
    ensures forall k :: 0 <= k < |Added(groups, f)| ==> GoodGroup(Added(groups, f)[k])
  {
    PositionMeaning(groups, f.check);
    match Position(groups, f.check)
    case Some(k) => assert GoodGroup(groups[k]) && f.cmd !in groups[k].cmds;
    case None =>
  }

  /** Checks appear in the order in which they were first seen: a longer run only appends groups. */
  lemma {:induction false} GroupOrderIsFirstSeen(fixes: seq<Fix>, more: seq<Fix>)
    ensures |Grouped(fixes)| <= |Grouped(fixes + more)|
    ensures forall k :: 0 <= k < |Grouped(fixes)| ==>
      Grouped(fixes + more)[k].check == Grouped(fixes)[k].check
        && Grouped(fixes)[k].cmds <= Grouped(fixes + more)[k].cmds
    decreases |more|
  {
    if more == [] {
      assert fixes + more == fixes;
    } else {
      var n := |more| - 1;
      GroupOrderIsFirstSeen(fixes, more[..n]);
      var before := fixes + more[..n];
      assert (fixes + more)[..|fixes + more| - 1] == before;
      PositionMeaning(Grouped(before), more[n].check);
    }
  }
}
