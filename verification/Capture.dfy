/**
 `dsd capture` turns a health report into a fixture and `dsd mock` replays a fixture: what survives the trip,
 what the order of a map decides, and what is lost.
 */
module Capture {
  import opened Wrappers
  import opened Text
  import opened Insights
  import opened ExitCode

  /** A check and a finding as the JSON report carries them; of a finding only these fields are read. */
  datatype Check = Check(name: string, status: string, inline: string, raw: string)

  datatype Finding = Finding(check: string, level: string, message: string, hints: seq<string>)

  datatype Row = Row(name: string, level: string, message: string, inline: string, hints: seq<string>, rawJson: string)

  const DISK_RAW_CHECKS: set<string> := {"Disk", "Drives", "LVM", "ZFS", "IO", "Btrfs"}

  // ----- the finding of a row

  /** What the insight map holds for a check after these findings. */
  function BestOf(findings: seq<Finding>, check: string): Option<Finding> {
    if findings == [] then None
    else
      var f, best := findings[|findings| - 1], BestOf(findings[..|findings| - 1], check);
      if f.check == check && (best == None || Rank(f.level) > Rank(best.value.level)) then Some(f) else best
  }

  /** The first of the findings of a check that rank highest. */
  ghost predicate IsBest(findings: seq<Finding>, check: string, k: nat) {
    && k < |findings| && findings[k].check == check
    && (forall j :: 0 <= j < |findings| && findings[j].check == check ==>
      Rank(findings[j].level) <= Rank(findings[k].level))
    && (forall j :: 0 <= j < k && findings[j].check == check ==> Rank(findings[j].level) < Rank(findings[k].level))
  }

  lemma {:induction false} BestIsFirstWorst(findings: seq<Finding>, check: string) returns (k: nat)
    ensures BestOf(findings, check) == None ==> forall f :: f in findings ==> f.check != check
    ensures BestOf(findings, check).Some? ==> IsBest(findings, check, k) && findings[k] == BestOf(findings, check).value
    decreases |findings|
  {
    k := 0;
    if findings != [] {
      var n := |findings| - 1;
      var f, before := findings[n], findings[..n];
      k := BestIsFirstWorst(before, check);
      assert findings == before + [f];
      if f.check == check && (BestOf(before, check) == None || Rank(f.level) > Rank(before[k].level)) {
        forall j | 0 <= j < n && findings[j].check == check ensures Rank(findings[j].level) < Rank(f.level) {
          assert before[j] in before;
        }
        k := n;
      }
    }
  }

  ghost predicate IndexOf(findings: seq<Finding>, index: map<string, Finding>) {
    forall check :: BestOf(findings, check) == if check in index then Some(index[check]) else None
  }

  method IndexFindings(findings: seq<Finding>) returns (index: map<string, Finding>)
    ensures IndexOf(findings, index)
  {
    index := map[];
    for n := 0 to |findings|
      invariant IndexOf(findings[..n], index)
    {
      assert findings[..n + 1][..n] == findings[..n];
      var f := findings[n];
      if f.check !in index || Rank(f.level) > Rank(index[f.check].level) {
        index := index[f.check := f];
      }
    }
    assert findings[..|findings|] == findings;
  }

  /** A finding whose check is the row's name followed by a blank or a slash. */
  predicate Belongs(check: string, name: string) {
    HasPrefix(check, name + " ") || HasPrefix(check, name + "/")
  }

  /** What a search over the index may return: a highest-ranking finding that belongs to the name. */
  ghost predicate Admissible(index: map<string, Finding>, name: string, found: Option<Finding>) {
    match found
    case None => forall check :: check in index ==> !Belongs(check, name)
    case Some(f) =>
      && (exists check :: check in index && Belongs(check, name) && index[check] == f)
      && forall check :: check in index && Belongs(check, name) ==> Rank(index[check].level) <= Rank(f.level)
  }

  /** The search by prefix. The loop visits the keys of the map in an arbitrary order. */
  method SearchByPrefix(index: map<string, Finding>, name: string) returns (found: Option<Finding>)
    ensures Admissible(index, name, found)
  {
    found := None;
    var rest := index.Keys;
    while rest != {}
      invariant rest <= index.Keys
      invariant found == None ==> forall check :: check in index && check !in rest ==> !Belongs(check, name)
      invariant found.Some? ==>
        (exists check :: check in index && Belongs(check, name) && index[check] == found.value)
        && forall check :: check in index && check !in rest && Belongs(check, name) ==>
          Rank(index[check].level) <= Rank(found.value.level)
      decreases |rest|
    {
      var check :| check in rest;
      rest := rest - {check};
      if Belongs(check, name) {
        if found == None || Rank(index[check].level) > Rank(found.value.level) {
          found := Some(index[check]);
        }
      }
    }
  }

  /** The finding a row shows: that of the very name, else an admissible one. */
  ghost predicate FindingFor(index: map<string, Finding>, name: string, found: Option<Finding>) {
    if name in index then found == Some(index[name]) else Admissible(index, name, found)
  }

  function RowLevel(status: string): string {
    if ToUpper(status) == "" then "OK" else ToUpper(status)
  }

  /** The row of a check, for one of the findings that the map order may select. */
  ghost predicate IsRowOf(row: Row, c: Check, index: map<string, Finding>) {
    && row.name == c.name
    && row.rawJson == (if c.name in DISK_RAW_CHECKS then c.raw else "")
    && if RowLevel(c.status) == "OK" then
         row.level == "" && row.inline == c.inline && row.message == "" && row.hints == []
       else
         row.level == RowLevel(c.status) && row.inline == "" &&
         exists found :: FindingFor(index, c.name, found)
           && row.message == (if found.Some? then found.value.message else "")
           && row.hints == (if found.Some? then found.value.hints else [])
  }

  method BuildFixtureRow(c: Check, index: map<string, Finding>) returns (row: Row)
    ensures IsRowOf(row, c, index)
  {
    var level := ToUpper(c.status);
    if level == "" {
      level := "OK";
    }
    row := Row(c.name, "", "", "", [], "");
    if c.name in DISK_RAW_CHECKS && |c.raw| > 0 {
      row := row.(rawJson := c.raw);
    }
    if level == "OK" {
      row := row.(inline := c.inline);
      return;
    }
    var found: Option<Finding>;
    if c.name in index {
      found := Some(index[c.name]);
    } else {
      found := SearchByPrefix(index, c.name);
    }
    row := row.(level := level);
    if found.Some? {
      row := row.(message := found.value.message, hints := found.value.hints);
    }
    assert FindingFor(index, c.name, found);
  }

  /** Whatever the map order, the rank of a row's finding is the same. */
  lemma {:induction false} RankIgnoresMapOrder(index: map<string, Finding>, name: string, f: Option<Finding>,
                                               g: Option<Finding>)
    requires FindingFor(index, name, f) && FindingFor(index, name, g)
    ensures (f == None <==> g == None) && (f.Some? ==> Rank(f.value.level) == Rank(g.value.level))
  {
  }

  /** A finding named after the check with a colon is not the check's: only a blank or a slash may follow the name. */
  lemma ColonIsMissed(name: string, rest: string)
    ensures !Belongs(name + ": " + rest, name)
  {
    var check := name + ": " + rest;
    assert check[..|name| + 1][|name|] == ':';
    assert (name + " ")[|name|] == ' ' && (name + "/")[|name|] == '/';
  }

  /** Exactly a blank or a slash may follow the name. */
  lemma BelongsIff(check: string, name: string)
    ensures Belongs(check, name) <==>
      |check| > |name| && check[..|name|] == name && (check[|name|] == ' ' || check[|name|] == '/')
  {
    PrefixIff(check, name, ' ');
    PrefixIff(check, name, '/');
  }

  lemma PrefixIff(check: string, name: string, c: char)
    ensures HasPrefix(check, name + [c]) <==> |check| > |name| && check[..|name|] == name && check[|name|] == c
  {
    if |check| > |name| {
      assert check[..|name| + 1] == check[..|name|] + [check[|name|]];
      assert (name + [c])[..|name|] == name;
    }
  }

  /** The example of the comment. */
  lemma SwappinessIsMissed()
    ensures !Belongs("Sysctl: swappiness", "Sysctl") && Belongs("Sysctl swappiness", "Sysctl")
  {
    assert "Sysctl: swappiness"[..6] == "Sysctl" && "Sysctl swappiness"[..6] == "Sysctl";
    BelongsIff("Sysctl: swappiness", "Sysctl");
    BelongsIff("Sysctl swappiness", "Sysctl");
  }

  // ----- the rows

  /** The last check of a name, if there is one. */
  function LastNamed(checks: seq<Check>, name: string): Option<Check> {
    if checks == [] then None
    else if checks[|checks| - 1].name == name then Some(checks[|checks| - 1])
    else LastNamed(checks[..|checks| - 1], name)
  }

  /** The checks of the names in display order, the last of each name. */
  function Displayed(checks: seq<Check>, order: seq<string>): seq<Check> {
    if order == [] then []
    else
      var found := LastNamed(checks, order[|order| - 1]);
      Displayed(checks, order[..|order| - 1]) + if found.Some? then [found.value] else []
  }

  /** The checks whose name is, or is not, among the given ones. */
  function Named(checks: seq<Check>, names: set<string>, among: bool): seq<Check> {
    if checks == [] then []
    else
      var c := checks[|checks| - 1];
      Named(checks[..|checks| - 1], names, among) + if (c.name in names) == among then [c] else []
  }

  function NamesOf(order: seq<string>): set<string> {
    set name | name in order
  }

  /** The checks that get a row, in row order: first those the display order names. */
  function Selected(checks: seq<Check>, order: seq<string>): seq<Check> {
    Displayed(checks, order) + Named(checks, NamesOf(order), false)
  }

  ghost predicate IsCaptureOf(rows: seq<Row>, checks: seq<Check>, findings: seq<Finding>, order: seq<string>) {
    exists index :: IndexOf(findings, index) && RowsOf(rows, Selected(checks, order), index)
  }

  method MapChecks(checks: seq<Check>) returns (checkMap: map<string, Check>)
    ensures forall name :: name in checkMap <==> LastNamed(checks, name).Some?
    ensures forall name :: name in checkMap ==> LastNamed(checks, name) == Some(checkMap[name])
  {
    checkMap := map[];
    for n := 0 to |checks|
      invariant forall name :: name in checkMap <==> LastNamed(checks[..n], name).Some?
      invariant forall name :: name in checkMap ==> LastNamed(checks[..n], name) == Some(checkMap[name])
    {
      assert checks[..n + 1][..n] == checks[..n];
      checkMap := checkMap[checks[n].name := checks[n]];
    }
    assert checks[..|checks|] == checks;
  }

  ghost predicate RowsOf(rows: seq<Row>, checks: seq<Check>, index: map<string, Finding>) {
    |rows| == |checks| && forall k :: 0 <= k < |rows| ==> IsRowOf(rows[k], checks[k], index)
  }

  method BuildInputFixtureRows(checks: seq<Check>, findings: seq<Finding>, order: seq<string>) returns (rows: seq<Row>)
    ensures IsCaptureOf(rows, checks, findings, order)
  {
    var index := IndexFindings(findings);
    var checkMap := MapChecks(checks);
    var ordered, seen := BuildDisplayed(checks, order, checkMap, index);
    var unordered := BuildUnseen(checks, order, seen, index);
    rows := ordered + unordered;
    assert RowsOf(rows, Selected(checks, order), index);
  }

  method BuildDisplayed(checks: seq<Check>, order: seq<string>, checkMap: map<string, Check>,
                        index: map<string, Finding>)
    returns (ordered: seq<Row>, seen: set<string>)
    requires forall name :: name in checkMap <==> LastNamed(checks, name).Some?
    requires forall name :: name in checkMap ==> LastNamed(checks, name) == Some(checkMap[name])
    ensures seen == SeenIn(checks, order)
    ensures RowsOf(ordered, Displayed(checks, order), index)
  {
    ordered, seen := [], {};
    for n := 0 to |order|
      invariant seen == SeenIn(checks, order[..n])
      invariant RowsOf(ordered, Displayed(checks, order[..n]), index)
    {
      assert order[..n + 1][..n] == order[..n];
      assert order[..n + 1] == order[..n] + [order[n]];
      if order[n] in checkMap {
        seen := seen + {order[n]};
        var row := BuildFixtureRow(checkMap[order[n]], index);
        ordered := ordered + [row];
      }
    }
    assert order[..|order|] == order;
  }

  /** The displayed names that some check has. */
  ghost function SeenIn(checks: seq<Check>, order: seq<string>): set<string> {
    set name | name in order && LastNamed(checks, name).Some?
  }

  method BuildUnseen(checks: seq<Check>, order: seq<string>, seen: set<string>, index: map<string, Finding>)
    returns (unordered: seq<Row>)
    requires seen == SeenIn(checks, order)
    ensures RowsOf(unordered, Named(checks, NamesOf(order), false), index)
  {
    unordered := [];
    for n := 0 to |checks|
      invariant RowsOf(unordered, Named(checks[..n], NamesOf(order), false), index)
    {
      assert checks[..n + 1][..n] == checks[..n];
      NamedIsFound(checks, n);
      if checks[n].name !in seen {
        var row := BuildFixtureRow(checks[n], index);
        unordered := unordered + [row];
      }
    }
    assert checks[..|checks|] == checks;
  }

  lemma {:induction false} NamedIsFound(checks: seq<Check>, n: nat)
    requires n < |checks|
    ensures LastNamed(checks, checks[n].name).Some?
    decreases |checks|
  {
    if n < |checks| - 1 {
      NamedIsFound(checks[..|checks| - 1], n);
    }
  }

  // ----- every check gets its row, iff no displayed name occurs twice

  /** No name of the set occurs twice. */
  ghost predicate Once(checks: seq<Check>, names: set<string>) {
    forall i, j :: 0 <= i < j < |checks| && checks[i].name in names ==> checks[i].name != checks[j].name
  }

  ghost predicate Distinct(order: seq<string>) {
    forall i, j :: 0 <= i < j < |order| ==> order[i] != order[j]
  }

  /** Splitting off one name. */
  lemma {:induction false} NamedSplits(checks: seq<Check>, names: set<string>, name: string)
    requires name !in names
    ensures multiset(Named(checks, names + {name}, true)) ==
      multiset(Named(checks, names, true)) + multiset(Named(checks, {name}, true))
    decreases |checks|
  {
    if checks != [] {
      NamedSplits(checks[..|checks| - 1], names, name);
    }
  }

  lemma {:induction false} NamedParts(checks: seq<Check>, names: set<string>)
    ensures multiset(checks) == multiset(Named(checks, names, true)) + multiset(Named(checks, names, false))
    decreases |checks|
  {
    if checks != [] {
      var n := |checks| - 1;
      var c := checks[n];
      NamedParts(checks[..n], names);
      assert checks == checks[..n] + [c];
      if c.name in names {
        assert Named(checks, names, true) == Named(checks[..n], names, true) + [c];
        assert Named(checks, names, false) == Named(checks[..n], names, false);
      } else {
        assert Named(checks, names, true) == Named(checks[..n], names, true);
        assert Named(checks, names, false) == Named(checks[..n], names, false) + [c];
      }
    }
  }

  lemma NamedSizes(checks: seq<Check>, names: set<string>)
    ensures |checks| == |Named(checks, names, true)| + |Named(checks, names, false)|
  {
    NamedParts(checks, names);
    assert |multiset(checks)| == |multiset(Named(checks, names, true))| + |multiset(Named(checks, names, false))|;
  }

  /** Of the checks of one name the last is shown; nothing is lost iff it is the only one. */
  lemma {:induction false} OneName(checks: seq<Check>, name: string)
    ensures var found, all := LastNamed(checks, name), Named(checks, {name}, true);
      && (found == None <==> all == [])
      && (found.Some? ==> all[|all| - 1] == found.value)
      && (Once(checks, {name}) <==> |all| <= 1)
    decreases |checks|
  {
    if checks != [] {
      var n := |checks| - 1;
      OneName(checks[..n], name);
      var all := Named(checks[..n], {name}, true);
      if checks[n].name == name {
        if all != [] {
          NamedHas(checks[..n], name);
          assert !Once(checks, {name});
        } else {
          NoneNamed(checks[..n], name);
          assert forall i :: 0 <= i < n ==> checks[..n][i] == checks[i];
        }
      } else {
        OnceShorter(checks, name);
      }
    }
  }

  lemma OnceShorter(checks: seq<Check>, name: string)
    requires checks != [] && checks[|checks| - 1].name != name
    ensures Once(checks, {name}) <==> Once(checks[..|checks| - 1], {name})
  {
    var n := |checks| - 1;
    assert forall i :: 0 <= i < n ==> checks[..n][i] == checks[i];
  }

  lemma {:induction false} NoneNamed(checks: seq<Check>, name: string)
    requires Named(checks, {name}, true) == []
    ensures forall c :: c in checks ==> c.name != name
    decreases |checks|
  {
    if checks != [] {
      var n := |checks| - 1;
      NoneNamed(checks[..n], name);
      assert checks == checks[..n] + [checks[n]];
    }
  }

  lemma {:induction false} NamedHas(checks: seq<Check>, name: string)
    requires Named(checks, {name}, true) != []
    ensures exists i :: 0 <= i < |checks| && checks[i].name == name
    decreases |checks|
  {
    var n := |checks| - 1;
    if checks[n].name != name {
      NamedHas(checks[..n], name);
      var i :| 0 <= i < n && checks[..n][i].name == name;
      assert checks[i].name == name;
    }
  }

  lemma LastName(order: seq<string>)
    requires Distinct(order) && order != []
    ensures var n := |order| - 1; NamesOf(order) == NamesOf(order[..n]) + {order[n]} && order[n] !in NamesOf(order[..n])
  {
    var n := |order| - 1;
    assert order == order[..n] + [order[n]];
  }

  lemma OnlyOne(checks: seq<Check>, name: string)
    requires Once(checks, {name})
    ensures var found := LastNamed(checks, name);
      Named(checks, {name}, true) == if found.Some? then [found.value] else []
  {
    OneName(checks, name);
  }

  lemma {:induction false} DisplayedIsNamed(checks: seq<Check>, order: seq<string>)
    requires Distinct(order) && Once(checks, NamesOf(order))
    ensures multiset(Displayed(checks, order)) == multiset(Named(checks, NamesOf(order), true))
    decreases |order|
  {
    if order == [] {
      NothingNamed(checks);
      assert NamesOf(order) == {};
    } else {
      var n := |order| - 1;
      var names, name := NamesOf(order[..n]), order[n];
      LastName(order);
      OnceSplits(checks, names, name);
      DisplayedIsNamed(checks, order[..n]);
      NamedSplits(checks, names, name);
      OnlyOne(checks, name);
      assert Displayed(checks, order) == Displayed(checks, order[..n]) + Named(checks, {name}, true);
    }
  }

  lemma {:induction false} DisplayedSize(checks: seq<Check>, order: seq<string>)
    requires Distinct(order)
    ensures var shown, all := |Displayed(checks, order)|, |Named(checks, NamesOf(order), true)|;
      shown <= all && (!Once(checks, NamesOf(order)) ==> shown < all)
    decreases |order|
  {
    if order == [] {
      NothingNamed(checks);
    } else {
      var n := |order| - 1;
      var names, name := NamesOf(order[..n]), order[n];
      LastName(order);
      OnceSplits(checks, names, name);
      DisplayedSize(checks, order[..n]);
      SizesAdd(checks, names, name);
      OneName(checks, name);
    }
  }

  lemma OnceSplits(checks: seq<Check>, names: set<string>, name: string)
    ensures Once(checks, names + {name}) <==> Once(checks, names) && Once(checks, {name})
  {
  }

  lemma SizesAdd(checks: seq<Check>, names: set<string>, name: string)
    requires name !in names
    ensures |Named(checks, names + {name}, true)| == |Named(checks, names, true)| + |Named(checks, {name}, true)|
  {
    NamedSplits(checks, names, name);
    assert |multiset(Named(checks, names + {name}, true))|
      == |multiset(Named(checks, names, true))| + |multiset(Named(checks, {name}, true))|;
  }

  lemma {:induction false} NothingNamed(checks: seq<Check>)
    ensures Named(checks, {}, true) == []
    decreases |checks|
  {
    if checks != [] {
      NothingNamed(checks[..|checks| - 1]);
    }
  }

  /** The rows are those of all the checks, rearranged, exactly when no displayed name occurs twice. */
  lemma EveryCheckHasARowIff(checks: seq<Check>, order: seq<string>)
    requires Distinct(order)
    ensures multiset(Selected(checks, order)) == multiset(checks) <==> Once(checks, NamesOf(order))
    ensures !Once(checks, NamesOf(order)) ==> |Selected(checks, order)| < |checks|
  {
    DisplayedSize(checks, order);
    if Once(checks, NamesOf(order)) {
      DisplayedIsNamed(checks, order);
    }
    NamedParts(checks, NamesOf(order));
    NamedSizes(checks, NamesOf(order));
    assert |multiset(Selected(checks, order))| == |Selected(checks, order)|;
    assert |multiset(checks)| == |checks|;
  }

  // ----- replaying

  function ToInsight(level: string, check: string, message: string, hints: seq<string>): Insight {
    Insight(level, check, message, hints, false, false, "")
  }

  /** A level that is not replayed. */
  predicate Silent(level: string) {
    ToUpper(level) == "" || ToUpper(level) == "OK"
  }

  function FromFindings(findings: seq<Finding>): seq<Insight> {
    if findings == [] then []
    else
      var f := findings[|findings| - 1];
      FromFindings(findings[..|findings| - 1])
      + if Silent(f.level) then [] else [ToInsight(ToUpper(f.level), f.check, f.message, f.hints)]
  }

  function FromRows(rows: seq<Row>): seq<Insight> {
    if rows == [] then []
    else
      var r := rows[|rows| - 1];
      FromRows(rows[..|rows| - 1])
      + if Silent(r.level) then [] else [ToInsight(ToUpper(r.level), r.name, r.message, r.hints)]
  }

  /** resolveMockInsights: the captured findings, or one insight per row where there are none. */
  method ResolveMockInsights(rows: seq<Row>, findings: seq<Finding>) returns (out: seq<Insight>)
    ensures out == if findings != [] then FromFindings(findings) else FromRows(rows)
  {
    out := [];
    if |findings| > 0 {
      for n := 0 to |findings|
        invariant out == FromFindings(findings[..n])
      {
        assert findings[..n + 1][..n] == findings[..n];
        var lvl := ToUpper(findings[n].level);
        if lvl == "" || lvl == "OK" {
          continue;
        }
        out := out + [ToInsight(lvl, findings[n].check, findings[n].message, findings[n].hints)];
      }
      assert findings[..|findings|] == findings;
      return;
    }
    for n := 0 to |rows|
      invariant out == FromRows(rows[..n])
    {
      assert rows[..n + 1][..n] == rows[..n];
      var level := ToUpper(rows[n].level);
      if level == "" || level == "OK" {
        continue;
      }
      out := out + [ToInsight(level, rows[n].name, rows[n].message, rows[n].hints)];
    }
    assert rows[..|rows|] == rows;
  }

  // ----- the round trip

  /** What the JSON report keeps of an insight as far as capture reads it. */
  function Reported(insights: seq<Insight>): (r: seq<Finding>)
    ensures |r| == |insights|
  {
    seq(|insights|, k requires 0 <= k < |insights| =>
      var ins := insights[k]; Finding(ins.check, ins.level, ins.message, ins.hints))
  }

  /** An insight that the trip leaves as it is. */
  predicate Survives(ins: Insight) {
    !Silent(ins.level) && ToUpper(ins.level) == ins.level
    && !ins.unverified && !ins.needsRoot && ins.unverifiedReason == ""
  }

  lemma {:induction false} FromFindingsBound(findings: seq<Finding>)
    ensures |FromFindings(findings)| <= |findings|
    decreases |findings|
  {
    if findings != [] {
      FromFindingsBound(findings[..|findings| - 1]);
    }
  }

  lemma {:induction false} FindingsRoundTrip(insights: seq<Insight>)
    ensures FromFindings(Reported(insights)) == insights <==> forall k :: 0 <= k < |insights| ==> Survives(insights[k])
    decreases |insights|
  {
    if insights != [] {
      var n := |insights| - 1;
      var ins := insights[n];
      var shorter := Reported(insights)[..n];
      assert shorter == Reported(insights[..n]);
      FindingsRoundTrip(insights[..n]);
      FromFindingsBound(shorter);
      assert insights == insights[..n] + [ins];
      if !Silent(ins.level) {
        var back := ToInsight(ToUpper(ins.level), ins.check, ins.message, ins.hints);
        assert FromFindings(Reported(insights)) == FromFindings(shorter) + [back];
        assert back == ins <==> Survives(ins);
        SameLast(FromFindings(shorter), back, insights[..n], ins);
      } else {
        assert FromFindings(Reported(insights)) == FromFindings(shorter);
        assert !Survives(insights[n]);
      }
    }
  }

  lemma SameLast<T>(a: seq<T>, x: T, b: seq<T>, y: T)
    ensures a + [x] == b + [y] <==> a == b && x == y
  {
    if a + [x] == b + [y] {
      assert a == (a + [x])[..|a|] && b == (b + [y])[..|b|];
      assert (a + [x])[|a|] == x && (b + [y])[|b|] == y;
    }
  }

  lemma {:induction false} SilentRows(rows: seq<Row>)
    ensures FromRows(rows) == [] <==> forall k :: 0 <= k < |rows| ==> Silent(rows[k].level)
    decreases |rows|
  {
    if rows != [] {
      SilentRows(rows[..|rows| - 1]);
    }
  }

  /** What mock shows for a capture. */
  function Replayed(rows: seq<Row>, insights: seq<Insight>): seq<Insight> {
    if insights != [] then FromFindings(Reported(insights)) else FromRows(rows)
  }

  /**
   Capture and then mock return the report's insights, whatever the rows say, exactly when every one of them is
   in upper case, not OK, and measured; a report without insights comes back empty iff its checks are OK.
   */
  lemma RoundTripIff(rows: seq<Row>, checks: seq<Check>, insights: seq<Insight>, order: seq<string>)
    requires IsCaptureOf(rows, checks, Reported(insights), order)
    ensures insights != [] ==> (Replayed(rows, insights) == insights <==>
      forall k :: 0 <= k < |insights| ==> Survives(insights[k]))
    ensures insights == [] ==> (Replayed(rows, insights) == insights <==>
      forall k :: 0 <= k < |Selected(checks, order)| ==> RowLevel(Selected(checks, order)[k].status) == "OK")
  {
    if insights != [] {
      FindingsRoundTrip(insights);
    } else {
      SilentRows(rows);
      forall k | 0 <= k < |rows|
        ensures Silent(rows[k].level) <==> RowLevel(Selected(checks, order)[k].status) == "OK"
      {
        RowIsSilentIff(rows[k], Selected(checks, order)[k], Reported(insights));
      }
    }
  }

  lemma RowIsSilentIff(row: Row, c: Check, findings: seq<Finding>)
    requires exists index :: IndexOf(findings, index) && IsRowOf(row, c, index)
    ensures Silent(row.level) <==> RowLevel(c.status) == "OK"
  {
    UpperTwice(c.status);
  }

  lemma UpperTwice(s: string)
    ensures ToUpper(ToUpper(s)) == ToUpper(s)
  {
  }

  lemma {:induction false} SameRowsReplaySame(a: seq<Row>, b: seq<Row>)
    requires |a| == |b|
    requires forall k :: 0 <= k < |a| ==>
      a[k].name == b[k].name && a[k].level == b[k].level && a[k].message == b[k].message && a[k].hints == b[k].hints
    ensures FromRows(a) == FromRows(b)
    decreases |a|
  {
    if a != [] {
      SameRowsReplaySame(a[..|a| - 1], b[..|b| - 1]);
    }
  }

  /**
   Two captures of one report may differ in the messages of their rows, which the order of a map decides,
   but they replay to the same insights.
   */
  lemma ReplayIgnoresMapOrder(a: seq<Row>, b: seq<Row>, checks: seq<Check>, insights: seq<Insight>, order: seq<string>)
    requires IsCaptureOf(a, checks, Reported(insights), order) && IsCaptureOf(b, checks, Reported(insights), order)
    ensures Replayed(a, insights) == Replayed(b, insights)
  {
    if insights == [] {
      forall k | 0 <= k < |a|
        ensures a[k].name == b[k].name && a[k].level == b[k].level && a[k].message == b[k].message
          && a[k].hints == b[k].hints
      {
        RowWithoutFindings(a[k], Selected(checks, order)[k]);
        RowWithoutFindings(b[k], Selected(checks, order)[k]);
      }
      SameRowsReplaySame(a, b);
    }
  }

  lemma RowWithoutFindings(row: Row, c: Check)
    requires exists index :: IndexOf([], index) && IsRowOf(row, c, index)
    ensures row.name == c.name && row.message == "" && row.hints == []
    ensures row.level == if RowLevel(c.status) == "OK" then "" else RowLevel(c.status)
  {
    var index :| IndexOf([], index) && IsRowOf(row, c, index);
    assert forall check :: check !in index by {
      assert forall check :: BestOf([], check) == None;
    }
  }

  // ----- the verdict of a replay

  predicate ReplaysAs(f: Finding, r: Insight) {
    !Silent(f.level) && r == ToInsight(ToUpper(f.level), f.check, f.message, f.hints)
  }

  lemma {:induction false} ReplayedMembers(findings: seq<Finding>, r: Insight)
    ensures r in FromFindings(findings) <==> exists f :: f in findings && ReplaysAs(f, r)
    decreases |findings|
  {
    if findings != [] {
      var n := |findings| - 1;
      ReplayedMembers(findings[..n], r);
      assert findings == findings[..n] + [findings[n]];
      assert r in FromFindings(findings) <==> r in FromFindings(findings[..n]) || ReplaysAs(findings[n], r);
      if ReplaysAs(findings[n], r) {
        assert findings[n] in findings;
      }
    }
  }

  ghost predicate Shows(insights: seq<Insight>, level: string) {
    exists ins :: ins in insights && ins.level == level
  }

  lemma LevelSurvives(insights: seq<Insight>, level: string)
    requires forall k :: 0 <= k < |insights| ==> ToUpper(insights[k].level) == insights[k].level
    requires level == "CRIT" || level == "WARN"
    ensures Shows(FromFindings(Reported(insights)), level) <==> Shows(insights, level)
  {
    var findings := Reported(insights);
    if Shows(insights, level) {
      var k :| 0 <= k < |insights| && insights[k].level == level;
      var f := findings[k];
      var r := ToInsight(ToUpper(f.level), f.check, f.message, f.hints);
      assert f in findings && ReplaysAs(f, r);
      ReplayedMembers(findings, r);
      assert r in FromFindings(findings) && r.level == level;
    }
    if Shows(FromFindings(findings), level) {
      var r :| r in FromFindings(findings) && r.level == level;
      ReplayedMembers(findings, r);
      var k :| 0 <= k < |findings| && ReplaysAs(findings[k], r);
      assert insights[k] in insights && findings[k].level == insights[k].level;
    }
  }

  lemma ReplayedAreMeasured(findings: seq<Finding>)
    ensures forall r :: r in FromFindings(findings) ==> !CouldNotRun(r)
  {
    forall r | r in FromFindings(findings) ensures !CouldNotRun(r) {
      ReplayedMembers(findings, r);
    }
  }

  /**
   The trip drops the mark of an insight that could not be measured. A replay has the verdict of the run it
   captured exactly when such an insight was not the only thing that kept the run from being healthy.
   */
  lemma ReplayKeepsVerdictIff(insights: seq<Insight>)
    requires insights != [] && forall k :: 0 <= k < |insights| ==> ToUpper(insights[k].level) == insights[k].level
    ensures VerdictCode(0, FromFindings(Reported(insights))) == VerdictCode(0, insights) <==>
      ((exists ins :: ins in insights && CouldNotRun(ins)) ==> Shows(insights, "CRIT") || Shows(insights, "WARN"))
  {
    ReplayedAreMeasured(Reported(insights));
    LevelSurvives(insights, "CRIT");
    LevelSurvives(insights, "WARN");
    var back := FromFindings(Reported(insights));
    assert forall r :: r in back ==> (Floors(r) <==> IsCrit(r) || IsWarn(r));
  }

  /** A single finding that could not be measured: the run has code 1, its replay 0. */
  lemma ReplayLosesVerdict() returns (insights: seq<Insight>)
    ensures insights == [Insight("INFO", "Auditd", "audit log not readable", [], true, false, "unreadable")]
    ensures VerdictCode(0, insights) == 1 && VerdictCode(0, FromFindings(Reported(insights))) == 0
  {
    insights := [Insight("INFO", "Auditd", "audit log not readable", [], true, false, "unreadable")];
    assert insights[0] in insights && CouldNotRun(insights[0]) && ToUpper("INFO") == "INFO";
    ReplayKeepsVerdictIff(insights);
    ReplayedAreMeasured(Reported(insights));
    LevelSurvives(insights, "CRIT");
    LevelSurvives(insights, "WARN");
  }
}
