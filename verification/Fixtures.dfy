/** What the fixtures of `Capture` hold and what they replay to, row by row and finding by finding. */
module Fixtures {
  import opened Capture
  import opened Insights
  import opened Sequences
  import opened Text
  import opened Wrappers

  // ----- what is replayed

  /** The two levels that mean nothing is wrong, in any case. */
  predicate Fine(level: string) {
    level == "" || level == "OK" || level == "Ok" || level == "oK" || level == "ok"
  }

  /** The same letters in upper case. */
  predicate Upper(s: string, u: string) {
    |u| == |s| && forall k :: 0 <= k < |s| ==> UpperOf(s[k], u[k])
  }

  predicate UpperOf(c: char, u: char) {
    if 'a' <= c <= 'z' then u as int == c as int - 32
    else if c as int == 0x131 then u == 'I'
    else if c as int == 0x17F then u == 'S'
    else u == c
  }

  lemma UpperIs(s: string)
    ensures Upper(s, ToUpper(s))
  {
  }

  lemma {:induction false} FineIff(level: string)
    ensures Silent(level) <==> Fine(level)
  {
    UpperIs(level);
    if ToUpper(level) == "OK" {
      assert ToUpper(level)[0] == 'O' && ToUpper(level)[1] == 'K';
      assert level == [level[0], level[1]];
    }
  }

  /** An insight with these fields, measured and verified. */
  predicate Restores(ins: Insight, level: string, check: string, message: string, hints: seq<string>) {
    && Upper(level, ins.level) && ins.check == check && ins.message == message && ins.hints == hints
    && !ins.unverified && !ins.needsRoot && ins.unverifiedReason == ""
  }

  function OfRow(): Row -> seq<Insight> {
    (r: Row) => if Silent(r.level) then [] else [ToInsight(ToUpper(r.level), r.name, r.message, r.hints)]
  }

  function OfFinding(): Finding -> seq<Insight> {
    (f: Finding) => if Silent(f.level) then [] else [ToInsight(ToUpper(f.level), f.check, f.message, f.hints)]
  }

  lemma {:induction false} RowsFlat(rows: seq<Row>)
    ensures FromRows(rows) == Flat(rows, OfRow())
    decreases |rows|
  {
    if rows != [] {
      RowsFlat(rows[..|rows| - 1]);
    }
  }

  lemma {:induction false} FindingsFlat(findings: seq<Finding>)
    ensures FromFindings(findings) == Flat(findings, OfFinding())
    decreases |findings|
  {
    if findings != [] {
      FindingsFlat(findings[..|findings| - 1]);
    }
  }

  /** Without captured findings: one insight for each row that is not fine, in order, with the fields of that row. */
  lemma {:induction false} RowsAreReplayed(rows: seq<Row>) returns (at: seq<nat>)
    ensures var out := FromRows(rows);
      && |at| == |out| && Positions(at, |rows|)
      && (forall i: nat :: i in at <==> i < |rows| && !Fine(rows[i].level))
      && (forall k :: 0 <= k < |out| ==>
            var r := rows[at[k]]; Restores(out[k], r.level, r.name, r.message, r.hints))
  {
    RowsFlat(rows);
    at := FlatPositions(rows, OfRow());
    forall r: Row ensures Silent(r.level) <==> Fine(r.level) {
      FineIff(r.level);
    }
    forall k | 0 <= k < |at|
      ensures var r := rows[at[k]]; Restores(FromRows(rows)[k], r.level, r.name, r.message, r.hints)
    {
      assert OfRow()(rows[at[k]]) == [FromRows(rows)[k]];
      UpperIs(rows[at[k]].level);
    }
  }

  /** With captured findings: one insight for each that is not fine, in order, with its fields. */
  lemma {:induction false} FindingsAreReplayed(findings: seq<Finding>) returns (at: seq<nat>)
    ensures var out := FromFindings(findings);
      && |at| == |out| && Positions(at, |findings|)
      && (forall i: nat :: i in at <==> i < |findings| && !Fine(findings[i].level))
      && (forall k :: 0 <= k < |out| ==>
            var f := findings[at[k]]; Restores(out[k], f.level, f.check, f.message, f.hints))
  {
    FindingsFlat(findings);
    at := FlatPositions(findings, OfFinding());
    forall f: Finding ensures Silent(f.level) <==> Fine(f.level) {
      FineIff(f.level);
    }
    forall k | 0 <= k < |at|
      ensures var f := findings[at[k]]; Restores(FromFindings(findings)[k], f.level, f.check, f.message, f.hints)
    {
      assert OfFinding()(findings[at[k]]) == [FromFindings(findings)[k]];
      UpperIs(findings[at[k]].level);
    }
  }

  // ----- what a row holds

  /** The findings that a row may show: of its very name the first of the worst, else one of the worst sub-checks. */
  ghost predicate MayShow(findings: seq<Finding>, name: string, f: Finding) {
    if exists g :: g in findings && g.check == name then exists k: nat :: IsBest(findings, name, k) && findings[k] == f
    else
      && (exists k: nat :: IsBest(findings, f.check, k) && findings[k] == f) && OfSubCheck(f.check, name)
      && forall g :: g in findings && OfSubCheck(g.check, name) ==> Rank(g.level) <= Rank(f.level)
  }

  /** The name, and after it a blank or a slash. */
  predicate OfSubCheck(check: string, name: string) {
    |check| > |name| && check[..|name|] == name && (check[|name|] == ' ' || check[|name|] == '/')
  }

  ghost predicate ShowsNothing(findings: seq<Finding>, name: string) {
    forall g :: g in findings ==> g.check != name && !OfSubCheck(g.check, name)
  }

  /** A row of a check, in the terms of the report. */
  ghost predicate RowHolds(row: Row, c: Check, findings: seq<Finding>) {
    && row.name == c.name
    && (row.rawJson == if c.name in {"Disk", "Drives", "LVM", "ZFS", "IO", "Btrfs"} then c.raw else "")
    && if Fine(c.status) then row.level == "" && row.inline == c.inline && row.message == "" && row.hints == []
       else
         Upper(c.status, row.level) && row.inline == "" &&
         ((ShowsNothing(findings, c.name) && row.message == "" && row.hints == [])
          || exists f :: MayShow(findings, c.name, f) && row.message == f.message && row.hints == f.hints)
  }

  lemma {:induction false} FoundMayShow(findings: seq<Finding>, index: map<string, Finding>, name: string,
                                        found: Option<Finding>)
    requires IndexOf(findings, index) && FindingFor(index, name, found)
    ensures found == None ==> ShowsNothing(findings, name)
    ensures found.Some? ==> MayShow(findings, name, found.value)
  {
    if name in index {
      assert BestOf(findings, name) == Some(index[name]);
      var k := BestIsFirstWorst(findings, name);
      assert findings[k] in findings;
    } else {
      assert BestOf(findings, name) == None;
      var _ := BestIsFirstWorst(findings, name);
      forall g | g in findings ensures g.check in index && Rank(g.level) <= Rank(index[g.check].level) {
        WorstOfItsCheck(findings, index, g);
      }
      forall check ensures Belongs(check, name) <==> OfSubCheck(check, name) {
        BelongsIff(check, name);
      }
      if found.Some? {
        SubCheckMayShow(findings, index, name, found.value);
      }
    }
  }

  lemma WorstOfItsCheck(findings: seq<Finding>, index: map<string, Finding>, g: Finding)
    requires IndexOf(findings, index) && g in findings
    ensures g.check in index && Rank(g.level) <= Rank(index[g.check].level)
  {
    assert BestOf(findings, g.check) == if g.check in index then Some(index[g.check]) else None;
    var k := BestIsFirstWorst(findings, g.check);
    var j :| 0 <= j < |findings| && findings[j] == g;
  }

  lemma SubCheckMayShow(findings: seq<Finding>, index: map<string, Finding>, name: string, f: Finding)
    requires IndexOf(findings, index) && Admissible(index, name, Some(f))
    requires forall check :: Belongs(check, name) <==> OfSubCheck(check, name)
    requires forall g :: g in findings ==> g.check != name
    requires forall g :: g in findings ==> g.check in index && Rank(g.level) <= Rank(index[g.check].level)
    ensures MayShow(findings, name, f)
  {
    var check :| check in index && Belongs(check, name) && index[check] == f;
    assert BestOf(findings, check) == Some(f);
    var k := BestIsFirstWorst(findings, check);
    assert IsBest(findings, f.check, k) && findings[k] == f;
  }

  /** Every row that the loops build holds what the report says of its check. */
  lemma {:induction false} RowMeaning(row: Row, c: Check, index: map<string, Finding>, findings: seq<Finding>)
    requires IndexOf(findings, index) && IsRowOf(row, c, index)
    ensures RowHolds(row, c, findings)
  {
    FineIff(c.status);
    UpperIs(c.status);
    if RowLevel(c.status) != "OK" {
      var found :| FindingFor(index, c.name, found)
        && row.message == (if found.Some? then found.value.message else "")
        && row.hints == (if found.Some? then found.value.hints else []);
      FoundMayShow(findings, index, c.name, found);
    }
  }

  /** All rows of a capture, whatever the map order was. */
  lemma {:induction false} CaptureMeaning(rows: seq<Row>, checks: seq<Check>, findings: seq<Finding>,
                                          order: seq<string>)
    requires IsCaptureOf(rows, checks, findings, order)
    ensures |rows| == |Selected(checks, order)|
    ensures forall k :: 0 <= k < |rows| ==> RowHolds(rows[k], Selected(checks, order)[k], findings)
  {
    var index :| IndexOf(findings, index) && RowsOf(rows, Selected(checks, order), index);
    forall k | 0 <= k < |rows| ensures RowHolds(rows[k], Selected(checks, order)[k], findings) {
      RowMeaning(rows[k], Selected(checks, order)[k], index, findings);
    }
  }

  // ----- which checks get a row, and where

  /** The last check of this name. */
  ghost predicate LastOf(checks: seq<Check>, name: string, c: Check) {
    exists i: nat :: i < |checks| && checks[i] == c && c.name == name
      && forall j :: i < j < |checks| ==> checks[j].name != name
  }

  lemma {:induction false} LastNamedIsLast(checks: seq<Check>, name: string) returns (i: nat)
    ensures LastNamed(checks, name) == None ==> forall c :: c in checks ==> c.name != name
    ensures LastNamed(checks, name).Some? ==>
      && i < |checks| && checks[i] == LastNamed(checks, name).value && checks[i].name == name
      && forall j :: i < j < |checks| ==> checks[j].name != name
    decreases |checks|
  {
    i := 0;
    if checks != [] {
      var n := |checks| - 1;
      i := LastNamedIsLast(checks[..n], name);
      i := if checks[n].name == name then n else i;
      assert checks == checks[..n] + [checks[n]];
    }
  }

  function ShownFor(checks: seq<Check>): string -> seq<Check> {
    (name: string) => match LastNamed(checks, name) case Some(c) => [c] case None => []
  }

  function Unnamed(names: set<string>): Check -> seq<Check> {
    (c: Check) => if c.name in names then [] else [c]
  }

  lemma {:induction false} DisplayedFlat(checks: seq<Check>, order: seq<string>)
    ensures Displayed(checks, order) == Flat(order, ShownFor(checks))
    decreases |order|
  {
    if order != [] {
      DisplayedFlat(checks, order[..|order| - 1]);
    }
  }

  lemma {:induction false} UnnamedFlat(checks: seq<Check>, names: set<string>)
    ensures Named(checks, names, false) == Flat(checks, Unnamed(names))
    decreases |checks|
  {
    if checks != [] {
      UnnamedFlat(checks[..|checks| - 1], names);
    }
  }

  /**
   The checks that get a row, in the order of the rows: for each displayed name the last check of that name, if there
   is one, and then every other check where the report has it.
   */
  lemma {:induction false} SelectedMeaning(checks: seq<Check>, order: seq<string>)
    returns (shown: seq<nat>, others: seq<nat>)
    ensures |Selected(checks, order)| == |shown| + |others|
    ensures Positions(shown, |order|) && Positions(others, |checks|)
    ensures forall i: nat :: i in shown <==> i < |order| && exists c :: c in checks && c.name == order[i]
    ensures forall i: nat :: i in others <==> i < |checks| && checks[i].name !in order
    ensures forall k :: 0 <= k < |shown| ==> LastOf(checks, order[shown[k]], Selected(checks, order)[k])
    ensures forall k :: 0 <= k < |others| ==> Selected(checks, order)[|shown| + k] == checks[others[k]]
  {
    DisplayedFlat(checks, order);
    UnnamedFlat(checks, NamesOf(order));
    shown := FlatPositions(order, ShownFor(checks));
    others := FlatPositions(checks, Unnamed(NamesOf(order)));
    forall i: nat | i < |order|
      ensures LastNamed(checks, order[i]).Some? <==> exists c :: c in checks && c.name == order[i]
    {
      SomeIsNamed(checks, order[i]);
    }
    forall k | 0 <= k < |shown| ensures LastOf(checks, order[shown[k]], Displayed(checks, order)[k]) {
      assert ShownFor(checks)(order[shown[k]]) == [Displayed(checks, order)[k]];
      var i := LastNamedIsLast(checks, order[shown[k]]);
    }
    forall k | 0 <= k < |others| ensures Named(checks, NamesOf(order), false)[k] == checks[others[k]] {
      assert Unnamed(NamesOf(order))(checks[others[k]]) == [Named(checks, NamesOf(order), false)[k]];
    }
  }

  lemma SomeIsNamed(checks: seq<Check>, name: string)
    ensures LastNamed(checks, name).Some? <==> exists c :: c in checks && c.name == name
  {
    var i := LastNamedIsLast(checks, name);
    if LastNamed(checks, name).Some? {
      assert checks[i] in checks;
    }
  }
}
