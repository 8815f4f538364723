/** Which commands the fix groups of `FixGroups` are made of: the letter of each, and all of them in order. */
module FixCommands {
  import opened FixGroups
  import opened Insights
  import opened Text
  import opened Wrappers

  // ----- the letter of a command

  predicate ControlCode(c: char) {
    c as int < 0x20 || c as int == 0x7F
  }

  /** A character that may stand at either end of what a hint says without being part of the command. */
  predicate Margin(c: char) {
    IsSpace(c) || ControlCode(c)
  }

  /** `cmd` is `text[i..j]` with a blank for each control character. */
  predicate Blanked(text: string, i: nat, j: nat, cmd: string) {
    && i <= j <= |text| && |cmd| == j - i
    && (forall k :: 0 <= k < |cmd| ==> cmd[k] == if ControlCode(text[i + k]) then ' ' else text[i + k])
  }

  /** Outside `text[i..j]` there is only margin, and no more of it. */
  ghost predicate Inside(text: string, i: nat, j: nat) {
    && i <= j <= |text|
    && (forall k :: 0 <= k < i || j <= k < |text| ==> Margin(text[k]))
    && (i < j ==> !Margin(text[i]) && !Margin(text[j - 1]))
  }

  ghost predicate CommandIn(text: string, cmd: string) {
    exists i: nat, j: nat :: Inside(text, i, j) && Blanked(text, i, j, cmd)
  }

  /** The hint starts with "to fix:", and this is the command behind it. */
  ghost predicate AsksFor(hint: string, cmd: string) {
    |hint| >= 7 && hint[..7] == "to fix:" && CommandIn(hint[7..], cmd)
  }

  lemma {:induction false} InsideOfInside(text: string, i: nat, j: nat, a: nat, b: nat)
    requires Between(text, i, j) && Between(Stripped(text[i..j]), a, b)
    ensures Inside(text, i + a, i + b)
  {
    var blanked := Stripped(text[i..j]);
    forall k | 0 <= k < i + a || i + b <= k < |text| ensures Margin(text[k]) {
      if i <= k < j {
        assert IsSpace(blanked[k - i]);
      }
    }
    if a < b {
      assert !IsSpace(blanked[a]) && !IsSpace(blanked[b - 1]);
    }
  }

  lemma BlankedOfInside(text: string, i: nat, j: nat, a: nat, b: nat)
    requires i <= j <= |text| && a <= b <= j - i
    ensures Blanked(text, i + a, i + b, Stripped(text[i..j])[a..b])
  {
    var blanked := Stripped(text[i..j]);
    forall k | 0 <= k < b - a
      ensures blanked[a..b][k] == if ControlCode(text[i + a + k]) then ' ' else text[i + a + k]
    {
      assert blanked[a..b][k] == blanked[a + k] && text[i..j][a + k] == text[i + a + k];
    }
  }

  lemma {:induction false} CommandOfInside(text: string, i: nat, j: nat)
    requires Between(text, i, j)
    ensures CommandIn(text, TrimSpace(Stripped(text[i..j])))
  {
    var blanked := Stripped(text[i..j]);
    TrimSpaceMeaning(blanked);
    var a: nat, b: nat :| Between(blanked, a, b) && TrimSpace(blanked) == blanked[a..b];
    InsideOfInside(text, i, j, a, b);
    BlankedOfInside(text, i, j, a, b);
  }

  lemma {:induction false} SanitizedIsCommand(text: string)
    ensures CommandIn(text, SanitizeFixCmd(TrimSpace(text)))
  {
    TrimSpaceMeaning(text);
    var i: nat, j: nat :| Between(text, i, j) && TrimSpace(text) == text[i..j];
    CommandOfInside(text, i, j);
  }

  lemma OneCommand(text: string, cmd: string, cmd': string)
    requires CommandIn(text, cmd) && CommandIn(text, cmd')
    ensures cmd == cmd'
  {
    var i: nat, j: nat :| Inside(text, i, j) && Blanked(text, i, j, cmd);
    var i': nat, j': nat :| Inside(text, i', j') && Blanked(text, i', j', cmd');
    if i < j || i' < j' {
      assert i == i' && j == j';
    }
  }

  /** What a hint asks to run, if anything, is the text behind "to fix:" without margins and control characters. */
  lemma {:induction false} CommandIff(hint: string, cmd: string)
    ensures CommandOf(hint) == Some(cmd) <==> cmd != "" && AsksFor(hint, cmd)
  {
    assert HasPrefix(hint, TO_FIX) <==> |hint| >= 7 && hint[..7] == "to fix:";
    if HasPrefix(hint, TO_FIX) {
      var text := hint[7..];
      SanitizedIsCommand(text);
      if AsksFor(hint, cmd) {
        OneCommand(text, cmd, SanitizeFixCmd(TrimSpace(text)));
      }
    }
  }

  // ----- all commands of a run

  /** Hint `hint` of insight `insight`. */
  datatype Place = Place(insight: nat, hint: nat)

  /** There is a finding at this place, and its hint asks for a command. */
  predicate Proposes(insights: seq<Insight>, at: Place) {
    && at.insight < |insights| && at.hint < |insights[at.insight].hints|
    && (insights[at.insight].level == "WARN" || insights[at.insight].level == "CRIT")
    && CommandOf(insights[at.insight].hints[at.hint]).Some?
  }

  predicate Earlier(a: Place, b: Place) {
    a.insight < b.insight || (a.insight == b.insight && a.hint < b.hint)
  }

  /** In the order of the report. */
  predicate InOrder(places: seq<Place>) {
    forall j, k :: 0 <= j < k < |places| ==> Earlier(places[j], places[k])
  }

  /** The fixes are what stands at these places. */
  predicate StandAt(insights: seq<Insight>, places: seq<Place>, fixes: seq<Fix>) {
    |fixes| == |places| && forall k :: 0 <= k < |places| ==> StandsAt(insights, places[k], fixes[k])
  }

  predicate StandsAt(insights: seq<Insight>, at: Place, f: Fix) {
    && Proposes(insights, at)
    && f.check == insights[at.insight].check && Some(f.cmd) == CommandOf(insights[at.insight].hints[at.hint])
  }

  /** These are the places of commands before hint `h` of insight `n`. */
  ghost predicate AllBefore(insights: seq<Insight>, n: nat, h: nat, places: seq<Place>) {
    InOrder(places) && forall at :: at in places <==> Earlier(at, Place(n, h)) && Proposes(insights, at)
  }

  lemma {:induction false} OneMoreHint(insights: seq<Insight>, n: nat, h: nat, places: seq<Place>, fixes: seq<Fix>)
    returns (places': seq<Place>)
    requires n < |insights| && h < |insights[n].hints| && insights[n].level in {"WARN", "CRIT"}
    requires AllBefore(insights, n, h, places) && StandAt(insights, places, fixes)
    ensures AllBefore(insights, n, h + 1, places')
    ensures StandAt(insights, places', fixes +
      match CommandOf(insights[n].hints[h])
      case Some(cmd) => [Fix(insights[n].check, cmd)]
      case None => [])
  {
    var here := Place(n, h);
    forall at ensures Earlier(at, Place(n, h + 1)) <==> Earlier(at, here) || at == here {
    }
    if CommandOf(insights[n].hints[h]).Some? {
      places' := places + [here];
      assert forall k :: 0 <= k < |places| ==> places[k] in places;
      assert forall at :: at in places' <==> at in places || at == here;
    } else {
      places' := places;
      assert fixes + [] == fixes;
    }
  }

  lemma {:induction false} HintPlaces(insights: seq<Insight>, n: nat, h: nat, places: seq<Place>, fixes: seq<Fix>)
    returns (places': seq<Place>)
    requires n < |insights| && h <= |insights[n].hints| && insights[n].level in {"WARN", "CRIT"}
    requires AllBefore(insights, n, 0, places) && StandAt(insights, places, fixes)
    ensures AllBefore(insights, n, h, places')
    ensures StandAt(insights, places', fixes + FixesOfHints(insights[n].check, insights[n].hints[..h]))
    decreases h
  {
    var ins := insights[n];
    if h == 0 {
      places' := places;
      assert fixes + [] == fixes;
    } else {
      var sofar := FixesOfHints(ins.check, ins.hints[..h - 1]);
      places' := HintPlaces(insights, n, h - 1, places, fixes);
      assert ins.hints[..h][..h - 1] == ins.hints[..h - 1];
      places' := OneMoreHint(insights, n, h - 1, places', fixes + sofar);
      FixesAssociate(fixes, sofar, ins.check, ins.hints[..h]);
    }
  }

  lemma FixesAssociate(fixes: seq<Fix>, sofar: seq<Fix>, check: string, hints: seq<string>)
    requires hints != [] && sofar == FixesOfHints(check, hints[..|hints| - 1])
    ensures fixes + FixesOfHints(check, hints) == fixes + sofar +
      match CommandOf(hints[|hints| - 1])
      case Some(cmd) => [Fix(check, cmd)]
      case None => []
  {
  }

  lemma NextInsight(insights: seq<Insight>, n: nat, places: seq<Place>)
    requires n < |insights|
    requires if insights[n].level in {"WARN", "CRIT"} then AllBefore(insights, n, |insights[n].hints|, places)
      else AllBefore(insights, n, 0, places)
    ensures AllBefore(insights, n + 1, 0, places)
  {
    forall at | Proposes(insights, at) && Earlier(at, Place(n + 1, 0)) ensures at in places {
      if insights[n].level in {"WARN", "CRIT"} {
        assert Earlier(at, Place(n, |insights[n].hints|));
      } else {
        assert Earlier(at, Place(n, 0));
      }
    }
  }

  lemma {:induction false} FixPlaces(insights: seq<Insight>, n: nat) returns (places: seq<Place>)
    requires n <= |insights|
    ensures AllBefore(insights, n, 0, places) && StandAt(insights, places, Fixes(insights[..n]))
    decreases n
  {
    if n == 0 {
      places := [];
    } else {
      var ins, before := insights[n - 1], Fixes(insights[..n - 1]);
      places := FixPlaces(insights, n - 1);
      assert insights[..n][..n - 1] == insights[..n - 1];
      if ins.level == "WARN" || ins.level == "CRIT" {
        places := HintPlaces(insights, n - 1, |ins.hints|, places, before);
        assert ins.hints[..|ins.hints|] == ins.hints;
      } else {
        assert before + [] == before;
      }
      NextInsight(insights, n - 1, places);
    }
  }

  /** The fixes of a run: for every command that a WARN or CRIT finding asks for, one, in the order of the report. */
  lemma {:induction false} FixesMeaning(insights: seq<Insight>) returns (places: seq<Place>)
    ensures InOrder(places) && forall at :: at in places <==> Proposes(insights, at)
    ensures StandAt(insights, places, Fixes(insights))
  {
    places := FixPlaces(insights, |insights|);
    assert insights[..|insights|] == insights;
    assert forall at :: Proposes(insights, at) ==> Earlier(at, Place(|insights|, 0));
  }
}
