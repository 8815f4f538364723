/** What the consequence bullets of `Consequences` say, in terms of the issues and their hosts. */
module Bullets {
  import opened Consequences
  import opened Sequences

  /** The hosts on which an issue of this category and level was seen. */
  ghost function HostsAt(issues: seq<Issue>, cat: string, level: string): set<string> {
    set g, h | g in issues && CheckCategory(g.check) == cat && g.level == level && h in g.hosts :: h
  }

  ghost predicate Reported(issues: seq<Issue>, cat: string, level: string) {
    exists g :: g in issues && CheckCategory(g.check) == cat && g.level == level
  }

  /** A bullet is about its category at its worst level and counts each affected host once. */
  ghost predicate Truthful(issues: seq<Issue>, e: Entry) {
    && Reported(issues, e.cat, e.level)
    && (Reported(issues, e.cat, "CRIT") ==> e.level == "CRIT")
    && e.count == |HostsAt(issues, e.cat, e.level)|
  }

  lemma KeyReported(issues: seq<Issue>, cat: string, level: string)
    ensures Key(cat, level) in Keys(issues) <==> Reported(issues, cat, level)
    ensures HostsWith(issues, Key(cat, level)) == HostsAt(issues, cat, level)
  {
    if Reported(issues, cat, level) {
      var g :| g in issues && CheckCategory(g.check) == cat && g.level == level;
      assert KeyOf(g) == Key(cat, level);
    }
  }

  lemma {:induction false} SurvivorIsTruthful(issues: seq<Issue>, e: Entry)
    requires KnownIssues(issues) && Survives(Keys(issues), Key(e.cat, e.level))
    requires e.count == |HostsWith(issues, Key(e.cat, e.level))|
    ensures Truthful(issues, e)
  {
    KeyReported(issues, e.cat, e.level);
    KeyReported(issues, e.cat, "CRIT");
  }

  lemma {:induction false} WorstSurvives(issues: seq<Issue>, g: Issue)
    requires KnownIssues(issues) && g in issues
    ensures var level := if Reported(issues, CheckCategory(g.check), "CRIT") then "CRIT" else "WARN";
      Survives(Keys(issues), Key(CheckCategory(g.check), level))
  {
    KeyReported(issues, CheckCategory(g.check), "CRIT");
    KeyReported(issues, CheckCategory(g.check), "WARN");
    assert KeyOf(g) in Keys(issues);
    assert g.level == "CRIT" || g.level == "WARN";
  }

  /**
   At most five bullets, each true of the issues, no category twice, CRIT before WARN and more hosts before fewer; and
   below five no category with an issue is missing.
   */
  lemma {:induction false} BulletsMeaning(issues: seq<Issue>, bullets: seq<Entry>)
    requires KnownIssues(issues) && PossibleBullets(issues, bullets)
    ensures |bullets| <= 5 && forall e :: e in bullets ==> Truthful(issues, e)
    ensures forall i, j :: 0 <= i < j < |bullets| ==> Goes(bullets[i], bullets[j])
    ensures |bullets| < 5 ==> forall g :: g in issues ==> Covers(bullets, CheckCategory(g.check))
  {
    BulletsAreTruthful(issues, bullets);
    forall e | e in bullets ensures Truthful(issues, e) {
      SurvivorIsTruthful(issues, e);
    }
    forall i, j | 0 <= i < j < |bullets| ensures Goes(bullets[i], bullets[j]) {
      assert bullets[i] in bullets && bullets[j] in bullets;
      assert Reported(issues, bullets[i].cat, bullets[i].level);
    }
    if |bullets| < 5 {
      forall g | g in issues ensures Covers(bullets, CheckCategory(g.check)) {
        WorstSurvives(issues, g);
      }
    }
  }

  /** The first bullet may stand before the second. */
  predicate Goes(a: Entry, b: Entry) {
    && a.cat != b.cat && (b.level == "CRIT" ==> a.level == "CRIT")
    && (a.level == b.level ==> a.count >= b.count)
  }

  ghost predicate Covers(bullets: seq<Entry>, cat: string) {
    exists e :: e in bullets && e.cat == cat
  }
}
