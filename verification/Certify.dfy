/** Certification of a migration (cmd/migrate.go) and of a wave (cmd/migrate_wave.go): how loops reach a verdict. */
module Certify {
  import opened Sequences
  import opened Text
  import opened Wrappers

  datatype Verdict = Pass | Warn | Fail

  /** One line of a diff; Before and After read "STATUS value" or "absent". */
  datatype DiffEntry = DiffEntry(name: string, before: string, after: string, unverified: bool)

  function StatusSeverity(s: string): (r: nat)
    ensures r <= 3
  {
    var t := ToUpper(TrimSpace(s));
    if t == "CRIT" || t == "CRITICAL" || t == "FAIL" then 3
    else if t == "WARN" || t == "WARNING" then 2
    else if t == "UNKNOWN" || t == "INFO" then 1
    else 0
  }

  function FirstToken(s: string): string {
    var t := TrimSpace(s);
    match Index(t, " ")
    case Some(i) => t[..i]
    case None => t
  }

  /** Equality under Unicode simple folding, where one side is the ASCII word "absent". */
  predicate IsAbsent(token: string) {
    ToUpper(token) == "ABSENT"
  }

  // ----- what one entry contributes

  predicate Absent(e: DiffEntry) {
    IsAbsent(FirstToken(e.after))
  }

  function Before(e: DiffEntry): nat {
    StatusSeverity(FirstToken(e.before))
  }

  function After(e: DiffEntry): nat {
    StatusSeverity(FirstToken(e.after))
  }

  /** The check vanished, and the destination could not confirm that it should have. */
  predicate Unconfirmed(e: DiffEntry) {
    Absent(e) && e.unverified
  }

  /** The check got strictly worse, or a confirmed problem can no longer be measured. */
  predicate Regression(e: DiffEntry) {
    !Absent(e) && (After(e) > Before(e) || (Before(e) >= 2 && After(e) == 1))
  }

  function Rank(v: Verdict): nat {
    match v
    case Pass => 0
    case Warn => 1
    case Fail => 2
  }

  function Join(a: Verdict, b: Verdict): Verdict {
    if Rank(a) >= Rank(b) then a else b
  }

  function VerdictOf(e: DiffEntry): Verdict {
    if Unconfirmed(e) then Warn
    else if !Regression(e) then Pass
    else if After(e) == 3 then Fail
    else Warn
  }

  datatype Certificate = Certificate(verdict: Verdict, regressions: seq<DiffEntry>, unconfirmed: seq<DiffEntry>)

  const EMPTY := Certificate(Pass, [], [])

  /** Certificates compose: verdicts join and the lists follow each other. */
  function Joined(a: Certificate, b: Certificate): Certificate {
    Certificate(Join(a.verdict, b.verdict), a.regressions + b.regressions, a.unconfirmed + b.unconfirmed)
  }

  function CertificateOf(e: DiffEntry): Certificate {
    Certificate(VerdictOf(e), if Regression(e) then [e] else [], if Unconfirmed(e) then [e] else [])
  }

  function Certified(diff: seq<DiffEntry>): Certificate {
    if diff == [] then EMPTY else Joined(Certified(diff[..|diff| - 1]), CertificateOf(diff[|diff| - 1]))
  }

  method CertifyVerdict(diff: seq<DiffEntry>)
    returns (verdict: Verdict, regressions: seq<DiffEntry>, unconfirmed: seq<DiffEntry>)
    ensures Certificate(verdict, regressions, unconfirmed) == Certified(diff)
  {
    verdict, regressions, unconfirmed := Pass, [], [];
    for n := 0 to |diff|
      invariant Certificate(verdict, regressions, unconfirmed) == Certified(diff[..n])
    {
      assert diff[..n + 1][..n] == diff[..n];
      verdict, regressions, unconfirmed := CertifyEntry(diff[n], verdict, regressions, unconfirmed);
    }
    assert diff[..|diff|] == diff;
  }

  /** One round of the loop; the verdict is only ever raised. */
  method CertifyEntry(e: DiffEntry, v: Verdict, rs: seq<DiffEntry>, us: seq<DiffEntry>)
    returns (verdict: Verdict, regressions: seq<DiffEntry>, unconfirmed: seq<DiffEntry>)
    ensures Certificate(verdict, regressions, unconfirmed) == Joined(Certificate(v, rs, us), CertificateOf(e))
  {
    verdict, regressions, unconfirmed := v, rs, us;
    var absent, before, after := Absent(e), Before(e), After(e);
    if absent {
      if e.unverified {
        unconfirmed := unconfirmed + [e];
        if verdict != Fail {
          verdict := Warn;
        }
      }
      return;
    }
    var regression := after > before || (before >= 2 && after == 1);
    if !regression {
      return;
    }
    regressions := regressions + [e];
    if after >= 3 {
      verdict := Fail;
    } else if verdict != Fail {
      verdict := Warn;
    }
  }

  // ----- certification is a homomorphism

  lemma JoinedAssociates(a: Certificate, b: Certificate, c: Certificate)
    ensures Joined(Joined(a, b), c) == Joined(a, Joined(b, c))
    ensures Joined(a, EMPTY) == a && Joined(EMPTY, a) == a
  {
  }

  /** Certifying two diffs in a row is joining their certificates. */
  lemma {:induction false} CertifiedAppend(a: seq<DiffEntry>, b: seq<DiffEntry>)
    ensures Certified(a + b) == Joined(Certified(a), Certified(b))
    decreases |b|
  {
    if b == [] {
      assert a + b == a;
      JoinedAssociates(Certified(a), EMPTY, EMPTY);
    } else {
      var n := |b| - 1;
      assert (a + b)[..|a + b| - 1] == a + b[..n];
      CertifiedAppend(a, b[..n]);
      JoinedAssociates(Certified(a), Certified(b[..n]), CertificateOf(b[n]));
    }
  }

  /** The verdict is the worst of the entries', and the lists hold exactly the entries that count. */
  ghost predicate Describes(c: Certificate, diff: seq<DiffEntry>) {
    && (c.verdict == Fail <==> exists e :: e in diff && VerdictOf(e) == Fail)
    && (c.verdict == Pass <==> forall e :: e in diff ==> VerdictOf(e) == Pass)
    && (forall e :: e in c.regressions <==> e in diff && Regression(e))
    && (forall e :: e in c.unconfirmed <==> e in diff && Unconfirmed(e))
  }

  lemma {:induction false} CertifiedMeaning(diff: seq<DiffEntry>)
    ensures Describes(Certified(diff), diff)
    decreases |diff|
  {
    if diff == [] {
      NothingDescribed();
    } else {
      var before, e := diff[..|diff| - 1], diff[|diff| - 1];
      assert diff == before + [e];
      CertifiedMeaning(before);
      JoinedMeaning(Certified(before), before, e);
    }
  }

  lemma NothingDescribed()
    ensures Describes(EMPTY, [])
  {
  }

  lemma {:induction false} JoinedMeaning(c: Certificate, diff: seq<DiffEntry>, e: DiffEntry)
    requires Describes(c, diff)
    ensures Describes(Joined(c, CertificateOf(e)), diff + [e])
  {
    var v := VerdictOf(e);
    assert CertificateOf(e).verdict == v;
    assert forall x :: x in diff + [e] <==> x in diff || x == e;
  }

  /** FAIL needs a check that became critical from below; a vanished check never suffices. */
  lemma {:induction false} FailIffNewlyCritical(diff: seq<DiffEntry>)
    ensures Certified(diff).verdict == Fail <==> exists e :: e in diff && !Absent(e) && After(e) == 3 && Before(e) < 3
  {
    CertifiedMeaning(diff);
    assert forall e :: VerdictOf(e) == Fail <==> !Absent(e) && After(e) == 3 && Before(e) < 3;
  }

  /** PASS is exactly: nothing regressed and nothing vanished unconfirmed. */
  lemma {:induction false} PassIffNothingReported(diff: seq<DiffEntry>)
    ensures Certified(diff).verdict == Pass <==> Certified(diff).regressions == [] && Certified(diff).unconfirmed == []
  {
    CertifiedMeaning(diff);
    var c := Certified(diff);
    if c.verdict != Pass {
      var e :| e in diff && VerdictOf(e) != Pass;
      assert e in c.regressions || e in c.unconfirmed;
    } else {
      NoMembersNoList(c.regressions);
      NoMembersNoList(c.unconfirmed);
    }
  }

  lemma NoMembersNoList(es: seq<DiffEntry>)
    ensures es != [] ==> exists e :: e in es
  {
    if es != [] {
      assert es[0] in es;
    }
  }

  /** The entries at these positions, which are all that the condition holds of, in order. */
  ghost predicate Listed(diff: seq<DiffEntry>, at: seq<nat>, es: seq<DiffEntry>) {
    |at| == |es| && Positions(at, |diff|) && forall k :: 0 <= k < |at| ==> es[k] == diff[at[k]]
  }

  predicate WorseOrUnmeasured(e: DiffEntry) {
    !Absent(e) && (After(e) > Before(e) || (Before(e) >= 2 && After(e) == 1))
  }

  predicate GoneUnverified(e: DiffEntry) {
    Absent(e) && e.unverified
  }

  ghost predicate AllWorse(diff: seq<DiffEntry>, at: seq<nat>) {
    forall i: nat :: i in at <==> i < |diff| && WorseOrUnmeasured(diff[i])
  }

  ghost predicate AllGone(diff: seq<DiffEntry>, at: seq<nat>) {
    forall i: nat :: i in at <==> i < |diff| && GoneUnverified(diff[i])
  }

  lemma CertifiedLast(before: seq<DiffEntry>, e: DiffEntry)
    ensures var c, d := Certified(before), Certified(before + [e]);
      && d.regressions == c.regressions + (if Regression(e) then [e] else [])
      && d.unconfirmed == c.unconfirmed + (if Unconfirmed(e) then [e] else [])
  {
    assert (before + [e])[..|before|] == before;
  }

  lemma OneMoreListed(diff: seq<DiffEntry>, e: DiffEntry, at: seq<nat>, es: seq<DiffEntry>, kept: bool)
    requires Listed(diff, at, es)
    ensures Listed(diff + [e], if kept then at + [|diff|] else at, es + if kept then [e] else [])
  {
  }

  lemma OneMoreMarked(diff: seq<DiffEntry>, e: DiffEntry, worse: seq<nat>, gone: seq<nat>)
    requires AllWorse(diff, worse) && AllGone(diff, gone)
    ensures AllWorse(diff + [e], if Regression(e) then worse + [|diff|] else worse)
    ensures AllGone(diff + [e], if Unconfirmed(e) then gone + [|diff|] else gone)
  {
    assert forall i: nat :: i in worse + [|diff|] <==> i in worse || i == |diff|;
    assert forall i: nat :: i in gone + [|diff|] <==> i in gone || i == |diff|;
  }

  /** The first list is of the entries that got worse, the second of those that vanished unverified. */
  ghost predicate Sorts(diff: seq<DiffEntry>, worse: seq<nat>, gone: seq<nat>, rs: seq<DiffEntry>, us: seq<DiffEntry>) {
    Listed(diff, worse, rs) && AllWorse(diff, worse) && Listed(diff, gone, us) && AllGone(diff, gone)
  }

  lemma SortsOneMore(diff: seq<DiffEntry>, e: DiffEntry, worse: seq<nat>, gone: seq<nat>, rs: seq<DiffEntry>,
                     us: seq<DiffEntry>)
    requires Sorts(diff, worse, gone, rs, us)
    ensures Sorts(diff + [e],
      if Regression(e) then worse + [|diff|] else worse, if Unconfirmed(e) then gone + [|diff|] else gone,
      rs + (if Regression(e) then [e] else []), us + if Unconfirmed(e) then [e] else [])
  {
    OneMoreListed(diff, e, worse, rs, Regression(e));
    OneMoreListed(diff, e, gone, us, Unconfirmed(e));
    OneMoreMarked(diff, e, worse, gone);
  }

  /** Both lists hold just these entries of the diff, in its order. */
  lemma {:induction false} ListsMeaning(diff: seq<DiffEntry>) returns (worse: seq<nat>, gone: seq<nat>)
    ensures Sorts(diff, worse, gone, Certified(diff).regressions, Certified(diff).unconfirmed)
    decreases |diff|
  {
    if diff == [] {
      worse, gone := [], [];
    } else {
      var before, e := diff[..|diff| - 1], diff[|diff| - 1];
      assert before + [e] == diff;
      worse, gone := ListsMeaning(before);
      CertifiedLast(before, e);
      SortsOneMore(before, e, worse, gone, Certified(before).regressions, Certified(before).unconfirmed);
      worse := if Regression(e) then worse + [|before|] else worse;
      gone := if Unconfirmed(e) then gone + [|before|] else gone;
    }
  }

  // ----- waves

  datatype WaveResult = WaveResult(certificate: Certificate, error: bool)

  /** The diff of a pair, or the load or platform error that prevented one. */
  type Pair = Option<seq<DiffEntry>>

  function CertifiedPair(p: Pair): WaveResult {
    match p
    case Some(diff) => WaveResult(Certified(diff), false)
    case None => WaveResult(Certificate(Fail, [], []), true)
  }

  method CertifyWave(pairs: seq<Pair>) returns (results: seq<WaveResult>)
    ensures |results| == |pairs|
    ensures forall k :: 0 <= k < |pairs| ==> results[k] == CertifiedPair(pairs[k])
  {
    results := [];
    for n := 0 to |pairs|
      invariant |results| == n
      invariant forall k :: 0 <= k < n ==> results[k] == CertifiedPair(pairs[k])
    {
      match pairs[n]
      case Some(diff) =>
        var verdict, regressions, unconfirmed := CertifyVerdict(diff);
        results := results + [WaveResult(Certificate(verdict, regressions, unconfirmed), false)];
      case None =>
        results := results + [WaveResult(Certificate(Fail, [], []), true)];
    }
  }

  function Worst(results: seq<WaveResult>): Verdict {
    if results == [] then Pass else Join(Worst(results[..|results| - 1]), results[|results| - 1].certificate.verdict)
  }

  lemma {:induction false} WorstMeaning(results: seq<WaveResult>)
    ensures forall r :: r in results ==> Rank(r.certificate.verdict) <= Rank(Worst(results))
    ensures Worst(results) != Pass ==> exists r :: r in results && r.certificate.verdict == Worst(results)
    decreases |results|
  {
    if results != [] {
      var n := |results| - 1;
      WorstMeaning(results[..n]);
      assert results == results[..n] + [results[n]];
      assert results[n] in results;
    }
  }

  /** waveWorstVerdict returns early on the first FAIL; the answer is the join all the same. */
  method WaveWorstVerdict(results: seq<WaveResult>) returns (worst: Verdict)
    ensures worst == Worst(results)
  {
    worst := Pass;
    WorstMeaning(results);
    for n := 0 to |results|
      invariant worst == Worst(results[..n]) && worst != Fail
    {
      assert results[..n + 1][..n] == results[..n];
      var r := results[n];
      if r.certificate.verdict == Fail {
        assert r in results;
        return Fail;
      }
      if r.certificate.verdict == Warn {
        worst := Warn;
      }
    }
    assert results[..|results|] == results;
  }

  function AllEntries(pairs: seq<Pair>): seq<DiffEntry> {
    if pairs == [] then []
    else AllEntries(pairs[..|pairs| - 1]) + match pairs[|pairs| - 1] case Some(diff) => diff case None => []
  }

  function Results(pairs: seq<Pair>): seq<WaveResult> {
    seq(|pairs|, k requires 0 <= k < |pairs| => CertifiedPair(pairs[k]))
  }

  lemma WaveOneMore(before: seq<Pair>, last: Pair)
    ensures Worst(Results(before + [last])) == Join(Worst(Results(before)), CertifiedPair(last).certificate.verdict)
  {
    var pairs := before + [last];
    assert Results(pairs)[..|before|] == Results(before);
    assert Results(pairs)[|before|] == CertifiedPair(last);
  }

  /**
   A wave in which every pair loads is certified like one migration with all the checks of all the
   pairs; a pair that does not load fails the wave.
   */
  lemma {:induction false} WaveIsOneCertification(pairs: seq<Pair>)
    ensures Worst(Results(pairs)) == if None in pairs then Fail else Certified(AllEntries(pairs)).verdict
    decreases |pairs|
  {
    if pairs != [] {
      var before, last := pairs[..|pairs| - 1], pairs[|pairs| - 1];
      WaveIsOneCertification(before);
      assert pairs == before + [last];
      WaveOneMore(before, last);
      if last.Some? {
        CertifiedAppend(AllEntries(before), last.value);
      }
    }
  }

  datatype Counts = Counts(pass: nat, warn: nat, fail: nat)

  function Count(results: seq<WaveResult>, v: Verdict): nat {
    if results == [] then 0
    else Count(results[..|results| - 1], v) + if results[|results| - 1].certificate.verdict == v then 1 else 0
  }

  /** The three counters and the verdict of emitWaveJSON, and the exit code recorded for it. */
  method EmitWave(results: seq<WaveResult>) returns (verdict: Verdict, counts: Counts, code: nat)
    ensures verdict == Worst(results) && code == Rank(verdict)
    ensures (verdict == Fail <==> code == 2) && (verdict == Pass <==> code == 0) && code <= 2
    ensures counts == Counts(Count(results, Pass), Count(results, Warn), Count(results, Fail))
    ensures counts.pass + counts.warn + counts.fail == |results|
    ensures verdict == Fail <==> counts.fail > 0
    ensures verdict == Pass <==> counts.pass == |results|
  {
    verdict := WaveWorstVerdict(results);
    counts := CountVerdicts(results);
    VerdictMatchesCounts(results);
    code := match verdict case Fail => 2 case Warn => 1 case Pass => 0;
  }

  method CountVerdicts(results: seq<WaveResult>) returns (counts: Counts)
    ensures counts == Counts(Count(results, Pass), Count(results, Warn), Count(results, Fail))
    ensures counts.pass + counts.warn + counts.fail == |results|
  {
    counts := Counts(0, 0, 0);
    for n := 0 to |results|
      invariant counts == Counts(Count(results[..n], Pass), Count(results[..n], Warn), Count(results[..n], Fail))
      invariant counts.pass + counts.warn + counts.fail == n
    {
      assert results[..n + 1][..n] == results[..n];
      match results[n].certificate.verdict
      case Fail => counts := counts.(fail := counts.fail + 1);
      case Warn => counts := counts.(warn := counts.warn + 1);
      case Pass => counts := counts.(pass := counts.pass + 1);
    }
    assert results[..|results|] == results;
  }

  lemma {:induction false} VerdictMatchesCounts(results: seq<WaveResult>)
    ensures Worst(results) == Fail <==> Count(results, Fail) > 0
    ensures Worst(results) == Pass <==> Count(results, Fail) == 0 && Count(results, Warn) == 0
    decreases |results|
  {
    if results != [] {
      VerdictMatchesCounts(results[..|results| - 1]);
    }
  }
}
