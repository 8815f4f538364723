/** The two verdicts of `dsd tls`: the exit code from the level a scan assigned, the --json status from the days. */
module Tls {
  import opened Sequences
  import opened Text
  import opened Wrappers

  datatype Level = LOK | LWarn | LCrit | LErr

  /** A scan result; `error` is empty exactly for a certificate that was read. */
  datatype CertResult = CertResult(path: string, daysLeft: int, level: Level, error: string, needsRoot: bool)

  /** An error message is never empty. */
  type Message = s: string | s != "" witness "x"

  /** A PEM block of a certificate file: something else, a certificate that does not parse, or one that does. */
  datatype Block = OtherBlock | Unparsable(error: Message) | Leaf(secondsLeft: int)

  datatype CertFile = Unreadable(error: Message) | Readable(blocks: seq<Block>)

  datatype Thresholds = Thresholds(warnDays: int, critDays: int)

  function LevelFor(daysLeft: int, t: Thresholds): Level {
    if daysLeft <= t.critDays then LCrit
    else if daysLeft <= t.warnDays then LWarn
    else LOK
  }

  /** Whole days, truncated towards zero as Go's conversion to int does. */
  function DaysOf(secondsLeft: int): int {
    if secondsLeft >= 0 then secondsLeft / 86400 else -((-secondsLeft) / 86400)
  }

  /** expiryDays, for remote endpoints: what has expired is at least one day past. */
  function ExpiryDays(secondsLeft: int): int {
    var days := DaysOf(secondsLeft);
    if days == 0 && secondsLeft < 0 then -1 else days
  }

  function FailureAt(path: string, error: Message): (r: CertResult) {
    CertResult(path, 0, LErr, error, false)
  }

  function CertificateAt(path: string, daysLeft: int, t: Thresholds): (r: CertResult) {
    CertResult(path, daysLeft, LevelFor(daysLeft, t), "", false)
  }

  /** What every producer guarantees about its results. */
  predicate Produced(r: CertResult, t: Thresholds) {
    && (r.level == LErr <==> r.error != "")
    && (r.error == "" ==> r.level == LevelFor(r.daysLeft, t))
    && (r.needsRoot ==> r.level == LErr)
  }

  ghost predicate AllProduced(results: seq<CertResult>, t: Thresholds) {
    forall r :: r in results ==> Produced(r, t)
  }

  /** The blocks that are looked at: up to the first certificate that parses. */
  function UpToLeaf(blocks: seq<Block>): seq<Block> {
    if blocks == [] then []
    else if blocks[0].Leaf? then [blocks[0]]
    else [blocks[0]] + UpToLeaf(blocks[1..])
  }

  /** What the report says of one block. */
  function ReportOf(path: string, t: Thresholds): Block -> seq<CertResult> {
    (b: Block) =>
      match b
      case OtherBlock => []
      case Unparsable(error) => [FailureAt(path, error)]
      case Leaf(secondsLeft) => [CertificateAt(path, DaysOf(secondsLeft), t)]
  }

  lemma {:induction false} UpToLeafAt(blocks: seq<Block>, n: nat)
    requires n <= |blocks| && forall j :: 0 <= j < n ==> !blocks[j].Leaf?
    ensures n == |blocks| ==> UpToLeaf(blocks) == blocks
    ensures n < |blocks| && blocks[n].Leaf? ==> UpToLeaf(blocks) == blocks[..n + 1]
    decreases n
  {
    if n > 0 {
      assert blocks == [blocks[0]] + blocks[1..];
      UpToLeafAt(blocks[1..], n - 1);
      if n < |blocks| {
        assert blocks[..n + 1] == [blocks[0]] + blocks[1..][..n];
      }
    }
  }

  lemma FlatOneMore<A, B>(xs: seq<A>, n: nat, f: A -> seq<B>)
    requires n < |xs|
    ensures Flat(xs[..n + 1], f) == Flat(xs[..n], f) + f(xs[n])
  {
    assert xs[..n + 1][..n] == xs[..n];
  }

  /** The report on a certificate file. */
  function Scanned(path: string, file: CertFile, t: Thresholds): seq<CertResult> {
    match file
    case Unreadable(error) => [FailureAt(path, error)]
    case Readable(blocks) =>
      if blocks == [] then [FailureAt(path, NoPem())] else Flat(UpToLeaf(blocks), ReportOf(path, t))
  }

  /**
   scanCertFile: every certificate that does not parse before the first that does is an error, in order, and that
   one ends the report.
   */
  method ScanCertFile(path: string, file: CertFile, t: Thresholds) returns (results: seq<CertResult>)
    ensures results == Scanned(path, file, t)
  {
    if file.Unreadable? {
      return [FailureAt(path, file.error)];
    }
    var blocks := file.blocks;
    var sawAnyBlock := false;
    results := [];
    var n := 0;
    while n < |blocks|
      invariant 0 <= n <= |blocks| && (sawAnyBlock <==> n > 0)
      invariant results == Flat(blocks[..n], ReportOf(path, t))
      invariant forall j :: 0 <= j < n ==> !blocks[j].Leaf?
    {
      FlatOneMore(blocks, n, ReportOf(path, t));
      sawAnyBlock := true;
      match blocks[n] {
        case OtherBlock =>
        case Unparsable(error) =>
          results := results + [FailureAt(path, error)];
        case Leaf(secondsLeft) =>
          results := results + [CertificateAt(path, DaysOf(secondsLeft), t)];
          UpToLeafAt(blocks, n);
          return;
      }
      n := n + 1;
    }
    UpToLeafAt(blocks, n);
    assert blocks[..n] == blocks;
    if results == [] && !sawAnyBlock {
      results := [FailureAt(path, NoPem())];
    }
  }

  /** A file drops out of the report only when it holds PEM blocks and none is a certificate. */
  lemma {:induction false} DropsOutIff(path: string, file: CertFile, t: Thresholds)
    ensures Scanned(path, file, t) == [] <==>
      file.Readable? && file.blocks != [] && forall b :: b in file.blocks ==> b == OtherBlock
  {
    if file.Readable? {
      NothingReportedIff(file.blocks, path, t);
    }
  }

  lemma {:induction false} NothingReportedIff(blocks: seq<Block>, path: string, t: Thresholds)
    ensures Flat(UpToLeaf(blocks), ReportOf(path, t)) == [] <==> forall b :: b in blocks ==> b == OtherBlock
  {
    if blocks != [] {
      var first, rest := blocks[0], UpToLeaf(blocks[1..]);
      assert blocks == [first] + blocks[1..];
      NothingReportedIff(blocks[1..], path, t);
      FlatOne(first, ReportOf(path, t));
      FlatAppend([first], rest, ReportOf(path, t));
      assert first in blocks;
      assert UpToLeaf(blocks) == if first.Leaf? then [first] else [first] + rest;
      assert forall b :: b in blocks <==> b == first || b in blocks[1..];
    }
  }

  /** What a file contributes is what the two verdicts rely on. */
  lemma {:induction false} ScannedIsProduced(path: string, file: CertFile, t: Thresholds)
    ensures AllProduced(Scanned(path, file, t), t)
    ensures forall r :: r in Scanned(path, file, t) ==> r.path == path && !r.needsRoot
  {
    if file.Readable? && file.blocks != [] {
      forall r | r in Flat(UpToLeaf(file.blocks), ReportOf(path, t))
        ensures Produced(r, t) && r.path == path && !r.needsRoot
      {
        FlatMembers(UpToLeaf(file.blocks), ReportOf(path, t), r);
      }
    }
  }

  function NoPem(): Message {
    var text := "no PEM data found (not a valid PEM-encoded file)";
    assert |text| > 0;
    text
  }

  /** What dialling an endpoint gave: the time its leaf certificate has left, or why there is none. */
  datatype Dial = NoCertificate(error: Message) | LeafFor(secondsLeft: int)

  function Answered(ep: string, dial: Dial, t: Thresholds): (r: CertResult) {
    match dial
    case NoCertificate(error) => FailureAt(ep, error)
    case LeafFor(secondsLeft) => CertificateAt(ep, ExpiryDays(secondsLeft), t)
  }

  /** The result for an endpoint as given on the command line; none for a blank one. */
  function AnswerTo(dial: string -> Dial, t: Thresholds): string -> seq<CertResult> {
    (remote: string) =>
      var ep := TrimSpace(remote);
      if ep == "" then [] else [Answered(ep, dial(ep), t)]
  }

  /** scanRemoteEndpoints: one result for every endpoint that is not blank, in order. */
  method ScanRemoteEndpoints(remotes: seq<string>, dial: string -> Dial, t: Thresholds) returns (out: seq<CertResult>)
    ensures out == Flat(remotes, AnswerTo(dial, t)) && AllProduced(out, t)
  {
    out := [];
    for n := 0 to |remotes|
      invariant out == Flat(remotes[..n], AnswerTo(dial, t)) && AllProduced(out, t)
    {
      FlatOneMore(remotes, n, AnswerTo(dial, t));
      var ep := TrimSpace(remotes[n]);
      if ep == "" {
        continue;
      }
      out := out + [Answered(ep, dial(ep), t)];
    }
    assert remotes[..|remotes|] == remotes;
  }

  /** unreadableDirResults: an unprivileged run could not read the directory, a privileged one failed. */
  method UnreadableDirResults(dirs: seq<string>, euid: int) returns (out: seq<CertResult>)
    ensures |out| == |dirs|
    ensures forall k :: 0 <= k < |dirs| ==>
      out[k].path == dirs[k] && out[k].level == LErr && out[k].error != "" && (out[k].needsRoot <==> euid != 0)
  {
    out := [];
    for n := 0 to |dirs|
      invariant |out| == n
      invariant forall k :: 0 <= k < n ==>
        out[k].path == dirs[k] && out[k].level == LErr && out[k].error != "" && (out[k].needsRoot <==> euid != 0)
    {
      var d := dirs[n];
      var r := CertResult(d, 0, LErr, "could not read " + d, false);
      if euid != 0 {
        r := r.(error := "needs root: could not read " + d + " (re-run with sudo)", needsRoot := true);
      }
      out := out + [r];
    }
  }

  // ----- the text report

  function Tally(results: seq<CertResult>, p: CertResult -> bool): nat {
    if results == [] then 0 else Tally(results[..|results| - 1], p) + if p(results[|results| - 1]) then 1 else 0
  }

  function AtLevel(level: Level): CertResult -> bool {
    (r: CertResult) => r.level == level
  }

  predicate NeedsRoot(r: CertResult) {
    r.level == LErr && r.needsRoot
  }

  predicate Uncheckable(r: CertResult) {
    r.level == LErr && !r.needsRoot
  }

  lemma {:induction false} TallyPositive(results: seq<CertResult>, p: CertResult -> bool)
    ensures Tally(results, p) > 0 <==> exists r :: r in results && p(r)
    decreases |results|
  {
    if results != [] {
      var n := |results| - 1;
      TallyPositive(results[..n], p);
      assert results == results[..n] + [results[n]];
      assert results[n] in results;
    }
  }

  lemma {:induction false} ErrorsSplit(results: seq<CertResult>)
    ensures Tally(results, AtLevel(LErr)) == Tally(results, NeedsRoot) + Tally(results, Uncheckable)
    decreases |results|
  {
    if results != [] {
      ErrorsSplit(results[..|results| - 1]);
    }
  }

  /** countTLSLevels and countTLSNeedsRoot. */
  method CountLevels(results: seq<CertResult>) returns (crits: nat, warns: nat, oks: nat, errs: nat, skipped: nat)
    ensures crits == Tally(results, AtLevel(LCrit)) && warns == Tally(results, AtLevel(LWarn))
    ensures oks == Tally(results, AtLevel(LOK)) && errs == Tally(results, AtLevel(LErr))
    ensures skipped == Tally(results, NeedsRoot)
    ensures crits + warns + oks + errs == |results|
  {
    crits, warns, oks, errs, skipped := 0, 0, 0, 0, 0;
    for n := 0 to |results|
      invariant crits == Tally(results[..n], AtLevel(LCrit)) && warns == Tally(results[..n], AtLevel(LWarn))
      invariant oks == Tally(results[..n], AtLevel(LOK)) && errs == Tally(results[..n], AtLevel(LErr))
      invariant skipped == Tally(results[..n], NeedsRoot)
      invariant crits + warns + oks + errs == n
    {
      assert results[..n + 1][..n] == results[..n];
      match results[n].level
      case LCrit => crits := crits + 1;
      case LWarn => warns := warns + 1;
      case LOK => oks := oks + 1;
      case LErr =>
        errs := errs + 1;
        if results[n].needsRoot {
          skipped := skipped + 1;
        }
    }
    assert results[..|results|] == results;
  }

  /** The exit code of the text report, stated on the results. */
  ghost function TextExit(results: seq<CertResult>): nat {
    if exists r :: r in results && r.level == LCrit then 2
    else if exists r :: r in results && (r.level == LWarn || (r.level == LErr && !r.needsRoot)) then 1
    else 0
  }

  method RenderTLSResults(results: seq<CertResult>) returns (code: nat)
    ensures code == TextExit(results)
  {
    var crits, warns, _, errs, skipped := CountLevels(results);
    TallyPositive(results, AtLevel(LCrit));
    TallyPositive(results, AtLevel(LWarn));
    TallyPositive(results, Uncheckable);
    ErrorsSplit(results);
    errs := errs - skipped;
    code := if crits > 0 then 2 else if warns > 0 || errs > 0 then 1 else 0;
  }

  // ----- the JSON document

  datatype Status = Healthy | Warning | Critical

  /** The certificate is about to expire, or the scan failed for a reason that sudo does not remedy. */
  predicate NeedsAttention(r: CertResult, warnDays: int) {
    if r.error == "" then r.daysLeft <= warnDays else !r.needsRoot
  }

  /** The status of the JSON document, stated on the results. */
  ghost function JsonStatus(results: seq<CertResult>, warnDays: int): Status {
    if exists r :: r in results && r.error == "" && r.daysLeft < 0 then Critical
    else if exists r :: r in results && NeedsAttention(r, warnDays) then Warning
    else Healthy
  }

  predicate WasRead(r: CertResult) {
    r.error == ""
  }

  predicate Failed(r: CertResult) {
    r.error != ""
  }

  predicate Expired(r: CertResult) {
    r.error == "" && r.daysLeft < 0
  }

  predicate Remediless(r: CertResult) {
    r.error != "" && !r.needsRoot
  }

  function ExpiringWithin(days: int): CertResult -> bool {
    (r: CertResult) => r.error == "" && 0 <= r.daysLeft <= days
  }

  method BuildTLSInfo(results: seq<CertResult>, warnDays: int)
    returns (status: Status, certs: nat, expired: nat, expiring: nat, uncheckable: nat)
    ensures status == JsonStatus(results, warnDays)
    ensures certs == Tally(results, WasRead) && uncheckable == Tally(results, Failed)
    ensures expired == Tally(results, Expired) && expiring == Tally(results, ExpiringWithin(warnDays))
    ensures certs + uncheckable == |results| && expired + expiring <= certs
  {
    certs, expired, expiring, uncheckable := 0, 0, 0, 0;
    var skipped := 0;
    for n := 0 to |results|
      invariant certs == Tally(results[..n], WasRead) && uncheckable == Tally(results[..n], Failed)
      invariant expired == Tally(results[..n], Expired)
      invariant expiring == Tally(results[..n], ExpiringWithin(warnDays))
      invariant skipped + Tally(results[..n], Remediless) == uncheckable
      invariant certs + uncheckable == n && expired + expiring <= certs
    {
      var r := results[n];
      assert results[..n + 1][..n] == results[..n];
      if r.error != "" {
        uncheckable := uncheckable + 1;
        if r.needsRoot {
          skipped := skipped + 1;
        }
      } else {
        certs := certs + 1;
        if r.daysLeft < 0 {
          expired := expired + 1;
        } else if r.daysLeft <= warnDays {
          expiring := expiring + 1;
        }
      }
    }
    assert results[..|results|] == results;
    var other := uncheckable - skipped;
    TallyPositive(results, Expired);
    TallyPositive(results, ExpiringWithin(warnDays));
    TallyPositive(results, Remediless);
    status := if expired > 0 then Critical else if expiring > 0 || other > 0 then Warning else Healthy;
  }

  // ----- when the two agree

  /** A run for which the text report is silent and the JSON is "ok", or neither. */
  ghost predicate AgreeOnHealth(results: seq<CertResult>, t: Thresholds) {
    TextExit(results) == 0 <==> JsonStatus(results, t.warnDays) == Healthy
  }

  /** Both verdicts flag the same days: what is past either text threshold is expired or expiring. */
  predicate SoundThresholds(t: Thresholds) {
    if t.warnDays >= -1 then t.critDays <= t.warnDays else t.critDays == -1
  }

  lemma OneResult(r: CertResult, t: Thresholds)
    requires Produced(r, t) && r.error == ""
    ensures TextExit([r]) == (if r.level == LCrit then 2 else if r.level == LWarn then 1 else 0)
    ensures JsonStatus([r], t.warnDays) ==
      if r.daysLeft < 0 then Critical else if r.daysLeft <= t.warnDays then Warning else Healthy
  {
    assert r in [r];
  }

  /**
   The exit code is 0 exactly when the status is "ok", for every list of results the scanners can produce,
   if and only if the thresholds are sound. With the defaults they are; `--crit-days` above `--warn-days`
   lets a monitor read "ok" where the command exits 2.
   */
  lemma AgreementIffSoundThresholds(t: Thresholds)
    ensures (forall results: seq<CertResult> :: AllProduced(results, t) ==> AgreeOnHealth(results, t)) <==>
      SoundThresholds(t)
  {
    if SoundThresholds(t) {
      forall results: seq<CertResult> | AllProduced(results, t) ensures AgreeOnHealth(results, t) {
        SoundThresholdsAgree(results, t);
      }
    } else {
      var days := if t.warnDays >= -1 then t.critDays else if t.critDays > -1 then t.critDays else -1;
      var r := CertificateAt("c", days, t);
      OneResult(r, t);
      assert AllProduced([r], t) && !AgreeOnHealth([r], t);
    }
  }

  lemma {:induction false} SoundThresholdsAgree(results: seq<CertResult>, t: Thresholds)
    requires AllProduced(results, t) && SoundThresholds(t)
    ensures AgreeOnHealth(results, t)
  {
    forall r | r in results
      ensures (r.level == LCrit || r.level == LWarn) <==> r.error == "" && (r.daysLeft < 0 || r.daysLeft <= t.warnDays)
      ensures r.level == LErr <==> r.error != ""
    {
      assert Produced(r, t);
    }
  }

  /** A "critical" status implies exit code 2, for all results, exactly when an expired certificate is always CRIT. */
  lemma CriticalImpliesExitTwoIff(t: Thresholds)
    ensures t.critDays >= -1 <==> forall results: seq<CertResult> ::
      AllProduced(results, t) && JsonStatus(results, t.warnDays) == Critical ==> TextExit(results) == 2
  {
    if t.critDays >= -1 {
      forall results: seq<CertResult> | AllProduced(results, t) && JsonStatus(results, t.warnDays) == Critical
        ensures TextExit(results) == 2
      {
        var r :| r in results && r.error == "" && r.daysLeft < 0;
        assert Produced(r, t);
      }
    } else {
      var r := CertificateAt("c", -1, t);
      OneResult(r, t);
      assert AllProduced([r], t) && JsonStatus([r], t.warnDays) == Critical && TextExit([r]) != 2;
    }
  }

  /** The converse, that exit code 2 means "critical", holds exactly when no unexpired certificate is CRIT. */
  lemma {:induction false} ExitTwoImpliesCriticalIff(t: Thresholds)
    ensures t.critDays < 0 <==> forall results: seq<CertResult> ::
      AllProduced(results, t) && TextExit(results) == 2 ==> JsonStatus(results, t.warnDays) == Critical
  {
    if t.critDays < 0 {
      forall results: seq<CertResult> | AllProduced(results, t) && TextExit(results) == 2
        ensures JsonStatus(results, t.warnDays) == Critical
      {
        var r :| r in results && r.level == LCrit;
        assert Produced(r, t);
      }
    } else {
      var r := CertificateAt("c", t.critDays, t);
      OneResult(r, t);
      assert AllProduced([r], t) && TextExit([r]) == 2 && JsonStatus([r], t.warnDays) != Critical;
    }
  }

  /** With the default thresholds, a certificate that expires in three days exits 2 and reads "warning". */
  lemma ExitTwoIsNotCritical()
    ensures var t, results := Thresholds(30, 7), [CertificateAt("a.pem", 3, Thresholds(30, 7))];
      AllProduced(results, t) && TextExit(results) == 2 && JsonStatus(results, t.warnDays) == Warning
  {
    OneResult(CertificateAt("a.pem", 3, Thresholds(30, 7)), Thresholds(30, 7));
  }

  /** With --crit-days above --warn-days, one that expires in twenty days exits 2 and reads "ok". */
  lemma UnsoundThresholdsDisagree()
    ensures var t, results := Thresholds(7, 30), [CertificateAt("a.pem", 20, Thresholds(7, 30))];
      AllProduced(results, t) && TextExit(results) == 2 && JsonStatus(results, t.warnDays) == Healthy
  {
    OneResult(CertificateAt("a.pem", 20, Thresholds(7, 30)), Thresholds(7, 30));
  }

  /** A certificate that expired an hour ago, read from a file and from an endpoint. */
  lemma FreshlyExpiredDiffers()
    ensures var t := Thresholds(30, 7);
      && JsonStatus([CertificateAt("a", DaysOf(-3600), t)], t.warnDays) == Warning
      && JsonStatus([Answered("a", LeafFor(-3600), t)], t.warnDays) == Critical
  {
    var t := Thresholds(30, 7);
    OneResult(CertificateAt("a", DaysOf(-3600), t), t);
    OneResult(CertificateAt("a", ExpiryDays(-3600), t), t);
  }

  /**
   A certificate file counts as expired only a full day late, an endpoint at once. So the same certificate
   gets the same verdicts from both scans, for all thresholds, exactly when it is not in its first expired day.
   */
  lemma {:induction false} ExpiredCountsAfterADay(path: string, secondsLeft: int, t: Thresholds)
    ensures JsonStatus([CertificateAt(path, DaysOf(secondsLeft), t)], t.warnDays) == Critical <==> secondsLeft <= -86400
    ensures JsonStatus([Answered(path, LeafFor(secondsLeft), t)], t.warnDays) == Critical <==> secondsLeft < 0
  {
    OneResult(CertificateAt(path, DaysOf(secondsLeft), t), t);
    OneResult(CertificateAt(path, ExpiryDays(secondsLeft), t), t);
  }

  lemma FileMatchesEndpointIff(path: string, secondsLeft: int)
    ensures !(-86400 < secondsLeft < 0) <==> forall t: Thresholds ::
      CertificateAt(path, DaysOf(secondsLeft), t) == Answered(path, LeafFor(secondsLeft), t)
  {
    var t := Thresholds(30, 7);
    assert CertificateAt(path, DaysOf(secondsLeft), t) == Answered(path, LeafFor(secondsLeft), t) ==>
      !(-86400 < secondsLeft < 0);
  }
}
