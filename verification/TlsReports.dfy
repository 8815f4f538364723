/** What the two scans of `Tls` report, entry by entry, from the time each certificate has left and the two flags. */
module TlsReports {
  import opened Sequences
  import opened Text
  import opened Tls
  import opened Wrappers

  /** `days` whole days are left, or have gone by, on a certificate with this many seconds left. */
  predicate WholeDays(secondsLeft: int, days: int) {
    if secondsLeft >= 0 then 86400 * days <= secondsLeft < 86400 * (days + 1)
    else 86400 * (days - 1) < secondsLeft <= 86400 * days
  }

  /** For an endpoint, but in the first day after it expired the certificate counts as one day past. */
  predicate EndpointDays(secondsLeft: int, days: int) {
    if -86400 < secondsLeft < 0 then days == -1 else WholeDays(secondsLeft, days)
  }

  /** A certificate file has reached a threshold of this many days. */
  predicate FileWithin(secondsLeft: int, threshold: int) {
    if threshold >= 0 then secondsLeft < 86400 * (threshold + 1) else secondsLeft <= 86400 * threshold
  }

  predicate EndpointWithin(secondsLeft: int, threshold: int) {
    if threshold >= -1 then secondsLeft < 86400 * (threshold + 1) else secondsLeft <= 86400 * threshold
  }

  predicate Flagged(level: Level, critical: bool, warning: bool) {
    && (level == LCrit <==> critical)
    && (level == LWarn <==> warning && !critical)
    && (level == LOK <==> !warning && !critical)
  }

  predicate ReportsError(path: string, error: string, r: CertResult) {
    r.path == path && r.level == LErr && r.error == error && r.daysLeft == 0 && !r.needsRoot
  }

  /** The entry of a certificate that a file holds. */
  predicate ReportsFile(path: string, secondsLeft: int, t: Thresholds, r: CertResult) {
    && r.path == path && r.error == "" && !r.needsRoot && WholeDays(secondsLeft, r.daysLeft)
    && Flagged(r.level, FileWithin(secondsLeft, t.critDays), FileWithin(secondsLeft, t.warnDays))
  }

  /** The entry of a certificate that an endpoint showed. */
  predicate ReportsEndpoint(ep: string, secondsLeft: int, t: Thresholds, r: CertResult) {
    && r.path == ep && r.error == "" && !r.needsRoot && EndpointDays(secondsLeft, r.daysLeft)
    && Flagged(r.level, EndpointWithin(secondsLeft, t.critDays), EndpointWithin(secondsLeft, t.warnDays))
  }

  lemma {:induction false} DaysAreWhole(secondsLeft: int)
    ensures WholeDays(secondsLeft, DaysOf(secondsLeft)) && EndpointDays(secondsLeft, ExpiryDays(secondsLeft))
  {
    if secondsLeft < 0 {
      var gone := -secondsLeft / 86400;
      assert 86400 * gone <= -secondsLeft < 86400 * (gone + 1);
    }
  }

  lemma {:induction false} WithinIff(secondsLeft: int, days: int, threshold: int)
    ensures WholeDays(secondsLeft, days) ==> (days <= threshold <==> FileWithin(secondsLeft, threshold))
    ensures EndpointDays(secondsLeft, days) ==> (days <= threshold <==> EndpointWithin(secondsLeft, threshold))
  {
  }

  /** What the report says of one block of a file. */
  predicate ReportsBlock(path: string, b: Block, t: Thresholds, r: CertResult) {
    match b
    case OtherBlock => false
    case Unparsable(error) => ReportsError(path, error, r)
    case Leaf(secondsLeft) => ReportsFile(path, secondsLeft, t, r)
  }

  lemma {:induction false} BlockIsReported(path: string, b: Block, t: Thresholds)
    ensures b == OtherBlock <==> ReportOf(path, t)(b) == []
    ensures b != OtherBlock ==> |ReportOf(path, t)(b)| == 1 && ReportsBlock(path, b, t, ReportOf(path, t)(b)[0])
  {
    if b.Leaf? {
      DaysAreWhole(b.secondsLeft);
      WithinIff(b.secondsLeft, DaysOf(b.secondsLeft), t.critDays);
      WithinIff(b.secondsLeft, DaysOf(b.secondsLeft), t.warnDays);
    }
  }

  /** The blocks up to and with the first certificate that parses. */
  ghost predicate Inspected(blocks: seq<Block>, stop: nat) {
    && stop <= |blocks|
    && (forall i :: 0 <= i < stop - 1 ==> !blocks[i].Leaf?)
    && (stop < |blocks| ==> stop > 0 && blocks[stop - 1].Leaf?)
  }

  lemma {:induction false} UpToLeafInspects(blocks: seq<Block>) returns (stop: nat)
    ensures Inspected(blocks, stop) && UpToLeaf(blocks) == blocks[..stop]
  {
    stop := 0;
    while stop < |blocks| && !blocks[stop].Leaf?
      invariant stop <= |blocks| && forall i :: 0 <= i < stop ==> !blocks[i].Leaf?
    {
      stop := stop + 1;
    }
    UpToLeafAt(blocks, stop);
    if stop < |blocks| {
      stop := stop + 1;
    }
    assert blocks[..|blocks|] == blocks;
  }

  /**
   The report on a file with PEM blocks, for all of them and all flags: one entry for each block up to the first
   certificate that parses, unless it is no certificate, in order, with days and level read off the seconds left.
   */
  lemma {:induction false} FileIsReported(path: string, blocks: seq<Block>, t: Thresholds)
    returns (stop: nat, at: seq<nat>)
    requires blocks != []
    ensures Inspected(blocks, stop)
    ensures var out := Scanned(path, Readable(blocks), t);
      && |at| == |out| && Positions(at, |blocks|)
      && (forall i: nat :: i in at <==> i < stop && blocks[i] != OtherBlock)
      && (forall k :: 0 <= k < |out| ==> ReportsBlock(path, blocks[at[k]], t, out[k]))
  {
    stop := UpToLeafInspects(blocks);
    var f := ReportOf(path, t);
    forall b ensures |f(b)| <= 1 {
      BlockIsReported(path, b, t);
    }
    at := FlatPositions(blocks[..stop], f);
    var out := Scanned(path, Readable(blocks), t);
    forall i: nat ensures i in at <==> i < stop && blocks[i] != OtherBlock {
      if i < stop {
        BlockIsReported(path, blocks[i], t);
      }
    }
    forall k | 0 <= k < |out| ensures ReportsBlock(path, blocks[at[k]], t, out[k]) {
      BlockIsReported(path, blocks[at[k]], t);
      assert f(blocks[..stop][at[k]]) == [out[k]];
    }
  }

  /** A file that cannot be read, or holds no PEM data, is an error. */
  lemma {:induction false} FileFails(path: string, file: CertFile, t: Thresholds)
    requires file.Unreadable? || file.blocks == []
    ensures var out := Scanned(path, file, t);
      |out| == 1 && out[0].error != "" && ReportsError(path, out[0].error, out[0])
      && (file.Unreadable? ==> out[0].error == file.error)
  {
  }

  /** What the report says of the endpoint that `remote` names. */
  predicate ReportsAnswer(ep: string, dial: Dial, t: Thresholds, r: CertResult) {
    match dial
    case NoCertificate(error) => ReportsError(ep, error, r)
    case LeafFor(secondsLeft) => ReportsEndpoint(ep, secondsLeft, t, r)
  }

  lemma {:induction false} AnswerIsReported(remote: string, dial: string -> Dial, t: Thresholds)
    ensures var ep, out := TrimSpace(remote), AnswerTo(dial, t)(remote);
      if ep == "" then out == [] else |out| == 1 && ReportsAnswer(ep, dial(ep), t, out[0])
  {
    var ep := TrimSpace(remote);
    if ep != "" && dial(ep).LeafFor? {
      var secondsLeft := dial(ep).secondsLeft;
      DaysAreWhole(secondsLeft);
      WithinIff(secondsLeft, ExpiryDays(secondsLeft), t.critDays);
      WithinIff(secondsLeft, ExpiryDays(secondsLeft), t.warnDays);
    }
  }

  /** The entry of an endpoint, under its name without blanks around it. */
  ghost predicate ReportsRemote(remote: string, dial: string -> Dial, t: Thresholds, r: CertResult) {
    Trimmed(remote, r.path) && r.path != "" && ReportsAnswer(r.path, dial(r.path), t, r)
  }

  predicate AllBlank(s: string) {
    forall c :: c in s ==> IsSpace(c)
  }

  lemma BlankIff(s: string)
    ensures TrimSpace(s) == "" <==> AllBlank(s)
  {
    TrimSpaceMeaning(s);
    var i: nat, j: nat :| Between(s, i, j) && TrimSpace(s) == s[i..j];
    if i < j {
      assert s[i] in s;
    }
  }

  /** The report on the endpoints: one entry for each that is not blank, in order. */
  lemma {:induction false} EndpointsAreReported(remotes: seq<string>, dial: string -> Dial, t: Thresholds)
    returns (at: seq<nat>)
    ensures var out := Flat(remotes, AnswerTo(dial, t));
      && |at| == |out| && Positions(at, |remotes|)
      && (forall i: nat :: i in at <==> i < |remotes| && !AllBlank(remotes[i]))
      && (forall k :: 0 <= k < |out| ==> ReportsRemote(remotes[at[k]], dial, t, out[k]))
  {
    var f := AnswerTo(dial, t);
    forall remote ensures |f(remote)| <= 1 {
      AnswerIsReported(remote, dial, t);
    }
    at := FlatPositions(remotes, f);
    forall i: nat ensures i in at <==> i < |remotes| && !AllBlank(remotes[i]) {
      if i < |remotes| {
        AnswerIsReported(remotes[i], dial, t);
        BlankIff(remotes[i]);
      }
    }
    forall k | 0 <= k < |at| ensures ReportsRemote(remotes[at[k]], dial, t, Flat(remotes, f)[k]) {
      AnswerIsReported(remotes[at[k]], dial, t);
      TrimSpaceMeaning(remotes[at[k]]);
    }
  }

  /** A certificate with three days left, under the default flags. */
  lemma {:induction false} ThreeDaysLeft()
    ensures Scanned("a.pem", Readable([Leaf(259200)]), Thresholds(30, 7))
      == [CertResult("a.pem", 3, LCrit, "", false)]
  {
  }
}
