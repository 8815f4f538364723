/**
 The process-wide state that every `dsd mcp` tool call shares: active source, gap counter, identity and platform
 overrides. `McpPipeline` puts it under concurrency and `ReplaySession` under a sequential, mutating call.
 */
module ProcessState {
  import opened Wrappers

  /** The fields of a bundle manifest that replay pins. */
  datatype Manifest = Manifest(host: string, os: string, distroID: string, initSystem: string, goos: string)

  /** An input backend. A Recorder tees every read into its own bundle and forwards to `inner`. */
  datatype Source =
    | Live
    | Recorder(owner: nat, inner: Source)
    | Replay(owner: nat, slot: nat)

  datatype Identity = Identity(host: string, os: string)

  datatype Platform = Platform(distroID: string, initSystem: string, goos: string)

  datatype Globals = Globals(source: Source, gapCount: Option<Source>, identity: Identity, platform: Platform)

  /** Control characters (Unicode category Cc) are dropped from untrusted manifest strings. */
  predicate IsControl(c: char) {
    c < ' ' || '\U{7F}' <= c <= '\U{9F}'
  }

  function StripControl(s: string): (r: string)
    ensures forall c :: c in r <==> c in s && !IsControl(c)
    ensures (forall c :: c in s ==> !IsControl(c)) ==> r == s
  {
    if s == [] then [] else
      assert s == [s[0]] + s[1..];
      if IsControl(s[0]) then StripControl(s[1..]) else [s[0]] + StripControl(s[1..])
  }

  /** `at` are the positions of `s`, in order, that `r` consists of. */
  ghost predicate Picks(s: string, at: seq<nat>, r: string) {
    && |at| == |r|
    && (forall k :: 0 <= k < |at| ==> at[k] < |s| && r[k] == s[at[k]])
    && (forall j, k :: 0 <= j < k < |at| ==> at[j] < at[k])
  }

  /** The positions at which no control character stands. */
  ghost predicate Plain(s: string, at: seq<nat>) {
    forall i: nat :: i in at <==> i < |s| && !IsControl(s[i])
  }

  /** What is left are the characters at exactly the positions without a control character, in their order. */
  lemma {:induction false} StripControlPicks(s: string) returns (at: seq<nat>)
    ensures Picks(s, at, StripControl(s)) && Plain(s, at)
  {
    if s == [] {
      at := [];
    } else {
      var rest := StripControlPicks(s[1..]);
      var shifted := seq(|rest|, k requires 0 <= k < |rest| => rest[k] + 1);
      ShiftedPlain(s, rest, shifted);
      at := if IsControl(s[0]) then shifted else [0] + shifted;
      OneMorePicked(s, shifted, StripControl(s[1..]));
    }
  }

  lemma OneMorePicked(s: string, shifted: seq<nat>, r: string)
    requires s != [] && Picks(s, shifted, r) && 0 !in shifted
    requires forall i: nat :: i in shifted <==> 0 < i < |s| && !IsControl(s[i])
    ensures IsControl(s[0]) ==> Plain(s, shifted)
    ensures !IsControl(s[0]) ==> Picks(s, [0] + shifted, [s[0]] + r) && Plain(s, [0] + shifted)
  {
    assert forall k :: 0 <= k < |shifted| ==> shifted[k] in shifted;
    assert forall i: nat :: i in [0] + shifted <==> i == 0 || i in shifted;
  }

  lemma ShiftedPlain(s: string, rest: seq<nat>, shifted: seq<nat>)
    requires s != [] && Plain(s[1..], rest) && |shifted| == |rest|
    requires forall k :: 0 <= k < |rest| ==> shifted[k] == rest[k] + 1
    ensures forall i: nat :: i in shifted <==> 0 < i < |s| && !IsControl(s[i])
  {
    forall i: nat ensures i in shifted <==> 0 < i && i - 1 in rest {
      if 0 < i && i - 1 in rest {
        var k :| 0 <= k < |rest| && rest[k] == i - 1;
        assert shifted[k] == i;
      }
    }
  }

  function IdentityOf(m: Manifest): Identity {
    Identity(StripControl(m.host), StripControl(m.os))
  }

  /** A snapshot file records no OS; an empty override leaves that field reading live. */
  function SnapshotIdentity(m: Manifest): Identity {
    Identity(StripControl(m.host), "")
  }

  /** What Hostname and OSPrettyName return: the override where there is one, else the live value. */
  function Shown(override: Identity, live: Identity): Identity {
    Identity(if override.host != "" then override.host else live.host,
             if override.os != "" then override.os else live.os)
  }

  function PlatformOf(m: Manifest): Platform {
    Platform(StripControl(m.distroID), StripControl(m.initSystem), StripControl(m.goos))
  }

  /** The globals a collector sees while `replayBundle` runs it over manifest `m`. */
  function ReplayView(g: Globals, replay: Source, m: Manifest): Globals {
    Globals(replay, Some(replay), IdentityOf(m), PlatformOf(m))
  }

  /** The characters outside Unicode category Cc, by their codes. */
  predicate Printable(c: char) {
    0x20 <= c as int < 0x7F || 0xA0 <= c as int
  }

  /** `r` consists of the printable characters of `s`, in their order; it is `s` where all are. */
  ghost predicate Stripped(s: string, r: string) {
    && (exists at: seq<nat> :: Picks(s, at, r) && forall i: nat :: i in at <==> i < |s| && Printable(s[i]))
    && ((forall c :: c in s ==> Printable(c)) ==> r == s)
  }

  /** What the globals say about the host is what the manifest says, field by field. */
  ghost predicate CapturedHost(seen: Globals, m: Manifest) {
    && Stripped(m.host, seen.identity.host)
    && Stripped(m.os, seen.identity.os)
    && Stripped(m.distroID, seen.platform.distroID)
    && Stripped(m.initSystem, seen.platform.initSystem)
    && Stripped(m.goos, seen.platform.goos)
  }

  lemma StripControlStrips(s: string)
    ensures Stripped(s, StripControl(s))
  {
    var at := StripControlPicks(s);
    assert forall c :: Printable(c) <==> !IsControl(c);
    assert Picks(s, at, StripControl(s));
  }

  /** Pinning the identity and the platform of a manifest shows the host it was captured on. */
  lemma {:induction false} PinnedIsCapturedHost(g: Globals, m: Manifest)
    ensures CapturedHost(g.(identity := IdentityOf(m), platform := PlatformOf(m)), m)
  {
    StripControlStrips(m.host);
    StripControlStrips(m.os);
    StripControlStrips(m.distroID);
    StripControlStrips(m.initSystem);
    StripControlStrips(m.goos);
  }

  /** The owners of the bundles that a read through `s` is recorded into. */
  function Tees(s: Source): (owners: set<nat>) {
    match s
    case Recorder(owner, inner) => {owner} + Tees(inner)
    case _ => {}
  }

  /** The source that answers in the end. */
  function Backend(s: Source): Source {
    match s
    case Recorder(_, inner) => Backend(inner)
    case _ => s
  }

  /** A deferred restore action. */
  datatype Undo =
    | Unlock
    | PutSource(source: Source)
    | ClearGap
    | PutIdentity(identity: Identity)
    | PutPlatform(platform: Platform)

  function Undone(g: Globals, u: Undo): Globals {
    match u
    case Unlock => g
    case PutSource(s) => g.(source := s)
    case ClearGap => g.(gapCount := None)
    case PutIdentity(id) => g.(identity := id)
    case PutPlatform(p) => g.(platform := p)
  }

  /** A LIFO stack. */
  datatype Stack<T> = Empty | Push(top: T, rest: Stack<T>)

  /** The globals after every deferred action of `us` has run, most recent first. */
  function PopAll(g: Globals, us: Stack<Undo>): Globals
    decreases us
  {
    match us
    case Empty => g
    case Push(u, rest) => PopAll(Undone(g, u), rest)
  }
}
