/**
 The rules of internal/analysis/correlate.go that read raw collector data: the repeatedly OOM-killed
 process, found by ranging over a Go map, and the single degraded device among healthy peers.
 */
module DeepRules {
  import opened Text
  import opened Wrappers

  // ----- ruleServiceMemoryLeak

  /** How often `p` occurs among the kill records. */
  function Kills(events: seq<string>, p: string): nat {
    multiset(events)[p]
  }

  /** `p` was killed more often than `q`, or as often and has the smaller name. */
  predicate Leakier(events: seq<string>, p: string, q: string) {
    Kills(events, p) > Kills(events, q) || (Kills(events, p) == Kills(events, q) && Less(p, q))
  }

  /** The named process that every other named process is less leaky than. */
  ghost predicate Leakiest(events: seq<string>, p: string) {
    p != "" && p in events && forall q :: q in events && q != "" && q != p ==> Leakier(events, p, q)
  }

  lemma LeakiestIsUnique(events: seq<string>, p: string, q: string)
    requires Leakiest(events, p) && Leakiest(events, q)
    ensures p == q
  {
    if p != q {
      assert Leakier(events, p, q) && Leakier(events, q, p);
      LessTransitive(p, q, p);
      LessIrreflexive(p);
    }
  }

  method CountKills(events: seq<string>) returns (counts: map<string, nat>)
    ensures counts.Keys == set p | p in events && p != ""
    ensures forall p :: p in counts ==> counts[p] == Kills(events, p)
  {
    counts := map[];
    for n := 0 to |events|
      invariant counts.Keys == set p | p in events[..n] && p != ""
      invariant forall p :: p in counts ==> counts[p] == Kills(events[..n], p)
    {
      var e := events[n];
      assert events[..n + 1] == events[..n] + [e];
      if e != "" {
        assert e !in counts ==> Kills(events[..n], e) == 0;
        counts := counts[e := (if e in counts then counts[e] else 0) + 1];
      }
    }
    assert events[..|events|] == events;
  }

  /**
   The repeated kill that the rule reports, with its count. The loop picks the map's keys in any order
   whatsoever; the answer is the same for all of them.
   */
  method ServiceMemoryLeak(eventsLast24h: int, events: seq<string>) returns (leak: Option<(string, nat)>)
    ensures leak.Some? <==> eventsLast24h >= 2 && exists p :: p != "" && Kills(events, p) >= 2
    ensures leak.Some? ==> Leakiest(events, leak.value.0) && leak.value.1 == Kills(events, leak.value.0)
  {
    if eventsLast24h < 2 || |events| < 2 {
      return None;
    }
    var counts := CountKills(events);
    var leaker, maxCount := "", 0;
    var left := counts.Keys;
    ghost var seen: set<string> := {};
    while left != {}
      invariant left !! seen && left + seen == counts.Keys
      invariant leaker == "" <==> seen == {}
      invariant leaker == "" ==> maxCount == 0
      invariant leaker != "" ==> leaker in seen && maxCount == counts[leaker] && maxCount > 0
      invariant forall q :: q in seen && q != leaker ==> Leakier(events, leaker, q)
      decreases left
    {
      var proc :| proc in left;
      var n := counts[proc];
      assert n > 0 && proc != "";
      if n > maxCount || (n == maxCount && Less(proc, leaker)) {
        forall q | q in seen ensures Leakier(events, proc, q) {
          TakesLead(events, proc, leaker, q);
        }
        maxCount, leaker := n, proc;
      } else {
        LessTotal(proc, leaker);
      }
      left, seen := left - {proc}, seen + {proc};
    }
    assert forall p :: p in events && p != "" ==> p in counts;
    if maxCount < 2 || leaker == "" {
      assert forall p :: p != "" && Kills(events, p) >= 2 ==> p in events;
      return None;
    }
    leak := Some((leaker, maxCount));
  }

  lemma TakesLead(events: seq<string>, proc: string, leaker: string, q: string)
    requires q != leaker ==> Leakier(events, leaker, q)
    requires Kills(events, proc) > Kills(events, leaker)
      || (Kills(events, proc) == Kills(events, leaker) && Less(proc, leaker))
    ensures Leakier(events, proc, q)
  {
    if q != leaker && Less(proc, leaker) && Less(leaker, q) {
      LessTransitive(proc, leaker, q);
    }
  }

  /** The report depends on which kills happened, not on the order they were logged in. */
  lemma LeakIgnoresEventOrder(events: seq<string>, events': seq<string>, p: string, q: string)
    requires multiset(events) == multiset(events')
    requires Leakiest(events, p) && Leakiest(events', q)
    ensures p == q && Kills(events, p) == Kills(events', q)
  {
    assert forall x :: x in events <==> x in multiset(events);
    assert forall x :: x in events' <==> x in multiset(events');
    assert Leakiest(events, q);
    LeakiestIsUnique(events, p, q);
  }

  // ----- ruleIOSingleDeviceDegradation

  datatype Device = Device(name: string, awaitMs: real, utilPct: real)

  const AWAIT_ACTIVE_UTIL_FLOOR := 20.0

  predicate Degraded(d: Device) {
    (d.awaitMs > 20.0 && d.utilPct >= AWAIT_ACTIVE_UTIL_FLOOR) || d.utilPct > 85.0
  }

  predicate Healthy(d: Device) {
    d.awaitMs < 5.0 && d.utilPct < 60.0
  }

  function Select(devices: seq<Device>, p: Device -> bool): seq<Device> {
    if devices == [] then []
    else Select(devices[..|devices| - 1], p) + if p(devices[|devices| - 1]) then [devices[|devices| - 1]] else []
  }

  function SingleDegraded(devices: seq<Device>): Option<(Device, nat)> {
    var degraded := Select(devices, d => Degraded(d));
    var healthy := Select(devices, d => Healthy(d));
    if |degraded| != 1 || |healthy| == 0 then None else Some((degraded[0], |healthy|))
  }

  /** The device reported, and how many healthy peers it has. */
  method SingleDeviceDegradation(devices: seq<Device>) returns (r: Option<(Device, nat)>)
    ensures r == SingleDegraded(devices)
  {
    var degraded: seq<Device>, healthy: seq<Device> := [], [];
    if |devices| < 2 {
      OneDeviceHasNoPeer(devices);
      return None;
    }
    for n := 0 to |devices|
      invariant degraded == Select(devices[..n], d => Degraded(d))
      invariant healthy == Select(devices[..n], d => Healthy(d))
    {
      var d := devices[n];
      assert devices[..n + 1][..n] == devices[..n];
      if Degraded(d) {
        degraded := degraded + [d];
      } else if Healthy(d) {
        healthy := healthy + [d];
      }
    }
    assert devices[..|devices|] == devices;
    if |degraded| != 1 || |healthy| == 0 {
      return None;
    }
    r := Some((degraded[0], |healthy|));
  }

  /** The early return below two devices is implied: no device is both degraded and healthy. */
  lemma OneDeviceHasNoPeer(devices: seq<Device>)
    requires |devices| < 2
    ensures SingleDegraded(devices) == None
  {
    if |devices| == 1 {
      assert devices[..0] == [];
      assert Select(devices, d => Degraded(d)) == [] + if Degraded(devices[0]) then [devices[0]] else [];
      assert Select(devices, d => Healthy(d)) == [] + if Healthy(devices[0]) then [devices[0]] else [];
    }
  }

  predicate Slow(d: Device) {
    (d.awaitMs > 20.0 && d.utilPct >= 20.0) || d.utilPct > 85.0
  }

  predicate Quick(d: Device) {
    d.awaitMs < 5.0 && d.utilPct < 60.0
  }

  /** The positions of the devices of a kind. */
  ghost function Where(devices: seq<Device>, p: Device -> bool): set<nat> {
    set i: nat | i < |devices| && p(devices[i])
  }

  lemma {:induction false} SelectCounts(devices: seq<Device>, p: Device -> bool)
    ensures |Select(devices, p)| == |Where(devices, p)|
    ensures forall d :: d in Select(devices, p) <==> d in devices && p(d)
    decreases |devices|
  {
    if devices != [] {
      var n := |devices| - 1;
      SelectCounts(devices[..n], p);
      assert Where(devices, p) == Where(devices[..n], p) + if p(devices[n]) then {n} else {};
      assert devices == devices[..n] + [devices[n]];
    }
  }

  /** A device is reported iff it is the only slow one and another is quick, and with it how many are. */
  lemma {:induction false} SingleDegradedMeaning(devices: seq<Device>)
    ensures SingleDegraded(devices).Some? <==> |Where(devices, Slow)| == 1 && |Where(devices, Quick)| > 0
    ensures SingleDegraded(devices).Some? ==>
      var (d, peers) := SingleDegraded(devices).value;
      d in devices && Slow(d) && peers == |Where(devices, Quick)|
  {
    var degraded, healthy := d => Degraded(d), d => Healthy(d);
    SelectCounts(devices, degraded);
    SelectCounts(devices, healthy);
    assert Where(devices, degraded) == Where(devices, Slow);
    assert Where(devices, healthy) == Where(devices, Quick);
    assert Select(devices, d => Degraded(d)) == Select(devices, degraded);
    if |Select(devices, degraded)| == 1 {
      assert Select(devices, degraded)[0] in Select(devices, degraded);
    }
  }

  lemma {:induction false} SelectKeepsCounts(devices: seq<Device>, p: Device -> bool, d: Device)
    ensures multiset(Select(devices, p))[d] == if p(d) then multiset(devices)[d] else 0
    decreases |devices|
  {
    if devices != [] {
      var n := |devices| - 1;
      SelectKeepsCounts(devices[..n], p, d);
      assert devices == devices[..n] + [devices[n]];
    }
  }

  lemma SelectIgnoresOrder(a: seq<Device>, b: seq<Device>, p: Device -> bool)
    requires multiset(a) == multiset(b)
    ensures multiset(Select(a, p)) == multiset(Select(b, p)) && |Select(a, p)| == |Select(b, p)|
  {
    forall d ensures multiset(Select(a, p))[d] == multiset(Select(b, p))[d] {
      SelectKeepsCounts(a, p, d);
      SelectKeepsCounts(b, p, d);
    }
    assert multiset(Select(a, p)) == multiset(Select(b, p));
    assert |multiset(Select(a, p))| == |Select(a, p)| && |multiset(Select(b, p))| == |Select(b, p)|;
  }

  /** Listing the devices in another order blames the same device with the same number of peers. */
  lemma DegradationIgnoresDeviceOrder(a: seq<Device>, b: seq<Device>)
    requires multiset(a) == multiset(b)
    ensures SingleDegraded(a) == SingleDegraded(b)
  {
    SelectIgnoresOrder(a, b, d => Degraded(d));
    SelectIgnoresOrder(a, b, d => Healthy(d));
    var da, db := Select(a, d => Degraded(d)), Select(b, d => Degraded(d));
    if |da| == 1 {
      assert da == [da[0]] && db == [db[0]];
      assert da[0] in multiset(db);
    }
  }
}
