/**
 The host's own authorization policy: what a reconciliation grants when it
 starts, what its final sweep takes away, and that the two never alternate.
 */
module HostPolicy {
  import opened Prelude
  import opened World

  /** One scan of the bus, the host's own allow rules, and the writes that fail. */
  datatype HostScan = HostScan(
    scanFails: bool,
    devices: seq<UsbDevice>,
    hostAllowed: UsbDevice -> bool,
    fails: set<string>)

  type Bits = map<string, bool>

  function AttachedToVm(w: World, d: UsbDevice): bool {
    d.node.Some? && d.node.value in w.usbVms
  }

  predicate Exempt(w: World, d: UsbDevice, hostAllowed: UsbDevice -> bool) {
    d.hub || AttachedToVm(w, d) || hostAllowed(d)
  }

  function SweepOne(w: World, d: UsbDevice, s: HostScan): (World, bool) {
    if Exempt(w, d, s.hostAllowed) || Get(w.host.authorized, d.sysName) != Some(true) then (w, true)
    else (WithAuthorized(w, d.sysName, false, d.sysName in s.fails), d.sysName !in s.fails)
  }

  /** Stops at the first write that fails. */
  function SweepAll(w: World, devices: seq<UsbDevice>, s: HostScan): (World, bool) {
    if devices == [] then (w, true)
    else
      var (w1, ok) := SweepAll(w, devices[..|devices| - 1], s);
      if ok then SweepOne(w1, devices[|devices| - 1], s) else (w1, false)
  }

  /** The sweep is a policy of its own on top of authorization. */
  function Swept(cfg: Config, w: World, enabled: bool, s: HostScan): (World, bool) {
    if !cfg.authorization || !enabled then (w, true)
    else if s.scanFails then (w, false)
    else SweepAll(w, s.devices, s)
  }

  lemma {:induction false} SweepAllStops(w: World, devices: seq<UsbDevice>, n: nat, s: HostScan)
    requires n <= |devices| && !SweepAll(w, devices[..n], s).1
    ensures SweepAll(w, devices, s) == SweepAll(w, devices[..n], s)
    decreases |devices| - n
  {
    if n == |devices| {
      assert devices[..n] == devices;
    } else {
      assert devices[..n + 1][..n] == devices[..n];
      SweepAllStops(w, devices, n + 1, s);
    }
  }

  /** The one thing a sweep does to a name: take away a standing
      authorization, for a device that has no claim to it. */
  ghost predicate Withdrawn(w: World, w': World, devices: seq<UsbDevice>, s: HostScan, name: string) {
    && Get(w.host.authorized, name) == Some(true) && Get(w'.host.authorized, name) == Some(false)
    && exists d :: d in devices && d.sysName == name && !Exempt(w, d, s.hostAllowed)
  }

  ghost predicate OnlyWithdraws(w: World, w': World, devices: seq<UsbDevice>, s: HostScan) {
    && w' == w.(host := w.host.(authorized := w'.host.authorized))
    && forall name :: Get(w'.host.authorized, name) == Get(w.host.authorized, name)
                      || Withdrawn(w, w', devices, s, name)
  }

  ghost predicate Denied(w: World, devices: seq<UsbDevice>, s: HostScan) {
    forall d :: d in devices && !Exempt(w, d, s.hostAllowed) ==> Get(w.host.authorized, d.sysName) != Some(true)
  }

  /** A sweep withdraws and never grants, touches no device that is a hub, in
      a VM or allowed on the host, and when it succeeds leaves no other
      scanned device authorized. */
  lemma {:induction false} SweepDenies(w: World, devices: seq<UsbDevice>, s: HostScan)
    ensures var (w', ok) := SweepAll(w, devices, s);
      OnlyWithdraws(w, w', devices, s) && (ok ==> Denied(w', devices, s))
  {
    if devices != [] {
      var front, d := devices[..|devices| - 1], devices[|devices| - 1];
      SweepDenies(w, front, s);
      var (w1, ok) := SweepAll(w, front, s);
      assert devices == front + [d];
      SweepStepWithdraws(w, w1, front, d, s);
      if ok && SweepOne(w1, d, s).1 {
        SweepStepDenies(w1, front, d, s);
      }
      OnlyWithdrawsMore(w, w1, front, d, s);
    }
  }

  lemma OnlyWithdrawsMore(w: World, w1: World, front: seq<UsbDevice>, d: UsbDevice, s: HostScan)
    requires OnlyWithdraws(w, w1, front, s)
    ensures OnlyWithdraws(w, w1, front + [d], s)
  {
    forall name | Withdrawn(w, w1, front, s, name) ensures Withdrawn(w, w1, front + [d], s, name) {
      var x :| x in front && x.sysName == name && !Exempt(w, x, s.hostAllowed);
      assert x in front + [d];
    }
  }

  lemma SweepStepWithdraws(w: World, w1: World, front: seq<UsbDevice>, d: UsbDevice, s: HostScan)
    requires OnlyWithdraws(w, w1, front, s)
    ensures OnlyWithdraws(w, SweepOne(w1, d, s).0, front + [d], s)
  {
    OnlyWithdrawsMore(w, w1, front, d, s);
    var w' := SweepOne(w1, d, s).0;
    assert d in front + [d];
    forall name ensures Get(w'.host.authorized, name) == Get(w.host.authorized, name)
        || Withdrawn(w, w', front + [d], s, name) {
      assert Get(w1.host.authorized, name) == Get(w.host.authorized, name) || Withdrawn(w, w1, front + [d], s, name);
    }
  }

  lemma SweepStepDenies(w: World, front: seq<UsbDevice>, d: UsbDevice, s: HostScan)
    requires Denied(w, front, s) && SweepOne(w, d, s).1
    ensures Denied(SweepOne(w, d, s).0, front + [d], s)
  {
  }

  /** Which scanned devices a sweep that succeeds closes: those that are
      authorized, no hub, not for the host, and not at a node the manager
      remembers. What counts is the node, not whether a VM has the device. */
  lemma SweepWithdrawsIff(w: World, devices: seq<UsbDevice>, s: HostScan, d: UsbDevice)
    requires SweepAll(w, devices, s).1 && d in devices
    requires forall e :: e in devices && e.sysName == d.sysName ==> e == d
    ensures var w' := SweepAll(w, devices, s).0;
      var bit, bit' := Get(w.host.authorized, d.sysName), Get(w'.host.authorized, d.sysName);
      if bit == Some(true) && !d.hub && !s.hostAllowed(d) && !(d.node.Some? && d.node.value in w.usbVms)
      then bit' == Some(false) else bit' == bit
  {
    SweepDenies(w, devices, s);
  }

  /** A device a sweep would have to close and cannot. */
  ghost predicate Stuck(w: World, s: HostScan, d: UsbDevice) {
    && Get(w.host.authorized, d.sysName) == Some(true) && d.sysName in s.fails
    && !d.hub && !s.hostAllowed(d) && !(d.node.Some? && d.node.value in w.usbVms)
  }

  /** A sweep fails if and only if it meets such a device. */
  lemma {:induction false} SweepFailsIff(w: World, devices: seq<UsbDevice>, s: HostScan)
    ensures SweepAll(w, devices, s).1 <==> forall d :: d in devices ==> !Stuck(w, s, d)
  {
    if devices != [] {
      var front, d := devices[..|devices| - 1], devices[|devices| - 1];
      SweepFailsIff(w, front, s);
      SweepDenies(w, front, s);
      StuckBitsStay(w, front, s);
      assert SweepOne(SweepAll(w, front, s).0, d, s).1 <==> !Stuck(w, s, d);
      assert devices == front + [d];
    }
  }

  /** What cannot be written stays as it is. */
  lemma {:induction false} StuckBitsStay(w: World, devices: seq<UsbDevice>, s: HostScan)
    ensures var w' := SweepAll(w, devices, s).0;
      forall name :: name in s.fails ==> Get(w'.host.authorized, name) == Get(w.host.authorized, name)
  {
    if devices != [] {
      StuckBitsStay(w, devices[..|devices| - 1], s);
    }
  }

  // ----- granting -----

  predicate HostMayUse(d: UsbDevice, hostAllowed: UsbDevice -> bool) {
    d.hub || hostAllowed(d)
  }

  /** A failed write is reported and passed over. */
  function GrantOne(bits: Bits, d: UsbDevice, s: HostScan): Bits {
    if HostMayUse(d, s.hostAllowed) && Get(bits, d.sysName) == Some(false) && d.sysName !in s.fails
    then bits[d.sysName := true] else bits
  }

  function GrantAll(bits: Bits, devices: seq<UsbDevice>, s: HostScan): Bits {
    if devices == [] then bits else GrantOne(GrantAll(bits, devices[..|devices| - 1], s), devices[|devices| - 1], s)
  }

  ghost predicate Granted(bits: Bits, bits': Bits, devices: seq<UsbDevice>, s: HostScan, name: string) {
    && Get(bits, name) == Some(false) && Get(bits', name) == Some(true)
    && exists d :: d in devices && d.sysName == name && HostMayUse(d, s.hostAllowed)
  }

  ghost predicate OnlyGrants(bits: Bits, bits': Bits, devices: seq<UsbDevice>, s: HostScan) {
    forall name :: Get(bits', name) == Get(bits, name) || Granted(bits, bits', devices, s, name)
  }

  ghost predicate Open(bits: Bits, devices: seq<UsbDevice>, s: HostScan) {
    forall d :: d in devices && HostMayUse(d, s.hostAllowed) ==> Get(bits, d.sysName) != Some(false)
  }

  /** Grants go to hubs and to devices the host may use, and to nothing else;
      without failed writes none of those is left out. */
  lemma {:induction false} GrantOpens(bits: Bits, devices: seq<UsbDevice>, s: HostScan)
    ensures var bits' := GrantAll(bits, devices, s);
      OnlyGrants(bits, bits', devices, s) && (s.fails == {} ==> Open(bits', devices, s))
  {
    if devices != [] {
      var front, d := devices[..|devices| - 1], devices[|devices| - 1];
      GrantOpens(bits, front, s);
      var bits1, bits' := GrantAll(bits, front, s), GrantAll(bits, devices, s);
      assert devices == front + [d];
      forall name ensures Get(bits', name) == Get(bits, name) || Granted(bits, bits', devices, s, name) {
        if Granted(bits, bits1, front, s, name) {
          var x :| x in front && x.sysName == name && HostMayUse(x, s.hostAllowed);
          assert x in devices;
        }
        assert d in devices;
      }
    }
  }

  /** Which scanned devices are open after the grants: those that were, and
      hubs and devices the host may use, unless the write failed. */
  lemma {:induction false} GrantsIff(bits: Bits, devices: seq<UsbDevice>, s: HostScan, name: string)
    ensures var bit, bit' := Get(bits, name), Get(GrantAll(bits, devices, s), name);
      if && bit == Some(false) && name !in s.fails
         && exists d :: d in devices && d.sysName == name && (d.hub || s.hostAllowed(d))
      then bit' == Some(true) else bit' == bit
  {
    if devices != [] {
      var front, last := devices[..|devices| - 1], devices[|devices| - 1];
      assert devices == front + [last];
      GrantsIff(bits, front, s, name);
    }
  }

  lemma {:induction false} GrantRests(bits: Bits, devices: seq<UsbDevice>, s: HostScan)
    requires Open(bits, devices, s)
    ensures GrantAll(bits, devices, s) == bits
  {
    if devices != [] {
      assert devices[|devices| - 1] in devices;
      GrantRests(bits, devices[..|devices| - 1], s);
    }
  }

  lemma {:induction false} SweepRests(w: World, devices: seq<UsbDevice>, s: HostScan)
    requires Denied(w, devices, s)
    ensures SweepAll(w, devices, s) == (w, true)
  {
    if devices != [] {
      assert devices[|devices| - 1] in devices;
      SweepRests(w, devices[..|devices| - 1], s);
    }
  }

  /** The sweep never takes back a grant, so no device is authorized and
      deauthorized in turn: after one round of both, the next changes nothing. */
  lemma GrantAndSweepSettle(w: World, devices: seq<UsbDevice>, s: HostScan)
    requires forall d, e :: d in devices && e in devices && d.sysName == e.sysName ==> d == e
    requires s.fails == {} && SweepAll(GrantedBits(w, devices, s), devices, s).1
    ensures var w' := SweepAll(GrantedBits(w, devices, s), devices, s).0;
      GrantedBits(w', devices, s) == w' && SweepAll(w', devices, s) == (w', true)
  {
    var granted := GrantedBits(w, devices, s);
    GrantOpens(w.host.authorized, devices, s);
    var w' := SweepAll(granted, devices, s).0;
    SweepDenies(granted, devices, s);
    forall d | d in devices && HostMayUse(d, s.hostAllowed) ensures Get(w'.host.authorized, d.sysName) != Some(false) {
      assert !Withdrawn(granted, w', devices, s, d.sysName);
    }
    GrantRests(w'.host.authorized, devices, s);
    SweepRests(w', devices, s);
  }

  function GrantedBits(w: World, devices: seq<UsbDevice>, s: HostScan): World {
    w.(host := w.host.(authorized := GrantAll(w.host.authorized, devices, s)))
  }

  /** The sweep runs where it is enabled and authorization is enforced; it
      fails if and only if the bus cannot be scanned or a device cannot be
      closed. */
  lemma SweptFailsIff(cfg: Config, w: World, enabled: bool, s: HostScan)
    ensures Swept(cfg, w, enabled, s).1 <==>
              (cfg.authorization && enabled ==> !s.scanFails && forall d :: d in s.devices ==> !Stuck(w, s, d))
    ensures !(cfg.authorization && enabled) ==> Swept(cfg, w, enabled, s).0 == w
  {
    SweepFailsIff(w, s.devices, s);
  }

  lemma SweptDenies(cfg: Config, w: World, enabled: bool, s: HostScan)
    ensures var (w', ok) := Swept(cfg, w, enabled, s);
      OnlyWithdraws(w, w', s.devices, s) && (ok && cfg.authorization && enabled ==> Denied(w', s.devices, s))
  {
    SweepDenies(w, s.devices, s);
  }
}
