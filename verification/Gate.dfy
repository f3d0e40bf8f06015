/**
 The host-driver gate: which devices are routed, remembered across passes,
 and how a pass settles the drivers of every interface accordingly.
 */
module Gate {
  import opened Prelude
  import opened Crosvm
  import opened World
  import opened UsbNames
  import opened HostPolicy

  /** One pass: the scans and directory listings it reads, the verdict of the
      rules, what the kernel binds when probed, and what fails. It is active
      where there is a bus to gate and some rule routes USB; it enforces where
      the authorization policy is on. */
  datatype Pass = Pass(
    active: bool,
    enforced: bool,
    closeFails: bool,
    host: HostScan,
    beforeFails: bool,
    before: seq<string>,
    scanFails: bool,
    devices: seq<UsbDevice>,
    verdict: UsbDevice -> bool,
    marked: set<string>,
    listingFails: bool,
    listing: seq<string>,
    kernel: string -> Option<Driver>,
    listFails: set<string>,
    releaseFails: set<string>)

  function MarkedIds(disconnected: seq<string>): set<string> {
    set id | id in disconnected
  }

  type Drivers = map<string, Driver>

  datatype Settled = Settled(drivers: Drivers, log: seq<GateAction>)

  function Releasable(driver: Driver): bool {
    driver != Usbfs && driver != HubDriver
  }

  /** The kernel binds at most one driver to what it is asked to probe. */
  function Probed(s: Settled, name: string, kernel: string -> Option<Driver>): Settled {
    Settled(match kernel(name) case None => s.drivers case Some(k) => s.drivers[name := k], s.log + [Probe(name)])
  }

  // ----- routing -----

  function Remembered(cache: map<string, bool>, d: UsbDevice): bool {
    PersistentId(d) in cache && cache[PersistentId(d)]
  }

  function Matched(cache: map<string, bool>, p: Pass, d: UsbDevice): bool {
    p.verdict(d) || Remembered(cache, d)
  }

  /** The verdicts kept for the next pass: those of the devices seen in this one. */
  function Seen(cache: map<string, bool>, p: Pass, devices: seq<UsbDevice>): map<string, bool> {
    if devices == [] then map[]
    else
      var d := devices[|devices| - 1];
      Seen(cache, p, devices[..|devices| - 1])[PersistentId(d) := Matched(cache, p, d)]
  }

  function Routed(cache: map<string, bool>, p: Pass, devices: seq<UsbDevice>): set<string> {
    if devices == [] then {}
    else
      var d := devices[|devices| - 1];
      var front := Routed(cache, p, devices[..|devices| - 1]);
      if Matched(cache, p, d) && PersistentId(d) !in p.marked then front + {d.sysName} else front
  }

  lemma {:induction false} RoutedMeans(cache: map<string, bool>, p: Pass, devices: seq<UsbDevice>, n: string)
    ensures n in Routed(cache, p, devices) <==>
              exists d :: d in devices && d.sysName == n && Matched(cache, p, d) && PersistentId(d) !in p.marked
  {
    if devices != [] {
      var front, last := devices[..|devices| - 1], devices[|devices| - 1];
      RoutedMeans(cache, p, front, n);
      assert devices == front + [last];
    }
  }

  lemma RoutingStep(cache: map<string, bool>, p: Pass, i: nat)
    requires i < |p.devices|
    ensures var d := p.devices[i];
      && Seen(cache, p, p.devices[..i + 1]) == Seen(cache, p, p.devices[..i])[PersistentId(d) := Matched(cache, p, d)]
      && Routed(cache, p, p.devices[..i + 1]) ==
         if Matched(cache, p, d) && PersistentId(d) !in p.marked then Routed(cache, p, p.devices[..i]) + {d.sysName}
         else Routed(cache, p, p.devices[..i])
  {
    assert p.devices[..i + 1][..i] == p.devices[..i];
  }

  // ----- settling -----

  function SettleOne(s: Settled, isRouted: bool, name: string, p: Pass): Settled {
    if isRouted && name in s.drivers && Releasable(s.drivers[name]) then
      Settled(if name in p.releaseFails then s.drivers else Without(s.drivers, name), s.log + [Release(name)])
    else if !isRouted && name !in s.drivers then Probed(s, name, p.kernel)
    else s
  }

  function SettleDevice(s: Settled, isRouted: bool, interfaces: seq<string>, p: Pass): Settled {
    if interfaces == [] then s
    else SettleOne(SettleDevice(s, isRouted, interfaces[..|interfaces| - 1], p), isRouted,
                   interfaces[|interfaces| - 1], p)
  }

  function SettleAll(s: Settled, routed: set<string>, names: seq<string>, p: Pass): Settled {
    if names == [] then s
    else
      var front := SettleAll(s, routed, names[..|names| - 1], p);
      var name := names[|names| - 1];
      if name in p.listFails then front
      else SettleDevice(front, name in routed, Interfaces(p.listing, name), p)
  }

  /** The policy keeps the host off this device. */
  predicate KeptOut(bits: Bits, name: string, enforced: bool) {
    enforced && Get(bits, name) == Some(false)
  }

  /** Authorized devices without a driver are probed so that they get configured. */
  function Configure(s: Settled, bits: Bits, names: seq<string>, p: Pass): Settled {
    if names == [] then s
    else
      var front := Configure(s, bits, names[..|names| - 1], p);
      var name := names[|names| - 1];
      if KeptOut(bits, name, p.enforced) || name in front.drivers then front else Probed(front, name, p.kernel)
  }

  datatype GateState = GateState(cache: map<string, bool>, settled: Settled, bits: Bits)

  /** The pass ends before it does anything. */
  predicate Refused(p: Pass) {
    (p.active && p.closeFails) || (p.enforced && p.host.scanFails)
  }

  function GrantForHost(bits: Bits, p: Pass): Bits {
    if p.enforced then GrantAll(bits, p.host.devices, p.host) else bits
  }

  /** The pass gets as far as routing. */
  predicate Routes(p: Pass) {
    !Refused(p) && p.active && !p.beforeFails && !p.scanFails
  }

  function ApplyGate(g: GateState, p: Pass): GateState {
    if Refused(p) then g
    else
      var bits := GrantForHost(g.bits, p);
      if !p.active || p.beforeFails then g.(bits := bits)
      else RouteAndSettle(GateState(g.cache, Configure(g.settled, bits, DeviceNames(p.before), p), bits), p)
  }

  function RouteAndSettle(g: GateState, p: Pass): GateState {
    if p.scanFails then g
    else
      GateState(
        Seen(g.cache, p, p.devices),
        if p.listingFails then g.settled
        else SettleAll(g.settled, Routed(g.cache, p, p.devices), DeviceNames(p.listing), p),
        g.bits)
  }

  /** The names of scanned devices that the manager remembers as held. A scan
      that fails yields none, and so does a memory that is empty. */
  function HeldByVms(usbVms: map<string, string>, scan: Option<seq<UsbDevice>>): set<string> {
    if scan.None? then {}
    else set d | d in scan.value && d.node.Some? && d.node.value in usbVms :: d.sysName
  }

  /** Everything driverless is probed, except what is held or kept out. */
  function OpenGate(s: Settled, bits: Bits, names: seq<string>, held: set<string>, p: Pass): Settled {
    if names == [] then s
    else
      var front := OpenGate(s, bits, names[..|names| - 1], held, p);
      var name := names[|names| - 1];
      if name in held || KeptOut(bits, name, p.enforced) then front
      else
        var probed := if name in front.drivers then front else Probed(front, name, p.kernel);
        if name in p.listFails then probed else SettleDevice(probed, false, Interfaces(p.listing, name), p)
  }

  // ----- what a pass does to one interface -----

  /** No other device of the listing owns this entry. */
  ghost predicate OwnedOnlyBy(p: Pass, entry: string, name: string) {
    && IsInterfaceOf(entry, name)
    && forall n :: n in DeviceNames(p.listing) && IsInterfaceOf(entry, n) ==> n == name
  }

  /** Entries of a listing in which no device is named like a root hub's own
      interfaces belong to one device each. */
  lemma NoAliasMeansOwned(p: Pass, entry: string, name: string)
    requires name in DeviceNames(p.listing) && IsInterfaceOf(entry, name)
    requires forall x, y :: x in DeviceNames(p.listing) && y in DeviceNames(p.listing) ==> !Alias(x, y)
    ensures OwnedOnlyBy(p, entry, name)
  {
    forall n | n in DeviceNames(p.listing) && IsInterfaceOf(entry, n) ensures n == name {
      if n != name {
        InterfacesDisjointIff(n, name);
      }
    }
  }

  /** The log grew, and by nothing that names this entry. */
  ghost predicate Untouched(s: Settled, s': Settled, entry: string) {
    && s.log <= s'.log
    && Get(s'.drivers, entry) == Get(s.drivers, entry)
    && forall i :: |s.log| <= i < |s'.log| ==> s'.log[i].name != entry
  }

  lemma {:induction false} ConfigureUntouched(s: Settled, bits: Bits, names: seq<string>, p: Pass, entry: string)
    requires entry !in names
    ensures Untouched(s, Configure(s, bits, names, p), entry)
  {
    if names != [] {
      ConfigureUntouched(s, bits, names[..|names| - 1], p, entry);
    }
  }

  lemma {:induction false} SettleDeviceUntouched(s: Settled, isRouted: bool, interfaces: seq<string>, p: Pass,
                                                 entry: string)
    requires entry !in interfaces
    ensures Untouched(s, SettleDevice(s, isRouted, interfaces, p), entry)
  {
    if interfaces != [] {
      SettleDeviceUntouched(s, isRouted, interfaces[..|interfaces| - 1], p, entry);
    }
  }

  ghost predicate Free(drivers: Drivers, entry: string) {
    entry in drivers ==> !Releasable(drivers[entry])
  }

  /** Where an entry stands in the part of the log since `start`: freed by at
      most one release, with nothing after it; or only ever probed. */
  ghost predicate Handled(start: nat, s: Settled, entry: string, isRouted: bool) {
    && start <= |s.log|
    && (forall i :: start <= i < |s.log| && s.log[i].name == entry ==> s.log[i].Release? == isRouted)
    && (forall i, j :: start <= i < j < |s.log| && isRouted ==> s.log[i].name != entry || s.log[j].name != entry)
    && (isRouted && (exists i :: start <= i < |s.log| && s.log[i].name == entry) ==> Free(s.drivers, entry))
  }

  lemma SettleOneHandled(start: nat, s: Settled, isRouted: bool, name: string, p: Pass, entry: string)
    requires Handled(start, s, entry, isRouted) && entry !in p.releaseFails
    ensures Handled(start, SettleOne(s, isRouted, name, p), entry, isRouted)
    ensures isRouted && (name == entry || Free(s.drivers, entry)) ==>
        Free(SettleOne(s, isRouted, name, p).drivers, entry)
    ensures s.log <= SettleOne(s, isRouted, name, p).log
    ensures Free(s.drivers, entry) && isRouted ==> Untouched(s, SettleOne(s, isRouted, name, p), entry)
  {
  }

  lemma {:induction false} SettleDeviceHandled(start: nat, s: Settled, isRouted: bool, interfaces: seq<string>,
                                               p: Pass, entry: string)
    requires Handled(start, s, entry, isRouted) && entry !in p.releaseFails
    ensures var s' := SettleDevice(s, isRouted, interfaces, p);
      && Handled(start, s', entry, isRouted) && s.log <= s'.log
      && (isRouted && (entry in interfaces || Free(s.drivers, entry)) ==> Free(s'.drivers, entry))
      && (isRouted && Free(s.drivers, entry) ==> Untouched(s, s', entry))
  {
    if interfaces != [] {
      var front, last := interfaces[..|interfaces| - 1], interfaces[|interfaces| - 1];
      SettleDeviceHandled(start, s, isRouted, front, p, entry);
      SettleOneHandled(start, SettleDevice(s, isRouted, front, p), isRouted, last, p, entry);
      assert interfaces == front + [last];
    }
  }

  lemma UntouchedKeepsHandled(start: nat, s: Settled, s': Settled, entry: string, isRouted: bool)
    requires Handled(start, s, entry, isRouted) && Untouched(s, s', entry)
    ensures Handled(start, s', entry, isRouted)
  {
    assert forall i :: start <= i < |s.log| ==> s'.log[i] == s.log[i];
    if exists i :: start <= i < |s'.log| && s'.log[i].name == entry {
      var i :| start <= i < |s'.log| && s'.log[i].name == entry;
      assert i < |s.log| && s.log[i].name == entry;
    }
  }

  lemma {:induction false} SettleAllHandled(start: nat, s: Settled, routed: set<string>, names: seq<string>, p: Pass,
                                            entry: string, owner: string)
    requires Handled(start, s, entry, owner in routed) && entry !in p.releaseFails
    requires forall n :: n in names && IsInterfaceOf(entry, n) ==> n == owner
    requires IsInterfaceOf(entry, owner)
    ensures var s' := SettleAll(s, routed, names, p);
      && Handled(start, s', entry, owner in routed) && s.log <= s'.log
      && (owner in routed && ((owner in names && owner !in p.listFails && entry in p.listing)
                              || Free(s.drivers, entry)) ==>
            Free(s'.drivers, entry))
      && (owner in routed && Free(s.drivers, entry) ==> Untouched(s, s', entry))
  {
    if names != [] {
      var front, name := names[..|names| - 1], names[|names| - 1];
      SettleAllHandled(start, s, routed, front, p, entry, owner);
      var s1 := SettleAll(s, routed, front, p);
      assert names == front + [name];
      if name !in p.listFails {
        var s2 := SettleDevice(s1, name in routed, Interfaces(p.listing, name), p);
        if name == owner {
          SettleDeviceHandled(start, s1, owner in routed, Interfaces(p.listing, name), p, entry);
        } else {
          SettleDeviceUntouched(s1, name in routed, Interfaces(p.listing, name), p, entry);
          UntouchedKeepsHandled(start, s1, s2, entry, owner in routed);
        }
      }
    }
  }

  // ----- gate safety -----

  /** A VM's claim and a hub are never taken off, by any pass. */
  lemma {:induction false} SettleDeviceKeepsClaims(s: Settled, isRouted: bool, interfaces: seq<string>, p: Pass,
                                                   name: string)
    requires name in s.drivers && !Releasable(s.drivers[name])
    ensures var s' := SettleDevice(s, isRouted, interfaces, p);
      name in s'.drivers && s'.drivers[name] == s.drivers[name]
    ensures s.log <= SettleDevice(s, isRouted, interfaces, p).log
    ensures var s' := SettleDevice(s, isRouted, interfaces, p);
      forall i :: |s.log| <= i < |s'.log| ==> s'.log[i] != Release(name)
  {
    if interfaces != [] {
      SettleDeviceKeepsClaims(s, isRouted, interfaces[..|interfaces| - 1], p, name);
    }
  }

  lemma {:induction false} SettleAllKeepsClaims(s: Settled, routed: set<string>, names: seq<string>, p: Pass,
                                                name: string)
    requires name in s.drivers && !Releasable(s.drivers[name])
    ensures var s' := SettleAll(s, routed, names, p); name in s'.drivers && s'.drivers[name] == s.drivers[name]
    ensures s.log <= SettleAll(s, routed, names, p).log
    ensures var s' := SettleAll(s, routed, names, p);
      forall i :: |s.log| <= i < |s'.log| ==> s'.log[i] != Release(name)
  {
    if names != [] {
      var n := |names| - 1;
      SettleAllKeepsClaims(s, routed, names[..n], p, name);
      var s1 := SettleAll(s, routed, names[..n], p);
      SettleDeviceKeepsClaims(s1, names[n] in routed, Interfaces(p.listing, names[n]), p, name);
    }
  }

  lemma {:induction false} ConfigureKeepsBound(s: Settled, bits: Bits, names: seq<string>, p: Pass, name: string)
    requires name in s.drivers
    ensures var s' := Configure(s, bits, names, p); name in s'.drivers && s'.drivers[name] == s.drivers[name]
    ensures s.log <= Configure(s, bits, names, p).log
    ensures var s' := Configure(s, bits, names, p); forall i :: |s.log| <= i < |s'.log| ==> s'.log[i].Probe?
  {
    if names != [] {
      ConfigureKeepsBound(s, bits, names[..|names| - 1], p, name);
    }
  }

  /** The gate leaves what a VM or a hub driver holds where it is. */
  lemma GateKeepsClaims(g: GateState, p: Pass, name: string)
    requires name in g.settled.drivers && !Releasable(g.settled.drivers[name])
    ensures var s' := ApplyGate(g, p).settled;
      && name in s'.drivers && s'.drivers[name] == g.settled.drivers[name]
      && g.settled.log <= s'.log && forall i :: |g.settled.log| <= i < |s'.log| ==> s'.log[i] != Release(name)
  {
    var bits := GrantForHost(g.bits, p);
    ConfigureKeepsBound(g.settled, bits, DeviceNames(p.before), p, name);
    var configured := Configure(g.settled, bits, DeviceNames(p.before), p);
    SettleAllKeepsClaims(configured, Routed(g.cache, p, p.devices), DeviceNames(p.listing), p, name);
  }

  /** After a pass whose releases succeed, no interface of a routed device has
      a host driver left. */
  lemma GateFreesRouted(g: GateState, p: Pass, d: UsbDevice, entry: string)
    requires Routes(p) && !p.listingFails
    requires d in p.devices && Matched(g.cache, p, d) && PersistentId(d) !in p.marked
    requires d.sysName in DeviceNames(p.listing) && d.sysName !in p.listFails
    requires entry in p.listing && OwnedOnlyBy(p, entry, d.sysName) && entry !in p.releaseFails
    ensures Free(ApplyGate(g, p).settled.drivers, entry)
  {
    var configured := Configure(g.settled, GrantForHost(g.bits, p), DeviceNames(p.before), p);
    var routed := Routed(g.cache, p, p.devices);
    RoutedMeans(g.cache, p, p.devices, d.sysName);
    SettleAllHandled(|configured.log|, configured, routed, DeviceNames(p.listing), p, entry, d.sysName);
  }

  /** A pass grants the host what it may use, and takes no authorization away. */
  lemma GateGrantsForHost(g: GateState, p: Pass)
    ensures OnlyGrants(g.bits, ApplyGate(g, p).bits, p.host.devices, p.host)
    ensures p.enforced && !Refused(p) && p.host.fails == {} ==> Open(ApplyGate(g, p).bits, p.host.devices, p.host)
  {
    GrantOpens(g.bits, p.host.devices, p.host);
  }

  // ----- no bind/unbind cycle -----

  /** The device is in the scan under its own name and id, and is not handed
      back to the host. */
  ghost predicate Scanned(p: Pass, d: UsbDevice) {
    && d in p.devices
    && (forall e :: e in p.devices && e != d ==> PersistentId(e) != PersistentId(d) && e.sysName != d.sysName)
    && PersistentId(d) !in p.marked
  }

  /** In a pass that gets to route, the device is there, and its interface
      entry is its alone and can be released. */
  ghost predicate Present(p: Pass, d: UsbDevice, entry: string) {
    && IsInterfaceOf(entry, d.sysName)
    && (Routes(p) ==> Scanned(p, d))
    && (Routes(p) && !p.listingFails ==> OwnedOnlyBy(p, entry, d.sysName) && entry !in p.releaseFails)
  }

  lemma {:induction false} SeenVerdict(cache: map<string, bool>, p: Pass, devices: seq<UsbDevice>, d: UsbDevice)
    requires forall e :: e in devices && e != d ==> PersistentId(e) != PersistentId(d)
    ensures d in devices ==> Get(Seen(cache, p, devices), PersistentId(d)) == Some(Matched(cache, p, d))
    ensures d !in devices ==> PersistentId(d) !in Seen(cache, p, devices)
  {
    if devices != [] {
      var front, last := devices[..|devices| - 1], devices[|devices| - 1];
      assert devices == front + [last];
      SeenVerdict(cache, p, front, d);
    }
  }

  lemma RoutedIffMatched(cache: map<string, bool>, p: Pass, d: UsbDevice)
    requires Scanned(p, d)
    ensures d.sysName in Routed(cache, p, p.devices) <==> Matched(cache, p, d)
  {
    RoutedMeans(cache, p, p.devices, d.sysName);
    if d.sysName in Routed(cache, p, p.devices) {
      var e :| e in p.devices && e.sysName == d.sysName && Matched(cache, p, e) && PersistentId(e) !in p.marked;
      assert e == d;
    }
  }

  /** Between passes operations and VMs act. What they do to this entry: its
      driver stays, is replaced by a VM's claim, or goes away. Other entries
      and the authorization bits may change in any way. */
  ghost predicate NotBoundBetween(before: Drivers, after: Drivers, entry: string) {
    Get(after, entry) == Get(before, entry) || Get(after, entry) == None || Get(after, entry) == Some(Usbfs)
  }

  /** One pass of a run, from the state it finds: what the previous pass left,
      apart from drivers and bits. */
  ghost predicate GateStep(g: GateState, found: GateState, p: Pass, g': GateState) {
    found.cache == g.cache && found.settled.log == g.settled.log && g' == ApplyGate(found, p)
  }

  ghost predicate IsGateRun(states: seq<GateState>, found: seq<GateState>, passes: seq<Pass>) {
    && |states| == |passes| + 1 && |found| == |passes|
    && forall k :: 0 <= k < |passes| ==> StepAt(states, found, passes, k)
  }

  ghost predicate StepAt(states: seq<GateState>, found: seq<GateState>, passes: seq<Pass>, k: nat)
    requires |states| == |passes| + 1 && |found| == |passes| && k < |passes|
  {
    GateStep(states[k], found[k], passes[k], states[k + 1])
  }

  /** Throughout the run the device is there where it is looked for, and only
      the gate binds host drivers to its entry. */
  ghost predicate StaysPlugged(states: seq<GateState>, found: seq<GateState>, passes: seq<Pass>, d: UsbDevice,
                               entry: string)
    requires |states| == |passes| + 1 && |found| == |passes|
  {
    forall k :: 0 <= k < |passes| ==> PluggedAt(states, found, passes, k, d, entry)
  }

  ghost predicate PluggedAt(states: seq<GateState>, found: seq<GateState>, passes: seq<Pass>, k: nat, d: UsbDevice,
                            entry: string)
    requires |states| == |passes| + 1 && |found| == |passes| && k < |passes|
  {
    Present(passes[k], d, entry) && NotBoundBetween(states[k].settled.drivers, found[k].settled.drivers, entry)
  }

  /** Once an interface was released, nothing more is done to it. */
  ghost predicate ReleasedOnce(log: seq<GateAction>, entry: string) {
    forall i, j :: 0 <= i < j < |log| && log[i] == Release(entry) ==> log[j].name != entry
  }

  /** What carries over: a released interface has no host driver, and its
      device's verdict is remembered. */
  ghost predicate StaysReleased(g: GateState, d: UsbDevice, entry: string) {
    && ReleasedOnce(g.settled.log, entry)
    && (Release(entry) in g.settled.log ==> Free(g.settled.drivers, entry) && Remembered(g.cache, d))
  }

  lemma PassStaysReleased(g: GateState, p: Pass, d: UsbDevice, entry: string)
    requires StaysReleased(g, d, entry) && Present(p, d, entry)
    ensures StaysReleased(ApplyGate(g, p), d, entry)
  {
    var bits := GrantForHost(g.bits, p);
    if !Refused(p) && p.active && !p.beforeFails {
      var configured := Configure(g.settled, bits, DeviceNames(p.before), p);
      InterfaceHasColon(entry, d.sysName);
      ConfigureUntouched(g.settled, bits, DeviceNames(p.before), p, entry);
      UntouchedStaysReleased(g.settled, configured, entry);
      SettleStaysReleased(GateState(g.cache, configured, bits), p, d, entry);
    }
  }

  lemma SettleStaysReleased(g: GateState, p: Pass, d: UsbDevice, entry: string)
    requires StaysReleased(g, d, entry) && Present(p, d, entry) && (!p.scanFails ==> Routes(p))
    ensures StaysReleased(RouteAndSettle(g, p), d, entry)
  {
    if !p.scanFails {
      var routed := Routed(g.cache, p, p.devices);
      RoutedIffMatched(g.cache, p, d);
      SeenVerdict(g.cache, p, p.devices, d);
      if !p.listingFails {
        SettleAllHandled(|g.settled.log|, g.settled, routed, DeviceNames(p.listing), p, entry, d.sysName);
        var s' := SettleAll(g.settled, routed, DeviceNames(p.listing), p);
        if Release(entry) in g.settled.log {
          UntouchedStaysReleased(g.settled, s', entry);
        } else {
          HandledIsReleasedOnce(g.settled, s', entry, d.sysName in routed);
        }
      }
    }
  }

  lemma UntouchedStaysReleased(s: Settled, s': Settled, entry: string)
    requires ReleasedOnce(s.log, entry) && Untouched(s, s', entry)
    ensures ReleasedOnce(s'.log, entry)
    ensures Release(entry) in s'.log ==> Release(entry) in s.log
  {
    assert forall i :: 0 <= i < |s.log| ==> s'.log[i] == s.log[i];
  }

  lemma HandledIsReleasedOnce(s: Settled, s': Settled, entry: string, isRouted: bool)
    requires Release(entry) !in s.log && s.log <= s'.log && Handled(|s.log|, s', entry, isRouted)
    ensures ReleasedOnce(s'.log, entry)
    ensures Release(entry) in s'.log ==> isRouted && Free(s'.drivers, entry)
  {
    assert forall i :: 0 <= i < |s.log| ==> s'.log[i] == s.log[i];
  }

  lemma GateStepStaysReleased(g: GateState, found: GateState, p: Pass, g': GateState, d: UsbDevice, entry: string)
    requires StaysReleased(g, d, entry) && GateStep(g, found, p, g') && Present(p, d, entry)
    requires NotBoundBetween(g.settled.drivers, found.settled.drivers, entry)
    ensures StaysReleased(g', d, entry)
  {
    PassStaysReleased(found, p, d, entry);
  }

  lemma StepStaysReleased(states: seq<GateState>, found: seq<GateState>, passes: seq<Pass>, k: nat, d: UsbDevice,
                          entry: string)
    requires IsGateRun(states, found, passes) && StaysPlugged(states, found, passes, d, entry) && k < |passes|
    requires StaysReleased(states[k], d, entry)
    ensures StaysReleased(states[k + 1], d, entry)
  {
    assert StepAt(states, found, passes, k) && PluggedAt(states, found, passes, k, d, entry);
    GateStepStaysReleased(states[k], found[k], passes[k], states[k + 1], d, entry);
  }

  /** Whatever the rules say from pass to pass, each interface of a device
      that stays plugged in is released at most once and never touched again. */
  lemma {:induction false} NoBindUnbindCycle(states: seq<GateState>, found: seq<GateState>, passes: seq<Pass>,
                                             d: UsbDevice, entry: string, n: nat)
    requires IsGateRun(states, found, passes) && n <= |passes|
    requires states[0].settled.log == []
    requires StaysPlugged(states, found, passes, d, entry)
    ensures StaysReleased(states[n], d, entry)
  {
    if n > 0 {
      NoBindUnbindCycle(states, found, passes, d, entry, n - 1);
      StepStaysReleased(states, found, passes, n - 1, d, entry);
    }
  }

  /** The device is there in every pass that gets to route. */
  ghost predicate ScannedThroughout(passes: seq<Pass>, d: UsbDevice) {
    forall k :: 0 <= k < |passes| && Routes(passes[k]) ==> Scanned(passes[k], d)
  }

  /** A pass remembers what matched in it, and one that does not get to route
      forgets nothing. */
  lemma StepRemembers(g: GateState, found: GateState, p: Pass, g': GateState, d: UsbDevice)
    requires GateStep(g, found, p, g') && (Routes(p) ==> Scanned(p, d))
    ensures Remembered(g.cache, d) ==> Remembered(g'.cache, d)
    ensures Routes(p) && Matched(g.cache, p, d) ==> Remembered(g'.cache, d)
  {
    if Routes(p) {
      SeenVerdict(g.cache, p, p.devices, d);
    }
  }

  lemma {:induction false} StaysRemembered(states: seq<GateState>, found: seq<GateState>, passes: seq<Pass>,
                                           d: UsbDevice, m: nat, n: nat)
    requires IsGateRun(states, found, passes) && ScannedThroughout(passes, d) && m < n <= |passes|
    requires Routes(passes[m]) && Matched(states[m].cache, passes[m], d)
    ensures Remembered(states[n].cache, d)
  {
    assert StepAt(states, found, passes, n - 1);
    if m < n - 1 {
      StaysRemembered(states, found, passes, d, m, n - 1);
    }
    StepRemembers(states[n - 1], found[n - 1], passes[n - 1], states[n], d);
  }

  /** A device routed in one pass is routed in every later one that gets to
      route, even if no rule matches it any more and passes in between fail. */
  lemma RoutedStaysRouted(states: seq<GateState>, found: seq<GateState>, passes: seq<Pass>, d: UsbDevice, m: nat,
                          n: nat)
    requires IsGateRun(states, found, passes) && ScannedThroughout(passes, d) && m <= n < |passes|
    requires Routes(passes[m]) && Routes(passes[n])
    requires d.sysName in Routed(states[m].cache, passes[m], passes[m].devices)
    ensures d.sysName in Routed(states[n].cache, passes[n], passes[n].devices)
  {
    if m < n {
      RoutedIffMatched(states[m].cache, passes[m], d);
      StaysRemembered(states, found, passes, d, m, n);
      RoutedIffMatched(states[n].cache, passes[n], d);
    }
  }

  // ----- handing the bus back -----

  /** The entry belongs to this device and to no other of the list. */
  ghost predicate OwnedIn(names: seq<string>, owner: string, entry: string) {
    && IsInterfaceOf(entry, owner)
    && forall n :: n in names && n != owner ==> n != entry && !IsInterfaceOf(entry, n)
  }

  ghost predicate IsProbed(s: Settled, s': Settled, entry: string) {
    exists i :: |s.log| <= i < |s'.log| && s'.log[i] == Probe(entry)
  }

  /** What the device is spared: the reopening leaves its interface alone. */
  lemma {:induction false} OpenLeavesHeldAlone(s: Settled, bits: Bits, names: seq<string>, held: set<string>, p: Pass,
                                               owner: string, entry: string)
    requires owner in held || KeptOut(bits, owner, p.enforced)
    requires OwnedIn(names, owner, entry)
    ensures Untouched(s, OpenGate(s, bits, names, held, p), entry)
  {
    if names != [] {
      var front, name := names[..|names| - 1], names[|names| - 1];
      assert names == front + [name];
      assert forall n :: n in front ==> n in names;
      OpenLeavesHeldAlone(s, bits, front, held, p, owner, entry);
      if name !in held && !KeptOut(bits, name, p.enforced) {
        var s1 := OpenGate(s, bits, front, held, p);
        var probed := if name in s1.drivers then s1 else Probed(s1, name, p.kernel);
        assert name in names && name != owner && name != entry;
        SettleDeviceUntouched(probed, false, Interfaces(p.listing, name), p, entry);
      }
    }
  }

  /** Settling an unrouted device's interfaces probes each one that has no driver. */
  lemma {:induction false} SettleProbes(s: Settled, interfaces: seq<string>, p: Pass, entry: string)
    ensures s.log <= SettleDevice(s, false, interfaces, p).log
    ensures entry in interfaces && entry !in s.drivers ==> IsProbed(s, SettleDevice(s, false, interfaces, p), entry)
    ensures entry !in s.drivers ==>
              entry !in SettleDevice(s, false, interfaces, p).drivers
                  || IsProbed(s, SettleDevice(s, false, interfaces, p), entry)
  {
    if interfaces != [] {
      var front, last := interfaces[..|interfaces| - 1], interfaces[|interfaces| - 1];
      SettleProbes(s, front, p, entry);
      var s1 := SettleDevice(s, false, front, p);
      var s' := SettleDevice(s, false, interfaces, p);
      assert interfaces == front + [last];
      assert s1.log <= s'.log;
      if i :| |s.log| <= i < |s1.log| && s1.log[i] == Probe(entry) {
        assert s'.log[i] == Probe(entry);
      } else if last == entry && entry !in s.drivers {
        assert s'.log[|s1.log|] == Probe(entry);
      }
    }
  }

  lemma OpenStepProbes(s: Settled, s1: Settled, name: string, p: Pass, owner: string, entry: string)
    requires IsInterfaceOf(entry, owner) && entry in p.listing && owner !in p.listFails
    requires s.log <= s1.log && (entry !in s1.drivers || IsProbed(s, s1, entry)) && name != entry
    ensures var probed := if name in s1.drivers then s1 else Probed(s1, name, p.kernel);
      var s' := if name in p.listFails then probed else SettleDevice(probed, false, Interfaces(p.listing, name), p);
      && s.log <= s'.log
      && (entry !in s'.drivers || IsProbed(s, s', entry))
      && (name == owner || IsProbed(s, s1, entry) ==> IsProbed(s, s', entry))
  {
    var probed := if name in s1.drivers then s1 else Probed(s1, name, p.kernel);
    var s' := if name in p.listFails then probed else SettleDevice(probed, false, Interfaces(p.listing, name), p);
    SettleProbes(probed, Interfaces(p.listing, name), p, entry);
    assert s1.log <= probed.log <= s'.log;
    if i :| |s.log| <= i < |s1.log| && s1.log[i] == Probe(entry) {
      assert s'.log[i] == Probe(entry);
    }
    if IsProbed(probed, s', entry) {
      var i :| |probed.log| <= i < |s'.log| && s'.log[i] == Probe(entry);
      assert |s.log| <= i;
    }
  }

  lemma {:induction false} OpenProbesRest(s: Settled, bits: Bits, names: seq<string>, held: set<string>, p: Pass,
                                          owner: string, entry: string)
    requires owner !in held && !KeptOut(bits, owner, p.enforced) && owner !in p.listFails
    requires IsInterfaceOf(entry, owner) && entry !in names && entry in p.listing && entry !in s.drivers
    ensures var s' := OpenGate(s, bits, names, held, p);
      && s.log <= s'.log
      && (entry !in s'.drivers || IsProbed(s, s', entry))
      && (owner in names ==> IsProbed(s, s', entry))
  {
    if names != [] {
      var front, name := names[..|names| - 1], names[|names| - 1];
      assert names == front + [name];
      OpenProbesRest(s, bits, front, held, p, owner, entry);
      if name !in held && !KeptOut(bits, name, p.enforced) {
        OpenStepProbes(s, OpenGate(s, bits, front, held, p), name, p, owner, entry);
      }
    }
  }

  /** Reopening probes a driverless interface of a listed device if and only if
      the scan did not yield the device as one whose node the manager
      remembers, and the policy does not keep it out. Whether a VM has the
      device does not enter into it. */
  lemma OpenProbesIff(s: Settled, bits: Bits, usbVms: map<string, string>, scan: Option<seq<UsbDevice>>, p: Pass,
                      d: UsbDevice, entry: string)
    requires d.sysName in DeviceNames(p.listing) && d.sysName !in p.listFails
    requires entry in p.listing && entry !in s.drivers && OwnedIn(DeviceNames(p.listing), d.sysName, entry)
    requires scan.Some? ==> forall e :: e in scan.value && e.sysName == d.sysName ==> e == d
    ensures IsProbed(s, OpenGate(s, bits, DeviceNames(p.listing), HeldByVms(usbVms, scan), p), entry) <==>
              && !(scan.Some? && d in scan.value && d.node.Some? && d.node.value in usbVms)
              && !KeptOut(bits, d.sysName, p.enforced)
  {
    var names, held := DeviceNames(p.listing), HeldByVms(usbVms, scan);
    if d.sysName in held || KeptOut(bits, d.sysName, p.enforced) {
      OpenLeavesHeldAlone(s, bits, names, held, p, d.sysName, entry);
    } else {
      InterfaceHasColon(entry, d.sysName);
      OpenProbesRest(s, bits, names, held, p, d.sysName, entry);
    }
  }

  // ----- the reopening does reach devices that VMs hold -----

  const EXAMPLE_DEVICE: UsbDevice := UsbDevice("1-2", Some("n"), Some("v"), Some("p"), None, false)
  const EXAMPLE_WORLD: World := World(
    DEFAULT_PERSISTENT, DEFAULT_PERSISTENT, map["n" := "a"], map[], {}, map[], {}, {}, false, map[],
    map["sa" := Live(1, map[0 := Ident("v", "p")], {})], Host(map[], map[], map[]), [], [])
  const EXAMPLE_PASS: Pass := Pass(
    true, false, false, HostScan(false, [], _ => false, {}), false, [], false, [], _ => false, {},
    false, ["1-2", "1-2:1.0"], _ => Some(HostDriver("host")), {}, {})

  lemma ExampleNames()
    ensures "1-2" in DeviceNames(EXAMPLE_PASS.listing)
    ensures OwnedIn(DeviceNames(EXAMPLE_PASS.listing), "1-2", "1-2:1.0")
  {
    assert "1-2:1.0"[3] == ':' && !ColonFree("1-2:1.0");
    assert "1-2"[0] != "usb"[0] && !IsRootHub("1-2");
    assert "1-2:1.0"[..4] == "1-2:";
    assert EXAMPLE_PASS.listing[0] == "1-2" && ColonFree("1-2");
  }

  /** A VM has the device and the manager remembers it. Opened as things are,
      the gate leaves it alone. If the scan fails, or a daemon is stopped that
      was restarted and has not reconciled yet, the interface is probed. */
  lemma OpenCanProbeHeldDevice()
    ensures var w, d, p := EXAMPLE_WORLD, EXAMPLE_DEVICE, EXAMPLE_PASS;
      var s, names := Settled(w.host.drivers, w.gateLog), DeviceNames(p.listing);
      && Shows(w.guests["sa"].ports[0], d.vid, d.pid)
      && !IsProbed(s, OpenGate(s, w.host.authorized, names, HeldByVms(w.usbVms, Some([d])), p), "1-2:1.0")
      && IsProbed(s, OpenGate(s, w.host.authorized, names, HeldByVms(w.usbVms, None), p), "1-2:1.0")
      && forall cfg: Config ::
           var held := HeldByVms(Restarted(cfg, w).usbVms, Some([d]));
           IsProbed(s, OpenGate(s, w.host.authorized, names, held, p), "1-2:1.0")
  {
    var w, d, p := EXAMPLE_WORLD, EXAMPLE_DEVICE, EXAMPLE_PASS;
    var s := Settled(w.host.drivers, w.gateLog);
    ExampleNames();
    assert d in [d];
    OpenProbesIff(s, w.host.authorized, w.usbVms, Some([d]), p, d, "1-2:1.0");
    OpenProbesIff(s, w.host.authorized, w.usbVms, None, p, d, "1-2:1.0");
    OpenProbesIff(s, w.host.authorized, map[], Some([d]), p, d, "1-2:1.0");
  }
}
