/**
 What a pass of the gate gives back to the host: exactly the devices and
 interfaces that nobody may keep from it.
 */
module GateProbes {
  import opened Prelude
  import opened World
  import opened UsbNames
  import opened HostPolicy
  import opened Gate

  /** Some device scanned under this name is routed: a rule matches it now or
      did before, and it was not handed back for good. */
  ghost predicate IsRouted(cache: map<string, bool>, p: Pass, name: string) {
    exists d :: d in p.devices && d.sysName == name && PersistentId(d) !in p.marked
                && (p.verdict(d) || Get(cache, PersistentId(d)) == Some(true))
  }

  lemma RoutedIsRouted(cache: map<string, bool>, p: Pass, name: string)
    ensures name in Routed(cache, p, p.devices) <==> IsRouted(cache, p, name)
  {
    RoutedMeans(cache, p, p.devices, name);
    forall d ensures Matched(cache, p, d) <==> p.verdict(d) || Get(cache, PersistentId(d)) == Some(true) {
    }
  }

  lemma ProbedLater(s: Settled, s1: Settled, s': Settled, entry: string)
    requires s.log <= s1.log <= s'.log
    ensures IsProbed(s, s', entry) <==> IsProbed(s, s1, entry) || IsProbed(s1, s', entry)
  {
    if i :| |s.log| <= i < |s1.log| && s1.log[i] == Probe(entry) {
      assert s'.log[i] == Probe(entry);
    }
    if i :| |s1.log| <= i < |s'.log| && s'.log[i] == Probe(entry) {
      assert |s.log| <= i;
    }
    if i :| |s.log| <= i < |s'.log| && s'.log[i] == Probe(entry) {
      assert i < |s1.log| ==> s1.log[i] == Probe(entry);
    }
  }

  /** A driverless interface of a device that is not routed is probed exactly
      if it is among those settled, and gets what the kernel gives it. */
  lemma {:induction false} UnroutedIsProbed(s: Settled, interfaces: seq<string>, p: Pass, entry: string)
    requires entry !in s.drivers
    ensures var s' := SettleDevice(s, false, interfaces, p);
      && s.log <= s'.log
      && (IsProbed(s, s', entry) <==> entry in interfaces)
      && Get(s'.drivers, entry) == if entry in interfaces then p.kernel(entry) else None
  {
    if interfaces != [] {
      var front, last := interfaces[..|interfaces| - 1], interfaces[|interfaces| - 1];
      UnroutedIsProbed(s, front, p, entry);
      var s1 := SettleDevice(s, false, front, p);
      var s' := SettleDevice(s, false, interfaces, p);
      assert interfaces == front + [last];
      ProbedLater(s, s1, s', entry);
      if last == entry && entry !in s1.drivers {
        assert s'.log[|s1.log|] == Probe(entry);
      }
    }
  }

  lemma {:induction false} UntouchedIsUnprobed(s: Settled, s': Settled, entry: string)
    requires Untouched(s, s', entry)
    ensures !IsProbed(s, s', entry)
  {
  }

  /** Settling all devices probes a driverless interface exactly if its device
      is among them and not routed. */
  lemma {:induction false} SettlingProbesIff(s: Settled, routed: set<string>, names: seq<string>, p: Pass,
                                             entry: string, owner: string)
    requires entry !in s.drivers && entry in p.listing && owner !in p.listFails && IsInterfaceOf(entry, owner)
    requires forall n :: n in names && IsInterfaceOf(entry, n) ==> n == owner
    ensures var s' := SettleAll(s, routed, names, p);
      && s.log <= s'.log
      && (IsProbed(s, s', entry) <==> owner in names && owner !in routed)
      && Get(s'.drivers, entry) == if owner in names && owner !in routed then p.kernel(entry) else None
  {
    if names != [] {
      var front, name := names[..|names| - 1], names[|names| - 1];
      assert names == front + [name];
      SettlingProbesIff(s, routed, front, p, entry, owner);
      var s1 := SettleAll(s, routed, front, p);
      var s' := SettleAll(s, routed, names, p);
      if name in p.listFails {
      } else if name != owner {
        SettleDeviceUntouched(s1, name in routed, Interfaces(p.listing, name), p, entry);
        UntouchedIsUnprobed(s1, s', entry);
        ProbedLater(s, s1, s', entry);
      } else {
        OwnSettlingProbes(s1, owner in routed, Interfaces(p.listing, owner), p, entry);
        ProbedLater(s, s1, s', entry);
      }
    }
  }

  /** The device's own turn, which may be one of several. */
  lemma OwnSettlingProbes(s: Settled, isRouted: bool, interfaces: seq<string>, p: Pass, entry: string)
    requires entry in interfaces
    requires entry in s.drivers ==> !isRouted
    ensures var s' := SettleDevice(s, isRouted, interfaces, p);
      && s.log <= s'.log
      && (entry !in s.drivers ==> (IsProbed(s, s', entry) <==> !isRouted))
      && (entry in s.drivers ==> !IsProbed(s, s', entry) && Get(s'.drivers, entry) == Get(s.drivers, entry))
      && (entry !in s.drivers ==> Get(s'.drivers, entry) == if isRouted then None else p.kernel(entry))
  {
    if entry in s.drivers {
      BoundStaysUntouched(s, interfaces, p, entry);
      UntouchedIsUnprobed(s, SettleDevice(s, isRouted, interfaces, p), entry);
    } else if isRouted {
      RoutedStaysUntouched(s, interfaces, p, entry);
      UntouchedIsUnprobed(s, SettleDevice(s, isRouted, interfaces, p), entry);
    } else {
      UnroutedIsProbed(s, interfaces, p, entry);
    }
  }

  /** An interface that has a driver is left alone where its device is not routed. */
  lemma {:induction false} BoundStaysUntouched(s: Settled, interfaces: seq<string>, p: Pass, entry: string)
    requires entry in s.drivers
    ensures Untouched(s, SettleDevice(s, false, interfaces, p), entry)
  {
    if interfaces != [] {
      BoundStaysUntouched(s, interfaces[..|interfaces| - 1], p, entry);
    }
  }

  /** One without a driver is left alone where it is. */
  lemma {:induction false} RoutedStaysUntouched(s: Settled, interfaces: seq<string>, p: Pass, entry: string)
    requires entry !in s.drivers
    ensures Untouched(s, SettleDevice(s, true, interfaces, p), entry)
  {
    if interfaces != [] {
      RoutedStaysUntouched(s, interfaces[..|interfaces| - 1], p, entry);
    }
  }

  /** In a pass that routes and lists, a driverless interface of a listed
      device is probed if and only if no unmarked device of that name is matched
      by a rule, now or in memory. A device handed back for good is therefore
      probed, and so is one that was never scanned. Its driver afterwards is
      what the kernel gives it. */
  lemma PassProbesIff(g: GateState, p: Pass, owner: string, entry: string)
    requires Routes(p) && !p.listingFails
    requires owner in DeviceNames(p.listing) && owner !in p.listFails
    requires entry in p.listing && OwnedOnlyBy(p, entry, owner) && entry !in g.settled.drivers
    ensures var s' := ApplyGate(g, p).settled;
      && (IsProbed(g.settled, s', entry) <==> !IsRouted(g.cache, p, owner))
      && Get(s'.drivers, entry) == if IsRouted(g.cache, p, owner) then None else p.kernel(entry)
  {
    var configured := Configure(g.settled, GrantForHost(g.bits, p), DeviceNames(p.before), p);
    InterfaceHasColon(entry, owner);
    ConfigureUntouched(g.settled, GrantForHost(g.bits, p), DeviceNames(p.before), p, entry);
    UntouchedIsUnprobed(g.settled, configured, entry);
    RoutedIsRouted(g.cache, p, owner);
    SettlingProbesIff(configured, Routed(g.cache, p, p.devices), DeviceNames(p.listing), p, entry, owner);
    ProbedLater(g.settled, configured, ApplyGate(g, p).settled, entry);
  }

  /** A device handed back for good is a case of the above. */
  lemma HandedBackIsProbed(g: GateState, p: Pass, d: UsbDevice, entry: string)
    requires Routes(p) && !p.listingFails
    requires forall e :: e in p.devices && e.sysName == d.sysName ==> PersistentId(e) in p.marked
    requires d.sysName in DeviceNames(p.listing) && d.sysName !in p.listFails
    requires entry in p.listing && OwnedOnlyBy(p, entry, d.sysName) && entry !in g.settled.drivers
    ensures var s' := ApplyGate(g, p).settled;
      IsProbed(g.settled, s', entry) && Get(s'.drivers, entry) == p.kernel(entry)
  {
    PassProbesIff(g, p, d.sysName, entry);
  }

  /** An interface that has a driver keeps it, unless its device is routed. */
  lemma PassKeepsUnrouted(g: GateState, p: Pass, owner: string, entry: string)
    requires Routes(p) && !p.listingFails && !IsRouted(g.cache, p, owner)
    requires OwnedOnlyBy(p, entry, owner) && entry in g.settled.drivers
    ensures Untouched(g.settled, ApplyGate(g, p).settled, entry)
  {
    var configured := Configure(g.settled, GrantForHost(g.bits, p), DeviceNames(p.before), p);
    InterfaceHasColon(entry, owner);
    ConfigureUntouched(g.settled, GrantForHost(g.bits, p), DeviceNames(p.before), p, entry);
    RoutedIsRouted(g.cache, p, owner);
    SettlingKeepsUnrouted(configured, Routed(g.cache, p, p.devices), DeviceNames(p.listing), p, entry, owner);
  }

  lemma {:induction false} SettlingKeepsUnrouted(s: Settled, routed: set<string>, names: seq<string>, p: Pass,
                                                 entry: string, owner: string)
    requires entry in s.drivers && owner !in routed
    requires forall n :: n in names && IsInterfaceOf(entry, n) ==> n == owner
    ensures Untouched(s, SettleAll(s, routed, names, p), entry)
  {
    if names != [] {
      var front, name := names[..|names| - 1], names[|names| - 1];
      assert names == front + [name];
      SettlingKeepsUnrouted(s, routed, front, p, entry, owner);
      var s1 := SettleAll(s, routed, front, p);
      if name == owner {
        BoundStaysUntouched(s1, Interfaces(p.listing, name), p, entry);
      } else {
        SettleDeviceUntouched(s1, name in routed, Interfaces(p.listing, name), p, entry);
      }
    }
  }

  // ----- devices -----

  /** The devices a pass configures are those without a driver, except where
      the policy keeps the host out. */
  lemma {:induction false} ConfiguringProbesIff(s: Settled, bits: Bits, names: seq<string>, p: Pass, name: string)
    requires name !in s.drivers
    ensures var s' := Configure(s, bits, names, p);
      && s.log <= s'.log
      && (IsProbed(s, s', name) <==> name in names && !(p.enforced && Get(bits, name) == Some(false)))
      && Get(s'.drivers, name) ==
         if name in names && !(p.enforced && Get(bits, name) == Some(false)) then p.kernel(name) else None
  {
    if names != [] {
      var front, last := names[..|names| - 1], names[|names| - 1];
      ConfiguringProbesIff(s, bits, front, p, name);
      var s1 := Configure(s, bits, front, p);
      var s' := Configure(s, bits, names, p);
      assert names == front + [last];
      ProbedLater(s, s1, s', name);
      if last == name && name !in s1.drivers && !(p.enforced && Get(bits, name) == Some(false)) {
        assert s'.log[|s1.log|] == Probe(name);
      }
    }
  }

  /** The settling touches no device, since only interfaces carry a colon. */
  lemma {:induction false} SettlingSparesDevices(s: Settled, routed: set<string>, names: seq<string>, p: Pass,
                                                 name: string)
    requires ColonFree(name)
    ensures Untouched(s, SettleAll(s, routed, names, p), name)
  {
    if names != [] {
      var front, last := names[..|names| - 1], names[|names| - 1];
      SettlingSparesDevices(s, routed, front, p, name);
      if name in Interfaces(p.listing, last) {
        InterfaceHasColon(name, last);
      }
      SettleDeviceUntouched(SettleAll(s, routed, front, p), last in routed, Interfaces(p.listing, last), p, name);
    }
  }

  /** In a pass that lists the bus, a driverless device is probed if and only if
      it is listed and not kept out by the policy, after the host got what it
      may use. */
  lemma PassConfiguresIff(g: GateState, p: Pass, name: string)
    requires !Refused(p) && p.active && !p.beforeFails && ColonFree(name) && name !in g.settled.drivers
    ensures var g' := ApplyGate(g, p);
      && (IsProbed(g.settled, g'.settled, name) <==>
            name in p.before && !(p.enforced && Get(g'.bits, name) == Some(false)))
      && (name in p.before && !(p.enforced && Get(g'.bits, name) == Some(false)) ==>
            Get(g'.settled.drivers, name) == p.kernel(name))
  {
    var bits := GrantForHost(g.bits, p);
    var configured := Configure(g.settled, bits, DeviceNames(p.before), p);
    ConfiguringProbesIff(g.settled, bits, DeviceNames(p.before), p, name);
    SettlingSparesDevices(configured, Routed(g.cache, p, p.devices), DeviceNames(p.listing), p, name);
    UntouchedIsUnprobed(configured, ApplyGate(g, p).settled, name);
    ProbedLater(g.settled, configured, ApplyGate(g, p).settled, name);
  }

  /** Reopening configures the devices that have no driver, except those it
      spares and those the policy keeps from the host. */
  lemma {:induction false} OpeningConfiguresIff(s: Settled, bits: Bits, names: seq<string>, held: set<string>, p: Pass,
                                                name: string)
    requires name !in s.drivers && ColonFree(name)
    ensures var s' := OpenGate(s, bits, names, held, p);
      var due := name in names && name !in held && !(p.enforced && Get(bits, name) == Some(false));
      && s.log <= s'.log && (IsProbed(s, s', name) <==> due)
      && Get(s'.drivers, name) == if due then p.kernel(name) else None
  {
    if names != [] {
      var front, last := names[..|names| - 1], names[|names| - 1];
      OpeningConfiguresIff(s, bits, front, held, p, name);
      assert names == front + [last];
      var s1 := OpenGate(s, bits, front, held, p);
      OpeningStep(s, s1, last, p, name);
      if last !in held && !KeptOut(bits, last, p.enforced) {
        var probed := if last in s1.drivers then s1 else Probed(s1, last, p.kernel);
        assert last == name && name !in s1.drivers ==> probed.log[|s1.log|] == Probe(name);
      }
    }
  }

  /** One name of a reopening, seen from another device: only its own probe tells. */
  lemma OpeningStep(s: Settled, s1: Settled, last: string, p: Pass, name: string)
    requires s.log <= s1.log && ColonFree(name)
    ensures var probed := if last in s1.drivers then s1 else Probed(s1, last, p.kernel);
      var settled := if last in p.listFails then probed
                     else SettleDevice(probed, false, Interfaces(p.listing, last), p);
      && s1.log <= probed.log <= settled.log
      && Get(settled.drivers, name) == Get(probed.drivers, name)
      && (IsProbed(s, settled, name) <==> IsProbed(s, probed, name))
      && (IsProbed(s, probed, name) <==> IsProbed(s, s1, name) || (last == name && name !in s1.drivers))
  {
    var probed := if last in s1.drivers then s1 else Probed(s1, last, p.kernel);
    if name in Interfaces(p.listing, last) {
      InterfaceHasColon(name, last);
    }
    SettleDeviceUntouched(probed, false, Interfaces(p.listing, last), p, name);
    var settled := if last in p.listFails then probed else SettleDevice(probed, false, Interfaces(p.listing, last), p);
    UntouchedIsUnprobed(probed, settled, name);
    ProbedLater(s, probed, settled, name);
    ProbedLater(s, s1, probed, name);
    if last == name && name !in s1.drivers {
      assert probed.log[|s1.log|] == Probe(name);
    }
  }

  // ----- where a pass stops -----

  /** A pass that cannot close the gate or scan the bus first does nothing; one
      without a gate grants and does no more; one that cannot list the bus or
      scan it again remembers no verdict and settles no interface. Nothing is
      granted where the policy is not enforced. */
  lemma PassStops(g: GateState, p: Pass)
    ensures var g' := ApplyGate(g, p);
      && ((p.active && p.closeFails) || (p.enforced && p.host.scanFails) ==> g' == g)
      && (!p.enforced ==> g'.bits == g.bits)
      && (!p.active || p.beforeFails ==> g' == g.(bits := g'.bits))
      && (p.scanFails ==> g'.cache == g.cache)
      && (p.scanFails || p.listingFails ==>
            forall i :: |g.settled.log| <= i < |g'.settled.log| ==> !g'.settled.log[i].Release?)
  {
    ConfiguringReleasesNothing(g.settled, GrantForHost(g.bits, p), DeviceNames(p.before), p);
  }

  lemma {:induction false} ConfiguringReleasesNothing(s: Settled, bits: Bits, names: seq<string>, p: Pass)
    ensures var s' := Configure(s, bits, names, p);
      s.log <= s'.log && forall i :: |s.log| <= i < |s'.log| ==> !s'.log[i].Release?
  {
    if names != [] {
      ConfiguringReleasesNothing(s, bits, names[..|names| - 1], p);
    }
  }

  /** A pass that routes remembers a verdict for the devices it saw and no
      other: a device that was away for one such pass is judged afresh. */
  lemma PassRemembers(g: GateState, p: Pass, d: UsbDevice)
    requires Routes(p) && forall e :: e in p.devices && e != d ==> PersistentId(e) != PersistentId(d)
    ensures Get(ApplyGate(g, p).cache, PersistentId(d)) ==
              if d in p.devices then Some(p.verdict(d) || Get(g.cache, PersistentId(d)) == Some(true)) else None
  {
    SeenVerdict(g.cache, p, p.devices, d);
  }
}
