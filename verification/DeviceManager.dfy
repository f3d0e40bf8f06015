/**
 The manager as it runs: methods that update its records step by step and
 drive the VMs and the host, each proved to do exactly what its
 specification function says, on every path through it.
 */
module DeviceManager {
  import opened Prelude
  import opened Crosvm
  import opened World
  import opened UsbSpec
  import opened PciSpec
  import opened Machine
  import opened StateFile
  import PciRules
  import opened ReconcileSpec
  import HostPolicy
  import Gate
  import UsbNames

  /** Every port that shows the device, as listed. */
  method MatchingPorts(live: map<nat, Ident>, d: UsbDevice) returns (matching: seq<nat>)
    ensures |matching| == |Matching(live, d)|
    ensures forall p :: p in matching <==> p in Matching(live, d)
  {
    matching := [];
    var rest := live.Keys;
    ghost var found: set<nat> := {};
    while rest != {}
      invariant rest <= live.Keys
      invariant found == set p | p in Matching(live, d) && p !in rest
      invariant |matching| == |found| && forall p :: p in matching <==> p in found
      decreases |rest|
    {
      var port: nat :| port in rest;
      rest := rest - {port};
      if Shows(live[port], d.vid, d.pid) {
        matching := matching + [port];
        found := found + {port};
      }
    }
    assert found == Matching(live, d);
  }

  class Manager {
    const cfg: Config
    const state: State
    const machine: Surroundings
    var pending: set<string>
    var observedUsb: map<string, UsbDevice>
    var observedPci: set<string>
    var reportedHubs: set<string>
    var deferred: bool
    var usbRouting: map<string, bool>

    /** The world as it is now. */
    ghost function Now(): World
      reads this, state, machine
    {
      World(state.persistent, state.disk, state.usbVms, state.pciVms, pending, observedUsb, observedPci, reportedHubs,
            deferred, usbRouting, machine.guests, machine.host, machine.log, machine.gateLog)
    }

    ghost predicate Valid() {
      state.enabled == cfg.persistency
    }

    /** A daemon that starts knows what was saved and nothing else. */
    constructor (cfg: Config, disk: Persistent, machine: Surroundings)
      ensures this.cfg == cfg && this.machine == machine && fresh(state) && Valid()
      ensures forall w: World ::
                w.disk == disk && w.guests == machine.guests && w.host == machine.host && w.log == machine.log
                    && w.gateLog == machine.gateLog ==>
                  Now() == Restarted(cfg, w)
    {
      this.cfg, this.machine := cfg, machine;
      state := new State.Load(cfg.persistency, disk);
      pending, observedUsb, observedPci, reportedHubs, deferred, usbRouting := {}, map[], {}, {}, false, map[];
    }

    // ----- detaching -----

    method ReleasePort(socket: string, binding: Option<Binding>, d: UsbDevice, f: DetachFaults)
      returns (error: Option<Failure>)
      modifies machine
      ensures (Now(), error) == ReleaseFromVm(old(Now()), socket, binding, d, f)
    {
      if socket !in machine.guests || machine.guests[socket].NoSocket? {
        return None;
      }
      var generation := machine.guests[socket].generation;
      var live := machine.UsbList(socket, f.listFails);
      if live.None? {
        return Some(CrosvmFailed);
      }
      if binding.Some? && binding.value.generation == generation {
        var port := binding.value.port;
        if port !in live.value {
          return None;
        }
        if !Shows(live.value[port], d.vid, d.pid) {
          return Some(DifferentDevice);
        }
        error := machine.UsbDetach(socket, port, f.detachFails);
      } else {
        var matching := MatchingPorts(live.value, d);
        if |matching| == 0 {
          return None;
        }
        if |matching| > 1 {
          return Some(AmbiguousDetach);
        }
        assert matching[0] in matching;
        OnlyOne(Matching(live.value, d), matching[0]);
        error := machine.UsbDetach(socket, matching[0], f.detachFails);
      }
    }

    /** The device is gone from the VM: drop its records and close it on the host. */
    method FinishDetaching(d: UsbDevice, node: string, permanent: bool, f: DetachFaults) returns (outcome: Outcome)
      requires Valid()
      modifies `pending, state, machine
      ensures (Now(), outcome) == FinishDetach(cfg, old(Now()), d, node, permanent, f)
    {
      state.usbVms := Without(state.usbVms, node);
      state.persistent := state.persistent.(ports := Without(state.persistent.ports, d.sysName));
      var saved := state.SetDisconnected(PersistentId(d), permanent, f.saveMarkFails);
      if saved {
        saved := state.Save(f.saveFails);
      }
      pending := pending - {PersistentId(d)};
      CloseOnHost(d, f);
      outcome := if saved then Done else Failed(SaveFailed);
    }

    method CloseOnHost(d: UsbDevice, f: DetachFaults)
      modifies machine`host
      ensures Now() ==
              if cfg.authorization && !d.hub then WithAuthorized(old(Now()), d.sysName, false, f.deauthorizeFails)
              else old(Now())
    {
      if cfg.authorization && !d.hub && d.sysName in machine.host.authorized {
        var _ := machine.Authorize(d.sysName, false, f.deauthorizeFails);
      }
    }

    method DetachOneUsb(d: UsbDevice, permanent: bool, f: DetachFaults) returns (outcome: Outcome)
      requires Valid()
      modifies this, state, machine
      ensures (Now(), outcome) == DetachOne(cfg, old(Now()), d, permanent, f)
    {
      if d.node.None? {
        return Failed(NoDeviceNode);
      }
      var node := d.node.value;
      var binding := Get(state.persistent.ports, d.sysName);
      var vm := Get(state.usbVms, node);
      if vm.None? && binding.Some? {
        vm := Some(binding.value.vm);
      }
      if vm.Some? {
        if vm.value !in cfg.sockets {
          return Failed(UnknownVm);
        }
        var error := ReleasePort(cfg.sockets[vm.value], binding, d, f);
        if error.Some? {
          return Failed(error.value);
        }
        machine.Notify(UsbDetached(node, vm.value));
      }
      outcome := FinishDetaching(d, node, permanent, f);
    }

    // ----- attaching -----

    /** Configures a device nobody has configured and takes host drivers off
        its interfaces; a result ends the attach. */
    method PrepareDevice(d: UsbDevice, f: AttachFaults) returns (stop: Option<AttachResult>)
      modifies this, machine
      ensures (Now(), stop) == Prepare(cfg, old(Now()), d, f)
    {
      if cfg.hasBus && d.sysName !in machine.host.drivers {
        if f.probeFails {
          return Some(Rejected(ProbeFailed));
        }
        machine.host := machine.host.(drivers := machine.host.drivers + f.probed);
      }
      if f.interfaces.None? {
        return Some(Rejected(ClaimFailed));
      }
      var claim := Claim(f.interfaces.value, f.releaseFails);
      match claim {
        case IsHub =>
          reportedHubs := reportedHubs + {PersistentId(d)};
          stop := Some(SkippedHub);
        case ReleaseFailed => stop := Some(Rejected(ClaimFailed));
        case Claimed => stop := None;
      }
    }

    method Claim(interfaces: seq<string>, releaseFails: set<string>) returns (claim: UsbSpec.Claim)
      modifies machine`host
      ensures machine.host == old(machine.host).(drivers := machine.host.drivers)
      ensures (machine.host.drivers, claim) == ClaimInterfaces(old(machine.host.drivers), interfaces, releaseFails)
    {
      for i := 0 to |interfaces|
        invariant machine.host == old(machine.host).(drivers := machine.host.drivers)
        invariant ClaimInterfaces(old(machine.host.drivers), interfaces, releaseFails)
               == ClaimInterfaces(machine.host.drivers, interfaces[i..], releaseFails)
      {
        var name := interfaces[i];
        assert interfaces[i..][1..] == interfaces[i + 1..];
        if name in machine.host.drivers {
          match machine.host.drivers[name] {
            case HubDriver => return IsHub;
            case Usbfs =>
            case HostDriver(_) =>
              if name in releaseFails {
                return ReleaseFailed;
              }
              machine.host := machine.host.(drivers := Without(machine.host.drivers, name));
          }
        }
      }
      claim := Claimed;
    }

    /** The records written once Crosvm owns the device, with a save after each. */
    method RecordAttachment(d: UsbDevice, node: string, binding: Binding, changed: bool, f: AttachFaults)
      returns (result: AttachResult)
      requires Valid()
      modifies this, state, machine
      ensures Guarded(Now(), result, true) == Record(cfg, old(Now()), d, node, binding, changed, f)
    {
      var id := PersistentId(d);
      state.usbVms := state.usbVms[node := binding.vm];
      var saved := state.SelectVm(id, binding.vm, f.saveSelectFails);
      if !saved {
        return Rejected(SaveFailed);
      }
      saved := state.SetDisconnected(id, false, f.saveMarkFails);
      if !saved {
        return Rejected(SaveFailed);
      }
      result := RecordBinding(d, binding, changed, f);
    }

    method RecordBinding(d: UsbDevice, binding: Binding, changed: bool, f: AttachFaults) returns (result: AttachResult)
      requires Valid()
      modifies `pending, state, machine
      ensures Guarded(Now(), result, true) == RecordPort(cfg, old(Now()), d, binding, changed, f)
    {
      state.persistent := state.persistent.(ports := state.persistent.ports[d.sysName := binding]);
      var saved := state.Save(f.saveFails);
      if !saved {
        return Rejected(SaveFailed);
      }
      pending := pending - {PersistentId(d)};
      if changed {
        machine.Notify(UsbAttached(d.sysName, binding.vm));
      }
      result := Attached;
    }

    /** Hands the device to Crosvm and gives back the port an earlier device
        of this name still occupies. */
    method AttachAnew(d: UsbDevice, node: string, vm: string, socket: string, view: Guest, names: seq<string>,
                      f: AttachFaults)
      returns (result: AttachResult, committed: bool)
      requires Valid() && view.Live?
      modifies this, state, machine
      ensures Guarded(Now(), result, committed) == AttachFresh(cfg, old(Now()), d, node, vm, socket, view, names, f)
    {
      var stale := StalePort(Get(state.persistent.ports, d.sysName), vm, view);
      var port := machine.UsbAttach(socket, node, names, f);
      if port.None? {
        return Rejected(CrosvmFailed), false;
      }
      committed := true;
      result := SettleAttached(d, node, socket, stale, BindingFor(d, vm, port.value, view.generation), f);
    }

    method SettleAttached(d: UsbDevice, node: string, socket: string, stale: Option<nat>, binding: Binding,
                          f: AttachFaults)
      returns (result: AttachResult)
      requires Valid() && GuestAt(Now(), socket).Live?
      modifies this, state, machine
      ensures Guarded(Now(), result, true) == SettleTaken(cfg, old(Now()), d, node, socket, stale, binding, f)
    {
      if stale.Some? && stale.value != binding.port {
        var error := machine.UsbDetach(socket, stale.value, f.staleFails);
        if error.Some? {
          return Rejected(error.value);
        }
      }
      result := RecordAttachment(d, node, binding, true, f);
    }

    method ConnectDevice(d: UsbDevice, node: string, vm: string, socket: string, preflight: Option<Guest>,
                         changed: bool, names: seq<string>, f: AttachFaults)
      returns (result: AttachResult, committed: bool)
      requires Valid() && (preflight.Some? ==> preflight.value.Live?)
      modifies this, state, machine
      ensures Guarded(Now(), result, committed) ==
              Connect(cfg, old(Now()), d, node, vm, socket, preflight, changed, names, f)
    {
      var known := Get(state.persistent.ports, d.sysName);
      var view: Guest;
      if preflight.Some? {
        view := preflight.value;
      } else {
        var live := machine.UsbList(socket, f.listFails);
        if live.None? {
          return Rejected(CrosvmFailed), false;
        }
        view := machine.guests[socket];
      }
      if Reusable(known, d, vm, view) {
        committed := true;
        result := RecordAttachment(d, node, known.value, changed, f);
      } else {
        result, committed := AttachAnew(d, node, vm, socket, view, names, f);
      }
    }

    /** The part of an attach that the authorization guard watches over: the
        guard is dropped on every way out, and withdraws what it gave unless
        Crosvm took the device. */
    method AttachUnderGuard(d: UsbDevice, node: string, vm: string, socket: string, preflight: Option<Guest>,
                            changed: bool, f: AttachFaults)
      returns (result: AttachResult)
      requires Valid() && (preflight.Some? ==> preflight.value.Live?)
      modifies this, state, machine
      ensures (Now(), result) == UnderGuard(cfg, old(Now()), d, node, vm, socket, preflight, changed, f)
    {
      var armed := cfg.authorization && !d.hub && Get(machine.host.authorized, d.sysName) != Some(true);
      var authorized := true;
      if armed {
        authorized := machine.Authorize(d.sysName, true, f.authorizeFails);
      }
      if !authorized {
        DropGuard(d, armed, f);
        return Rejected(AuthorizeFailed);
      }
      var committed;
      result, committed := PrepareAndConnect(d, node, vm, socket, preflight, changed, f);
      DropGuard(d, armed && !committed, f);
    }

    method DropGuard(d: UsbDevice, armed: bool, f: AttachFaults)
      modifies machine`host
      ensures Now() == Drop(old(Now()), d, armed, f)
    {
      if armed {
        var _ := machine.Authorize(d.sysName, false, f.rollbackFails);
      }
    }

    method PrepareAndConnect(d: UsbDevice, node: string, vm: string, socket: string, preflight: Option<Guest>,
                             changed: bool, f: AttachFaults)
      returns (result: AttachResult, committed: bool)
      requires Valid() && (preflight.Some? ==> preflight.value.Live?)
      modifies this, state, machine
      ensures Guarded(Now(), result, committed) ==
              ClaimAndConnect(cfg, old(Now()), d, node, vm, socket, preflight, changed, f)
    {
      var stop := PrepareDevice(d, f);
      if stop.Some? {
        return stop.value, false;
      }
      result, committed := ConnectDevice(d, node, vm, socket, preflight, changed, f.interfaces.value, f);
    }

    method AttachInto(d: UsbDevice, vm: string, f: AttachFaults) returns (result: AttachResult)
      requires Valid() && vm in cfg.sockets
      modifies this, state, machine
      ensures (Now(), result) == AttachTo(cfg, old(Now()), d, vm, f)
    {
      var socket := cfg.sockets[vm];
      if cfg.authorization && (socket !in machine.guests || machine.guests[socket].NoSocket?) {
        return Rejected(SocketAbsent);
      }
      var preflight: Option<Guest> := None;
      if cfg.authorization && !d.hub {
        var live := machine.UsbList(socket, f.preflightFails);
        if live.None? {
          return Rejected(CrosvmFailed);
        }
        preflight := Some(machine.guests[socket]);
      }
      if d.node.None? {
        return Rejected(NoDeviceNode);
      }
      var node := d.node.value;
      var current := Get(state.usbVms, node);
      var changed := current != Some(vm);
      if current.Some? && current.value != vm {
        var moved := DetachOneUsb(d, false, f.move);
        if moved.Failed? {
          return Rejected(moved.error);
        }
      }
      result := AttachUnderGuard(d, node, vm, socket, preflight, changed, f);
    }

    method AttachOneUsb(d: UsbDevice, rule: UsbRule, requested: Option<string>, f: AttachFaults)
      returns (result: AttachResult)
      requires Valid()
      modifies this, state, machine
      ensures (Now(), result) == AttachOne(cfg, old(Now()), d, rule, requested, f)
    {
      var id := PersistentId(d);
      var vm := requested;
      if vm.None? {
        vm := rule.targetVm;
      }
      if vm.None? {
        vm := Get(state.persistent.selected, id);
      }
      if vm.None? && |rule.allowedVms| == 1 {
        vm := Some(rule.allowedVms[0]);
      }
      if vm.None? {
        if id !in pending {
          pending := pending + {id};
          machine.Notify(UsbSelectVm(d.sysName));
        }
        return Pending;
      }
      if vm.value !in AllowedVms(rule) {
        return Rejected(NotAllowed);
      }
      if vm.value !in cfg.sockets {
        return Rejected(UnknownVm);
      }
      result := AttachInto(d, vm.value, f);
    }

    // ----- suspending and resuming -----

    method SuspendUsbDevices(devices: seq<RoutedUsb>, scope: Option<string>, fs: string -> DetachFaults)
      returns (failures: seq<(string, Failure)>)
      requires Valid()
      modifies this, state, machine
      ensures (Now(), failures == []) == SuspendUsb(cfg, old(Now()), devices, scope, fs)
    {
      failures := [];
      for i := 0 to |devices|
        invariant (Now(), failures == []) == SuspendUsb(cfg, old(Now()), devices[..i], scope, fs)
      {
        assert devices[..i + 1][..i] == devices[..i];
        var name := devices[i].device.sysName;
        var failure := SuspendOneUsb(devices[i], scope, fs(name));
        if failure.Some? {
          failures := failures + [(name, failure.value)];
        }
      }
      assert devices[..|devices|] == devices;
    }

    method SuspendOneUsb(x: RoutedUsb, scope: Option<string>, f: DetachFaults) returns (failure: Option<Failure>)
      requires Valid()
      modifies this, state, machine
      ensures (Now(), failure.None?) == SuspendOne(cfg, old(Now()), x, scope, f)
    {
      var node := if x.device.node.Some? then x.device.node.value else "";
      if x.rule.skipOnSuspend || node !in state.usbVms || (scope.Some? && scope.value != state.usbVms[node]) {
        return None;
      }
      var outcome := DetachOneUsb(x.device, false, f);
      failure := if outcome.Failed? then Some(outcome.error) else None;
    }

    /** A control socket exists only while its VM runs. */
    method VmIsStopped(vm: Option<string>) returns (stopped: bool)
      ensures stopped <==> VmStopped(cfg, Now(), vm)
    {
      if vm.None? || vm.value !in cfg.sockets {
        return false;
      }
      var socket := cfg.sockets[vm.value];
      stopped := socket !in machine.guests || machine.guests[socket].NoSocket?;
    }

    method ResumeOneUsb(x: RoutedUsb, scope: Option<string>, f: AttachFaults) returns (failure: Option<Failure>)
      requires Valid()
      modifies this, state, machine
      ensures (Now(), failure.None?) == ResumeOne(cfg, old(Now()), x, scope, f)
    {
      var id := PersistentId(x.device);
      if id in state.persistent.disconnected {
        return None;
      }
      var target := x.rule.targetVm;
      if target.None? {
        target := Get(state.persistent.selected, id);
      }
      if scope.Some? && target != scope {
        return None;
      }
      var result := AttachOneUsb(x.device, x.rule, target, f);
      if !result.Rejected? {
        return None;
      }
      var stopped := VmIsStopped(target);
      if stopped {
        deferred := true;
        return None;
      }
      failure := Some(result.error);
    }

    method ResumeUsbDevices(devices: seq<RoutedUsb>, scope: Option<string>, fs: string -> AttachFaults)
      returns (failures: seq<(string, Failure)>)
      requires Valid()
      modifies this, state, machine
      ensures (Now(), failures == []) == ResumeUsb(cfg, old(Now()), devices, scope, fs)
    {
      failures := [];
      for i := 0 to |devices|
        invariant (Now(), failures == []) == ResumeUsb(cfg, old(Now()), devices[..i], scope, fs)
      {
        assert devices[..i + 1][..i] == devices[..i];
        var name := devices[i].device.sysName;
        var failure := ResumeOneUsb(devices[i], scope, fs(name));
        if failure.Some? {
          failures := failures + [(name, failure.value)];
        }
      }
      assert devices[..|devices|] == devices;
    }

    // ----- PCI -----

    method BindGroup(addresses: seq<string>, fails: set<string>) returns (ok: bool)
      modifies machine
      ensures (Now(), ok) == BindAll(old(Now()), addresses, fails)
    {
      for i := 0 to |addresses|
        invariant (Now(), true) == BindAll(old(Now()), addresses[..i], fails)
      {
        assert addresses[..i + 1][..i] == addresses[..i];
        ok := machine.BindVfio(addresses[i], addresses[i] in fails);
        if !ok {
          BindAllStops(old(Now()), addresses, i + 1, fails);
          return;
        }
      }
      assert addresses[..|addresses|] == addresses;
      ok := true;
    }

    method AddFunctions(socket: string, addresses: seq<string>, live: set<string>, f: PciFaults)
      returns (ok: bool, added: bool)
      modifies machine
      ensures (Now(), ok) == AddAll(old(Now()), socket, addresses, live, f)
      ensures ok ==> (added <==> exists a :: a in addresses && a !in live)
    {
      added := false;
      for i := 0 to |addresses|
        invariant (Now(), true) == AddAll(old(Now()), socket, addresses[..i], live, f)
        invariant added <==> exists k :: 0 <= k < i && addresses[k] !in live
      {
        assert addresses[..i + 1][..i] == addresses[..i];
        if addresses[i] !in live {
          added := true;
          ok := machine.VfioAdd(socket, addresses[i], f.adds(addresses[i]));
          if !ok {
            AddAllStops(old(Now()), socket, addresses, i + 1, live, f);
            return;
          }
        }
      }
      assert addresses[..|addresses|] == addresses;
      ok := true;
    }

    method RecordFunctions(address: string, vm: string, addresses: seq<string>, changed: bool, f: PciFaults)
      returns (result: PciResult)
      requires Valid()
      modifies state, machine
      ensures (Now(), result) == FinishAttachPci(cfg, old(Now()), address, vm, addresses, changed, f)
    {
      for i := 0 to |addresses|
        invariant Now() == old(Now()).(pciVms := RecordAll(old(state.pciVms), addresses[..i], vm))
      {
        assert addresses[..i + 1][..i] == addresses[..i];
        state.pciVms := state.pciVms[addresses[i] := vm];
      }
      assert addresses[..|addresses|] == addresses;
      var saved := state.SetDisconnected(PciPersistentId(address), false, f.saveFails);
      if !saved {
        return PciFailed(SaveFailed);
      }
      if changed {
        machine.Notify(PciAttached(address, vm));
      }
      result := PciDone;
    }

    method AttachPciFunction(groups: PciRules.Groups, x: PciRules.Routed, requested: Option<string>, f: PciFaults)
      returns (result: PciResult)
      requires Valid()
      modifies state, machine
      ensures (Now(), result) == AttachOnePci(cfg, groups, old(Now()), x, requested, f)
    {
      var address, vm := x.device.address, x.rule.targetVm;
      if requested.Some? && requested.value != vm {
        return PciFailed(NotAllowed);
      }
      if vm !in cfg.sockets {
        return PciFailed(UnknownVm);
      }
      var socket := cfg.sockets[vm];
      if socket !in machine.guests || !machine.guests[socket].Live? || f.listFails {
        return PciFailed(CrosvmFailed);
      }
      var live := machine.guests[socket].vfio;
      var group := groups(address);
      if group.Err? {
        return PciFailed(GroupUnreadable);
      }
      if x.rule.iommuSkipIfShared && |group.value| > 1 {
        return PciFailed(GroupShared);
      }
      var quarantine := if group.value == [] then [address] else group.value;
      var attach := if x.rule.iommuAddAll then quarantine else [address];
      result := QuarantineAndAttach(address, vm, socket, quarantine, attach, live, f);
    }

    method QuarantineAndAttach(address: string, vm: string, socket: string, quarantine: seq<string>,
                               attach: seq<string>, live: set<string>, f: PciFaults)
      returns (result: PciResult)
      requires Valid()
      modifies state, machine
      ensures var (added, error) := BindAndAdd(old(Now()), quarantine, attach, socket, live, f);
        var changed := Unrecorded(old(state.pciVms), attach, vm) || exists a :: a in attach && a !in live;
        (Now(), result) == if error.Some? then (added, PciFailed(error.value))
                           else FinishAttachPci(cfg, added, address, vm, attach, changed, f)
    {
      var bound := BindGroup(quarantine, f.bindFails);
      if !bound {
        return PciFailed(BindFailed);
      }
      var changed := Unrecorded(state.pciVms, attach, vm);
      var ok, added := AddFunctions(socket, attach, live, f);
      if !ok {
        return PciFailed(CrosvmFailed);
      }
      result := RecordFunctions(address, vm, attach, changed || added, f);
    }

    method RemoveFunctions(socket: string, addresses: seq<string>, outcomes: string -> VfioOutcome) returns (ok: bool)
      modifies machine
      ensures (Now(), ok) == RemoveAll(old(Now()), socket, addresses, outcomes)
    {
      for i := 0 to |addresses|
        invariant (Now(), true) == RemoveAll(old(Now()), socket, addresses[..i], outcomes)
      {
        assert addresses[..i + 1][..i] == addresses[..i];
        ok := machine.VfioRemove(socket, addresses[i], outcomes(addresses[i]));
        if !ok {
          RemoveAllStops(old(Now()), socket, addresses, i + 1, outcomes);
          return;
        }
      }
      assert addresses[..|addresses|] == addresses;
      ok := true;
    }

    method ForgetFunctions(addresses: seq<string>)
      modifies state`pciVms
      ensures state.pciVms == ForgetAll(old(state.pciVms), addresses)
    {
      for i := 0 to |addresses|
        invariant state.pciVms == ForgetAll(old(state.pciVms), addresses[..i])
      {
        assert addresses[..i + 1] == addresses[..i] + [addresses[i]];
        state.pciVms := Without(state.pciVms, addresses[i]);
      }
      assert addresses[..|addresses|] == addresses;
    }

    method DetachPciFunction(groups: PciRules.Groups, x: PciRules.Routed, permanent: bool, f: PciFaults)
      returns (result: PciResult)
      requires Valid()
      modifies state, machine
      ensures (Now(), result) == DetachOnePci(cfg, groups, old(Now()), x, permanent, f)
    {
      var address := x.device.address;
      var vm := if address in state.pciVms then state.pciVms[address] else x.rule.targetVm;
      if vm !in cfg.sockets {
        return PciFailed(UnknownVm);
      }
      var group := groups(address);
      if group.Err? {
        return PciFailed(GroupUnreadable);
      }
      var detach := if x.rule.iommuAddAll && group.value != [] then group.value else [address];
      var removed := TakeBackFunctions(cfg.sockets[vm], detach, f.removes);
      if !removed {
        return PciFailed(CrosvmFailed);
      }
      result := FinishDetachingPci(address, vm, detach, permanent, f);
    }

    /** Nothing to take back where the socket is gone. */
    method TakeBackFunctions(socket: string, detach: seq<string>, outcomes: string -> VfioOutcome) returns (ok: bool)
      modifies machine
      ensures (Now(), ok) ==
              if GuestAt(old(Now()), socket).NoSocket? then (old(Now()), true)
                  else RemoveAll(old(Now()), socket, detach, outcomes)
    {
      if socket !in machine.guests || machine.guests[socket].NoSocket? {
        return true;
      }
      ok := RemoveFunctions(socket, detach, outcomes);
    }

    method FinishDetachingPci(address: string, vm: string, detach: seq<string>, permanent: bool, f: PciFaults)
      returns (result: PciResult)
      requires Valid()
      modifies state, machine`log
      ensures (Now(), result) == FinishDetachPci(cfg, old(Now()), address, vm, detach, permanent, f)
    {
      ForgetFunctions(detach);
      machine.Notify(PciDetached(address, vm));
      var saved := state.SetDisconnected(PciPersistentId(address), permanent, f.saveFails);
      result := if saved then PciDone else PciFailed(SaveFailed);
    }

    method SuspendPciFunctions(groups: PciRules.Groups, devices: seq<PciRules.Routed>, scope: Option<string>,
                               fs: string -> PciFaults)
      returns (failures: seq<(string, Failure)>)
      requires Valid()
      modifies this, state, machine
      ensures (Now(), failures == []) == SuspendPci(cfg, groups, old(Now()), devices, scope, fs)
    {
      failures := [];
      for i := 0 to |devices|
        invariant (Now(), failures == []) == SuspendPci(cfg, groups, old(Now()), devices[..i], scope, fs)
      {
        assert devices[..i + 1][..i] == devices[..i];
        var address := devices[i].device.address;
        var failure := SuspendFunction(groups, devices[i], scope, fs(address));
        if failure.Some? {
          failures := failures + [(address, failure.value)];
        }
      }
      assert devices[..|devices|] == devices;
    }

    method SuspendFunction(groups: PciRules.Groups, x: PciRules.Routed, scope: Option<string>, f: PciFaults)
      returns (failure: Option<Failure>)
      requires Valid()
      modifies this, state, machine
      ensures (Now(), failure.None?) == SuspendOnePci(cfg, groups, old(Now()), x, scope, f)
    {
      var address := x.device.address;
      if x.rule.skipOnSuspend || address !in state.pciVms || (scope.Some? && scope.value != state.pciVms[address]) {
        return None;
      }
      var result := DetachPciFunction(groups, x, false, f);
      failure := if result.PciFailed? then Some(result.error) else None;
    }

    method ResumePciFunctions(groups: PciRules.Groups, devices: seq<PciRules.Routed>, scope: Option<string>,
                              fs: string -> PciFaults)
      returns (failures: seq<(string, Failure)>)
      requires Valid()
      modifies this, state, machine
      ensures (Now(), failures == []) == ResumePci(cfg, groups, old(Now()), devices, scope, fs)
    {
      failures := [];
      for i := 0 to |devices|
        invariant (Now(), failures == []) == ResumePci(cfg, groups, old(Now()), devices[..i], scope, fs)
      {
        assert devices[..i + 1][..i] == devices[..i];
        var address := devices[i].device.address;
        var failure := ResumeFunction(groups, devices[i], scope, fs(address));
        if failure.Some? {
          failures := failures + [(address, failure.value)];
        }
      }
      assert devices[..|devices|] == devices;
    }

    method ResumeFunction(groups: PciRules.Groups, x: PciRules.Routed, scope: Option<string>, f: PciFaults)
      returns (failure: Option<Failure>)
      requires Valid()
      modifies this, state, machine
      ensures (Now(), failure.None?) == ResumeOnePci(cfg, groups, old(Now()), x, scope, f)
    {
      if PciPersistentId(x.device.address) in state.persistent.disconnected {
        return None;
      }
      if scope.Some? && scope.value != x.rule.targetVm {
        return None;
      }
      var result := AttachPciFunction(groups, x, Some(x.rule.targetVm), f);
      if result.PciDone? {
        return None;
      }
      var stopped := VmIsStopped(Some(x.rule.targetVm));
      if stopped {
        deferred := true;
        return None;
      }
      failure := Some(result.error);
    }

    // ----- observing -----

    /** An unplugged device: give back its port, drop its records. */
    method ForgetUsb(key: string, d: UsbDevice, f: ForgetFaults) returns (outcome: Outcome)
      requires Valid()
      modifies `pending, state, machine
      ensures (Now(), outcome) == ForgetGone(cfg, old(Now()), key, d, f)
    {
      var binding := Get(state.persistent.ports, key);
      if binding.Some? {
        if binding.value.vm !in cfg.sockets {
          return Failed(UnknownVm);
        }
        var error := DropStalePort(binding.value, f);
        if error.Some? {
          return Failed(error.value);
        }
      }
      outcome := DropRecords(key, d, f);
    }

    method DropRecords(key: string, d: UsbDevice, f: ForgetFaults) returns (outcome: Outcome)
      requires Valid()
      modifies `pending, state, machine`log
      ensures (Now(), outcome) == FinishForget(cfg, old(Now()), key, d, f)
    {
      machine.Notify(UsbDisconnected(key));
      if d.node.Some? {
        state.usbVms := Without(state.usbVms, d.node.value);
      }
      state.persistent := state.persistent.(ports := Without(state.persistent.ports, key));
      var saved := state.Save(f.saveFails);
      if !saved {
        return Failed(SaveFailed);
      }
      pending := pending - {PersistentId(d)};
      outcome := Done;
    }

    method DropStalePort(binding: Binding, f: ForgetFaults) returns (error: Option<Failure>)
      requires binding.vm in cfg.sockets
      modifies machine
      ensures (Now(), error) == DropPort(cfg, old(Now()), binding, f)
    {
      var socket := cfg.sockets[binding.vm];
      if socket !in machine.guests || machine.guests[socket].NoSocket?
          || binding.generation != machine.guests[socket].generation {
        return None;
      }
      var live := machine.UsbList(socket, f.listFails);
      if live.None? {
        return Some(CrosvmFailed);
      }
      if binding.port in live.value && Shows(live.value[binding.port], binding.vid, binding.pid) {
        error := machine.UsbDetach(socket, binding.port, f.detachFails);
      } else {
        error := None;
      }
    }

    method ObserveUsbDevices(scanned: map<string, UsbDevice>, arrivals: seq<string>, order: seq<string>,
                             fs: string -> ForgetFaults)
      returns (outcome: Outcome)
      requires Valid()
      modifies `pending, `observedUsb, state, machine
      ensures (Now(), outcome) == ObserveUsb(cfg, old(Now()), scanned, arrivals, order, fs)
    {
      AnnounceNewcomers(arrivals);
      outcome := ForgetUnplugged(scanned, order, fs);
      if outcome.Done? {
        observedUsb := scanned;
      }
    }

    method AnnounceNewcomers(arrivals: seq<string>)
      modifies machine`log
      ensures machine.log == old(machine.log) + Newcomers(observedUsb, arrivals)
    {
      for i := 0 to |arrivals|
        invariant old(machine.log) + Newcomers(observedUsb, arrivals) ==
                  machine.log + Newcomers(observedUsb, arrivals[i..])
      {
        assert arrivals[i..][1..] == arrivals[i + 1..];
        if arrivals[i] !in observedUsb {
          machine.Notify(UsbConnected(arrivals[i]));
        }
      }
      assert machine.log + [] == machine.log;
    }

    method ForgetUnplugged(scanned: map<string, UsbDevice>, order: seq<string>, fs: string -> ForgetFaults)
      returns (outcome: Outcome)
      requires Valid()
      modifies `pending, state, machine
      ensures (Now(), outcome) == ForgetAllGone(cfg, old(Now()), order, scanned, fs)
    {
      for i := 0 to |order|
        invariant ForgetAllGone(cfg, old(Now()), order, scanned, fs) ==
                  ForgetAllGone(cfg, Now(), order[i..], scanned, fs)
      {
        var key := order[i];
        assert order[i..][1..] == order[i + 1..];
        if key !in scanned && key in observedUsb {
          outcome := ForgetUsb(key, observedUsb[key], fs(key));
          if outcome.Failed? {
            return;
          }
        }
      }
      outcome := Done;
    }

    method ObservePciFunctions(devices: seq<PciRules.Routed>, order: seq<string>)
      requires forall a :: a in observedPci <==> a in order
      modifies `observedPci, state`pciVms, machine`log
      ensures Now() == var scanned := Addresses(devices);
        ObservePci(old(Now()), scanned, PciNews(old(observedPci), devices), PciGone(order, scanned))
    {
      var scanned := Addresses(devices);
      AnnouncePci(devices);
      ForgetAbsentPci(scanned, order);
      assert observedPci - scanned == set a | a in order && a !in scanned;
      observedPci := scanned;
    }

    method AnnouncePci(devices: seq<PciRules.Routed>)
      modifies machine`log
      ensures machine.log == old(machine.log) + PciNews(observedPci, devices)
    {
      for i := 0 to |devices|
        invariant machine.log == old(machine.log) + PciNews(observedPci, devices[..i])
      {
        assert devices[..i + 1][..i] == devices[..i];
        if devices[i].device.address !in observedPci {
          machine.Notify(PciConnected(devices[i].device.address));
        }
      }
      assert devices[..|devices|] == devices;
    }

    method ForgetAbsentPci(scanned: set<string>, order: seq<string>)
      modifies state`pciVms, machine`log
      ensures machine.log == old(machine.log) + PciGone(order, scanned)
      ensures state.pciVms == old(state.pciVms) - set a | a in order && a !in scanned
    {
      for i := 0 to |order|
        invariant machine.log == old(machine.log) + PciGone(order[..i], scanned)
        invariant state.pciVms == old(state.pciVms) - set a | a in order[..i] && a !in scanned
      {
        assert order[..i + 1] == order[..i] + [order[i]];
        assert order[..i + 1][..i] == order[..i];
        if order[i] !in scanned {
          machine.Notify(PciDisconnected(order[i]));
          state.pciVms := Without(state.pciVms, order[i]);
        }
      }
      assert order[..|order|] == order;
    }

    // ----- reconciling -----

    method ReconcileDevices(p: Pass, pciOrder: seq<string>) returns (ok: bool)
      requires Valid()
      requires forall a :: a in observedPci <==> a in pciOrder
      modifies this, state, machine
      ensures (Now(), ok) == Reconciled(cfg, old(Now()), p, pciOrder)
    {
      deferred := false;
      ApplyUsbGate(p.gate);
      var observed := ObserveDevices(p, pciOrder);
      if observed.Failed? {
        return false;
      }
      var pciOk := ResumeScannedPci(p);
      var usbOk := ResumeScannedUsb(p);
      var swept := DeauthorizeUnmatched(p.sweepEnabled, p.sweep);
      ok := pciOk && usbOk && swept;
    }

    method ObserveDevices(p: Pass, pciOrder: seq<string>) returns (outcome: Outcome)
      requires Valid()
      requires forall a :: a in observedPci <==> a in pciOrder
      modifies `pending, `observedUsb, `observedPci, state, machine
      ensures (Now(), outcome) == ObserveAll(cfg, old(Now()), p, pciOrder)
    {
      if p.observeFails {
        return Failed(ScanFailed);
      }
      var seen := ScanTable(p.usb);
      outcome := ObserveUsbDevices(seen, p.arrivals, p.order, p.forget);
      if outcome.Done? {
        ObservePciFunctions(p.pci, pciOrder);
      }
    }

    method ResumeScannedPci(p: Pass) returns (ok: bool)
      requires Valid()
      modifies this, state, machine
      ensures (Now(), ok) == PciPass(cfg, old(Now()), p)
    {
      if p.pciScanFails {
        return false;
      }
      var failures := ResumePciFunctions(p.groups, p.pci, None, p.pciFaults);
      ok := failures == [];
    }

    method ResumeScannedUsb(p: Pass) returns (ok: bool)
      requires Valid()
      modifies this, state, machine
      ensures (Now(), ok) == UsbPass(cfg, old(Now()), p)
    {
      if p.usbScanFails {
        return false;
      }
      var failures := ResumeUsbDevices(p.usb, None, p.attach);
      ok := failures == [];
    }

    // ----- the gate -----

    ghost function Settled(): Gate.Settled
      reads machine
    {
      Gate.Settled(machine.host.drivers, machine.gateLog)
    }

    /** Hubs and devices the host may use are the only ones the manager
        authorizes by itself. */
    method AuthorizeForHost(s: HostPolicy.HostScan) returns (ok: bool)
      modifies machine`host
      ensures ok <==> !(cfg.authorization && s.scanFails)
      ensures machine.host == old(machine.host).(authorized :=
                if cfg.authorization && ok then HostPolicy.GrantAll(old(machine.host).authorized, s.devices, s)
                else old(machine.host).authorized)
    {
      if !cfg.authorization {
        return true;
      }
      if s.scanFails {
        return false;
      }
      ghost var start := machine.host;
      for i := 0 to |s.devices|
        invariant machine.host == start.(authorized := HostPolicy.GrantAll(start.authorized, s.devices[..i], s))
      {
        assert s.devices[..i + 1][..i] == s.devices[..i];
        var d := s.devices[i];
        if (d.hub || s.hostAllowed(d)) && Get(machine.host.authorized, d.sysName) == Some(false) {
          var _ := machine.Authorize(d.sysName, true, d.sysName in s.fails);
        }
      }
      assert s.devices[..|s.devices|] == s.devices;
      ok := true;
    }

    method ConfigureDevices(names: seq<string>, p: Gate.Pass)
      requires p.enforced == cfg.authorization
      modifies machine`host, machine`gateLog
      ensures machine.host == old(machine.host).(drivers := machine.host.drivers)
      ensures Settled() == Gate.Configure(old(Settled()), old(machine.host).authorized, names, p)
    {
      ghost var start, bits := Settled(), machine.host.authorized;
      for i := 0 to |names|
        invariant machine.host == old(machine.host).(drivers := machine.host.drivers)
        invariant Settled() == Gate.Configure(start, bits, names[..i], p)
      {
        assert names[..i + 1][..i] == names[..i];
        var keptOut := cfg.authorization && Get(machine.host.authorized, names[i]) == Some(false);
        if !keptOut && names[i] !in machine.host.drivers {
          machine.Probe(names[i], p.kernel(names[i]));
        }
      }
      assert names[..|names|] == names;
    }

    method UsbRouting(p: Gate.Pass) returns (routed: set<string>)
      requires p.marked == Gate.MarkedIds(state.persistent.disconnected)
      modifies `usbRouting
      ensures routed == Gate.Routed(old(usbRouting), p, p.devices)
      ensures usbRouting == Gate.Seen(old(usbRouting), p, p.devices)
    {
      routed := {};
      var seen: map<string, bool> := map[];
      for i := 0 to |p.devices|
        invariant routed == Gate.Routed(usbRouting, p, p.devices[..i])
        invariant seen == Gate.Seen(usbRouting, p, p.devices[..i])
        modifies {}
      {
        var device := p.devices[i];
        Gate.RoutingStep(usbRouting, p, i);
        var id := PersistentId(device);
        var matched := p.verdict(device) || (id in usbRouting && usbRouting[id]);
        seen := seen[id := matched];
        if matched && id !in state.persistent.disconnected {
          routed := routed + {device.sysName};
        }
      }
      assert p.devices[..|p.devices|] == p.devices;
      usbRouting := seen;
    }

    method SettleInterfaces(isRouted: bool, interfaces: seq<string>, p: Gate.Pass)
      modifies machine`host, machine`gateLog
      ensures machine.host == old(machine.host).(drivers := machine.host.drivers)
      ensures Settled() == Gate.SettleDevice(old(Settled()), isRouted, interfaces, p)
    {
      ghost var start := Settled();
      for i := 0 to |interfaces|
        invariant machine.host == old(machine.host).(drivers := machine.host.drivers)
        invariant Settled() == Gate.SettleDevice(start, isRouted, interfaces[..i], p)
      {
        var name := interfaces[i];
        assert interfaces[..i + 1][..i] == interfaces[..i];
        var driver := Get(machine.host.drivers, name);
        if isRouted && driver.Some? && Gate.Releasable(driver.value) {
          machine.Release(name, name in p.releaseFails);
        } else if !isRouted && driver.None? {
          machine.Probe(name, p.kernel(name));
        }
      }
      assert interfaces[..|interfaces|] == interfaces;
    }

    method SettleDevices(routed: set<string>, names: seq<string>, p: Gate.Pass)
      modifies machine`host, machine`gateLog
      ensures machine.host == old(machine.host).(drivers := machine.host.drivers)
      ensures Settled() == Gate.SettleAll(old(Settled()), routed, names, p)
    {
      ghost var start := Settled();
      for i := 0 to |names|
        invariant machine.host == old(machine.host).(drivers := machine.host.drivers)
        invariant Settled() == Gate.SettleAll(start, routed, names[..i], p)
      {
        assert names[..i + 1][..i] == names[..i];
        if names[i] !in p.listFails {
          SettleInterfaces(names[i] in routed, UsbNames.Interfaces(p.listing, names[i]), p);
        }
      }
      assert names[..|names|] == names;
    }

    /** The routing decision and, unless the directory cannot be listed, the
        settling that follows it. */
    method RouteAndSettle(p: Gate.Pass)
      requires p.marked == Gate.MarkedIds(state.persistent.disconnected)
      modifies `usbRouting, machine`host, machine`gateLog
      ensures GateOf(Now()) == Gate.RouteAndSettle(old(GateOf(Now())), p)
      ensures Now() == WithGate(old(Now()), GateOf(Now()))
    {
      if p.scanFails {
        return;
      }
      var routed := UsbRouting(p);
      if !p.listingFails {
        SettleDevices(routed, UsbNames.DeviceNames(p.listing), p);
      }
    }

    method ApplyUsbGate(pass: Gate.Pass)
      modifies `usbRouting, machine`host, machine`gateLog
      ensures Now() == Gated(cfg, old(Now()), pass)
    {
      var p := pass.(enforced := cfg.authorization, marked := Gate.MarkedIds(state.persistent.disconnected));
      if p.active && p.closeFails {
        return;
      }
      var authorized := AuthorizeForHost(p.host);
      if !authorized || !p.active || p.beforeFails {
        return;
      }
      ConfigureDevices(UsbNames.DeviceNames(p.before), p);
      RouteAndSettle(p);
    }

    /** The names of the scanned devices that are on record as attached. */
    method UsbHeldByVms(scan: Option<seq<UsbDevice>>) returns (held: set<string>)
      ensures held == Gate.HeldByVms(state.usbVms, scan)
    {
      held := {};
      if scan.None? {
        return;
      }
      var devices := scan.value;
      for i := 0 to |devices|
        invariant held == Gate.HeldByVms(state.usbVms, Some(devices[..i]))
      {
        assert devices[..i + 1] == devices[..i] + [devices[i]];
        if devices[i].node.Some? && devices[i].node.value in state.usbVms {
          held := held + {devices[i].sysName};
        }
      }
      assert devices[..|devices|] == devices;
    }

    /** Hands the bus back when the manager stops, if the gate is closed and
        can be opened. */
    method OpenUsbGate(closed: bool, openFails: bool, scan: Option<seq<UsbDevice>>, pass: Gate.Pass)
      modifies machine`host, machine`gateLog
      ensures Now() == Reopened(cfg, old(Now()), closed, openFails, scan, pass)
    {
      if !pass.active || !closed {
        return;
      }
      var held := UsbHeldByVms(scan);
      if openFails || pass.listingFails {
        return;
      }
      var p := pass.(enforced := cfg.authorization);
      ProbeBack(UsbNames.DeviceNames(p.listing), held, p);
    }

    method ProbeBack(names: seq<string>, held: set<string>, p: Gate.Pass)
      requires p.enforced == cfg.authorization
      modifies machine`host, machine`gateLog
      ensures machine.host == old(machine.host).(drivers := machine.host.drivers)
      ensures Settled() == Gate.OpenGate(old(Settled()), old(machine.host).authorized, names, held, p)
    {
      ghost var start, bits := Settled(), machine.host.authorized;
      for i := 0 to |names|
        invariant machine.host == old(machine.host).(drivers := machine.host.drivers)
        invariant Settled() == Gate.OpenGate(start, bits, names[..i], held, p)
      {
        assert names[..i + 1][..i] == names[..i];
        var keptOut := cfg.authorization && Get(machine.host.authorized, names[i]) == Some(false);
        if names[i] !in held && !keptOut {
          if names[i] !in machine.host.drivers {
            machine.Probe(names[i], p.kernel(names[i]));
          }
          if names[i] !in p.listFails {
            SettleInterfaces(false, UsbNames.Interfaces(p.listing, names[i]), p);
          }
        }
      }
      assert names[..|names|] == names;
    }

    // ----- the sweep -----

    method DeauthorizeUnmatched(enabled: bool, s: HostPolicy.HostScan) returns (ok: bool)
      modifies machine`host
      ensures (Now(), ok) == HostPolicy.Swept(cfg, old(Now()), enabled, s)
    {
      if !cfg.authorization || !enabled {
        return true;
      }
      if s.scanFails {
        return false;
      }
      for i := 0 to |s.devices|
        invariant (Now(), true) == HostPolicy.SweepAll(old(Now()), s.devices[..i], s)
      {
        assert s.devices[..i + 1][..i] == s.devices[..i];
        var d := s.devices[i];
        var attached := d.node.Some? && d.node.value in state.usbVms;
        if !d.hub && !attached && !s.hostAllowed(d) && Get(machine.host.authorized, d.sysName) == Some(true) {
          ok := machine.Authorize(d.sysName, false, d.sysName in s.fails);
          if !ok {
            HostPolicy.SweepAllStops(old(Now()), s.devices, i + 1, s);
            return;
          }
        }
      }
      assert s.devices[..|s.devices|] == s.devices;
      ok := true;
    }

    method ScanTable(devices: seq<RoutedUsb>) returns (scanned: map<string, UsbDevice>)
      ensures scanned == ScanMap(devices)
    {
      scanned := map[];
      for i := 0 to |devices|
        invariant scanned == ScanMap(devices[..i])
      {
        assert devices[..i + 1][..i] == devices[..i];
        scanned := scanned[devices[i].device.sysName := devices[i].device];
      }
      assert devices[..|devices|] == devices;
    }
  }
}
