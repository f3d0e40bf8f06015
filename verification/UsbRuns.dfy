/**
 Runs: any sequence of manager operations, VM lifecycles and daemon restarts,
 each operation taken as one step, and the binding soundness they all keep.
 */
module UsbRuns {
  import opened Prelude
  import opened World
  import opened UsbSpec
  import opened Frames
  import opened Soundness
  import opened ReconcileSpec
  import Gate
  import HostPolicy
  import PciRules
  import PciSpec

  datatype Event =
    | Attach(device: UsbDevice, rule: UsbRule, requested: Option<string>, attachFaults: AttachFaults)
    | Detach(device: UsbDevice, permanent: bool, detachFaults: DetachFaults)
    | Suspend(devices: seq<RoutedUsb>, scope: Option<string>, suspendFaults: string -> DetachFaults)
    | Resume(devices: seq<RoutedUsb>, scope: Option<string>, resumeFaults: string -> AttachFaults)
    | Observe(scanned: map<string, UsbDevice>, arrivals: seq<string>, order: seq<string>,
              observeFaults: string -> ForgetFaults)
    | Reconciles(pass: Pass, pciOrder: seq<string>)
    | AttachPci(groups: PciRules.Groups, pci: PciRules.Routed, requestedVm: Option<string>,
                pciFaults: PciSpec.PciFaults)
    | ResumesPci(groups: PciRules.Groups, functions: seq<PciRules.Routed>, scope: Option<string>,
                 resumePciFaults: string -> PciSpec.PciFaults)
    | SuspendsPci(groups: PciRules.Groups, functions: seq<PciRules.Routed>, scope: Option<string>,
                  suspendPciFaults: string -> PciSpec.PciFaults)
    | DetachPci(groups: PciRules.Groups, pci: PciRules.Routed, permanent: bool, pciFaults: PciSpec.PciFaults)
    | VmStarts(socket: string, generation: nat)
    | VmStops(socket: string)
    | VmCrashes(socket: string)
    | VmClaims(name: string, taken: bool)
    | DaemonRestarts

  ghost function Next(cfg: Config, w: World, e: Event): World {
    match e
    case Attach(d, rule, requested, f) => AttachOne(cfg, w, d, rule, requested, f).0
    case Detach(d, permanent, f) => DetachOne(cfg, w, d, permanent, f).0
    case Suspend(devices, scope, fs) => SuspendUsb(cfg, w, devices, scope, fs).0
    case Resume(devices, scope, fs) => ResumeUsb(cfg, w, devices, scope, fs).0
    case Observe(scanned, arrivals, order, fs) => ObserveUsb(cfg, w, scanned, arrivals, order, fs).0
    case Reconciles(p, pciOrder) => Reconciled(cfg, w, p, pciOrder).0
    case AttachPci(groups, x, requested, f) => PciSpec.AttachOnePci(cfg, groups, w, x, requested, f).0
    case ResumesPci(groups, devices, scope, fs) => PciSpec.ResumePci(cfg, groups, w, devices, scope, fs).0
    case SuspendsPci(groups, devices, scope, fs) => PciSpec.SuspendPci(cfg, groups, w, devices, scope, fs).0
    case DetachPci(groups, x, permanent, f) => PciSpec.DetachOnePci(cfg, groups, w, x, permanent, f).0
    case VmStarts(socket, generation) => w.(guests := w.guests[socket := Live(generation, map[], {})])
    case VmStops(socket) => w.(guests := w.guests[socket := NoSocket])
    case VmCrashes(socket) =>
      var guest := GuestAt(w, socket);
      if guest.Live? then w.(guests := w.guests[socket := Stale(guest.generation)]) else w
    case VmClaims(name, taken) =>
      WithDrivers(w, if taken then w.host.drivers[name := Usbfs] else Without(w.host.drivers, name))
    case DaemonRestarts => Restarted(cfg, w)
  }

  /** A new socket's generation is on no other socket and in no record. */
  ghost predicate FreshGeneration(w: World, socket: string, generation: nat) {
    && (forall k :: k in w.guests && k != socket && !w.guests[k].NoSocket? ==> w.guests[k].generation != generation)
    && (forall s :: s in w.persistent.ports ==> w.persistent.ports[s].generation != generation)
  }

  /** Scanned devices have their own names, nodes and vid:pid pairs. */
  ghost predicate DistinctDevices(devices: seq<RoutedUsb>) {
    forall i, j :: 0 <= i < |devices| && 0 <= j < |devices| && i != j ==> Apparent(devices[i].device, devices[j].device)
  }

  ghost predicate Apparent(d: UsbDevice, e: UsbDevice) {
    d.sysName != e.sysName && (d.node.Some? ==> d.node != e.node) && !(d.vid == e.vid && d.pid == e.pid)
  }

  /** What the soundness run takes for granted of one step: saves succeed, no
      other current record has the device's vid:pid, VMs list a device under
      its own numbers, and generations are fresh. Everything else may fail. */
  ghost predicate Fair(cfg: Config, w: World, e: Event) {
    match e
    case Attach(d, _, _, f) => Identifiable(w, d) && HonestAttach(d, f) && AttachSaves(f)
    case Detach(d, _, f) => Identifiable(w, d) && DetachSaves(f)
    case Suspend(devices, _, fs) =>
      forall i :: 0 <= i < |devices| ==>
                    Identifiable(w, devices[i].device) && DetachSaves(fs(devices[i].device.sysName))
    case Resume(devices, _, fs) => FairUsb(w, devices, fs)
    case Observe(_, _, _, fs) => forall k :: !fs(k).saveFails
    case Reconciles(p, pciOrder) => FairPass(cfg, w, p, pciOrder)
    case AttachPci(_, _, _, f) => !f.saveFails
    case ResumesPci(_, _, _, fs) => forall a :: !fs(a).saveFails
    case SuspendsPci(_, _, _, fs) => forall a :: !fs(a).saveFails
    case DetachPci(_, _, _, f) => !f.saveFails
    case VmStarts(socket, generation) => FreshGeneration(w, socket, generation)
    case VmStops(_) => true
    case VmCrashes(_) => true
    case VmClaims(_, _) => true
    case DaemonRestarts => true
  }

  ghost function Run(cfg: Config, w: World, events: seq<Event>): World {
    if events == [] then w else Next(cfg, Run(cfg, w, events[..|events| - 1]), events[|events| - 1])
  }

  ghost predicate FairRun(cfg: Config, w: World, events: seq<Event>) {
    forall i :: 0 <= i < |events| ==> Fair(cfg, Run(cfg, w, events[..i]), events[i])
  }

  // ----- one step -----

  lemma OtherStaysApart(w: World, w': World, d: UsbDevice, e: UsbDevice)
    requires TouchesOnly(w, w', d) && NoTwin(w.guests, w.persistent.ports, e) && Apparent(d, e)
    ensures NoTwin(w'.guests, w'.persistent.ports, e)
  {
    var bindings, bindings' := w.persistent.ports, w'.persistent.ports;
    forall s | s in bindings' && s != e.sysName && SameIdent(bindings'[s], e)
      ensures !Current(w'.guests, bindings'[s]) {
      SameVmsKeepCurrent(w.guests, w'.guests, bindings'[s]);
      if s != d.sysName {
        ElsewhereAt(bindings, bindings', d.sysName, s);
      }
    }
  }

  lemma OtherStaysIdentifiable(w: World, w': World, d: UsbDevice, e: UsbDevice)
    requires TouchesOnly(w, w', d) && Identifiable(w, e) && Apparent(d, e)
    ensures Identifiable(w', e)
  {
    ElsewhereAt(w.persistent.ports, w'.persistent.ports, d.sysName, e.sysName);
    if e.node.Some? && d.node.Some? {
      ElsewhereAt(w.usbVms, w'.usbVms, d.node.value, e.node.value);
    }
    if NoTwin(w.guests, w.persistent.ports, e) {
      OtherStaysApart(w, w', d, e);
    }
  }

  /** Records and holders only get fewer, and the VMs stay. */
  ghost predicate Shrinks(w: World, w': World) {
    && SameVms(w.guests, w'.guests) && w'.usbVms.Keys <= w.usbVms.Keys
    && (forall s :: s in w'.persistent.ports ==>
          s in w.persistent.ports && w'.persistent.ports[s] == w.persistent.ports[s])
  }

  lemma ShrinksTransitive(w: World, w1: World, w2: World)
    requires Shrinks(w, w1) && Shrinks(w1, w2)
    ensures Shrinks(w, w2)
  {
  }

  lemma FewerTwins(w: World, w': World, d: UsbDevice)
    requires Identifiable(w, d) && Shrinks(w, w')
    ensures Identifiable(w', d)
  {
    var bindings' := w'.persistent.ports;
    forall s | s in bindings' ensures Current(w'.guests, bindings'[s]) == Current(w.guests, bindings'[s]) {
      SameVmsKeepCurrent(w.guests, w'.guests, bindings'[s]);
    }
  }

  lemma SuspendOneShrinks(cfg: Config, w: World, x: RoutedUsb, scope: Option<string>, f: DetachFaults)
    ensures Shrinks(w, SuspendOne(cfg, w, x, scope, f).0)
  {
    DetachForgets(cfg, w, x.device, false, f);
    DetachFrame(cfg, w, x.device, false, f);
  }

  ghost predicate Forgets(w: World, w': World, d: UsbDevice) {
    && w'.usbVms.Keys <= w.usbVms.Keys
    && (w'.persistent.ports == w.persistent.ports || w'.persistent.ports == Without(w.persistent.ports, d.sysName))
  }

  lemma FinishForgets(cfg: Config, w: World, d: UsbDevice, node: string, permanent: bool, f: DetachFaults)
    ensures Forgets(w, FinishDetach(cfg, w, d, node, permanent, f).0, d)
  {
    FinishDetachShape(cfg, w, d, node, permanent, f);
  }

  lemma DetachForgets(cfg: Config, w: World, d: UsbDevice, permanent: bool, f: DetachFaults)
    ensures Forgets(w, DetachOne(cfg, w, d, permanent, f).0, d)
  {
    if d.node.Some? {
      var holder := Holder(w, d, d.node.value);
      if holder.None? {
        FinishForgets(cfg, w, d, d.node.value, permanent, f);
      } else if holder.value in cfg.sockets {
        var w1 := ReleaseFromVm(w, cfg.sockets[holder.value], Get(w.persistent.ports, d.sysName), d, f).0;
        ReleaseFrame(w, cfg.sockets[holder.value], Get(w.persistent.ports, d.sysName), d, f);
        FinishForgets(cfg, Log(w1, UsbDetached(d.node.value, holder.value)), d, d.node.value, permanent, f);
      }
    }
  }

  lemma {:induction false} SuspendIsSound(cfg: Config, w: World, devices: seq<RoutedUsb>, scope: Option<string>,
                                          fs: string -> DetachFaults)
    requires Inv(cfg, w)
    requires forall i :: 0 <= i < |devices| ==>
                           Identifiable(w, devices[i].device) && DetachSaves(fs(devices[i].device.sysName))
    ensures var w' := SuspendUsb(cfg, w, devices, scope, fs).0; Inv(cfg, w') && Shrinks(w, w')
  {
    if devices != [] {
      var front := devices[..|devices| - 1];
      SuspendIsSound(cfg, w, front, scope, fs);
      var w1, x := SuspendUsb(cfg, w, front, scope, fs).0, devices[|devices| - 1];
      var f := fs(x.device.sysName);
      FewerTwins(w, w1, x.device);
      DetachIsSound(cfg, w1, x.device, false, f);
      SuspendOneShrinks(cfg, w1, x, scope, f);
      ShrinksTransitive(w, w1, SuspendOne(cfg, w1, x, scope, f).0);
    }
  }

  lemma {:induction false} ResumeIsSound(cfg: Config, w: World, devices: seq<RoutedUsb>, scope: Option<string>,
                                         fs: string -> AttachFaults, all: seq<RoutedUsb>)
    requires Inv(cfg, w) && devices <= all && FairUsb(w, all, fs)
    ensures Inv(cfg, ResumeUsb(cfg, w, devices, scope, fs).0)
    ensures forall i :: |devices| <= i < |all| ==> Identifiable(ResumeUsb(cfg, w, devices, scope, fs).0, all[i].device)
  {
    if devices != [] {
      var n := |devices| - 1;
      ResumeIsSound(cfg, w, devices[..n], scope, fs, all);
      var w1 := ResumeUsb(cfg, w, devices[..n], scope, fs).0;
      assert devices[n] == all[n];
      ResumeOneIsSound(cfg, w1, all[n], scope, fs(all[n].device.sysName));
      ResumeOneLeavesRest(cfg, w1, all, n, scope, fs(all[n].device.sysName));
    }
  }

  lemma ResumeOneIsSound(cfg: Config, w: World, x: RoutedUsb, scope: Option<string>, f: AttachFaults)
    requires Inv(cfg, w) && Identifiable(w, x.device) && HonestAttach(x.device, f) && AttachSaves(f)
    ensures Inv(cfg, ResumeOne(cfg, w, x, scope, f).0)
  {
    AttachIsSound(cfg, w, x.device, x.rule, ResumeTarget(w, x), f);
  }

  lemma ResumeOneLeavesRest(cfg: Config, w: World, all: seq<RoutedUsb>, n: nat, scope: Option<string>, f: AttachFaults)
    requires DistinctDevices(all) && n < |all|
    requires forall i :: n <= i < |all| ==> Identifiable(w, all[i].device)
    ensures forall i :: n < i < |all| ==> Identifiable(ResumeOne(cfg, w, all[n], scope, f).0, all[i].device)
  {
    var x := all[n];
    var w1 := AttachOne(cfg, w, x.device, x.rule, ResumeTarget(w, x), f).0;
    AttachFrame(cfg, w, x.device, x.rule, ResumeTarget(w, x), f);
    forall i | n < i < |all| ensures Identifiable(w1, all[i].device) {
      OtherStaysIdentifiable(w, w1, x.device, all[i].device);
    }
  }

  lemma ForgetGoneIsSound(cfg: Config, w: World, key: string, d: UsbDevice, f: ForgetFaults)
    requires Inv(cfg, w) && !f.saveFails
    ensures Inv(cfg, ForgetGone(cfg, w, key, d, f).0)
  {
    var bindings := w.persistent.ports;
    if key in bindings && bindings[key].vm in cfg.sockets {
      DropPortIsSound(cfg, w, key, f);
      DropPortFrame(cfg, w, bindings[key], f);
      FinishForgetShape(cfg, DropPort(cfg, w, bindings[key], f).0, key, d, f);
    } else {
      DropBinding(cfg, w.guests, bindings, key);
      FinishForgetShape(cfg, w, key, d, f);
    }
  }

  lemma DropPortIsSound(cfg: Config, w: World, key: string, f: ForgetFaults)
    requires Inv(cfg, w) && key in w.persistent.ports && w.persistent.ports[key].vm in cfg.sockets
    ensures var guests := DropPort(cfg, w, w.persistent.ports[key], f).0.guests;
      Sound(cfg, guests, Without(w.persistent.ports, key)) && DistinctGenerations(guests)
  {
    var bindings := w.persistent.ports;
    var socket := cfg.sockets[bindings[key].vm];
    DropBinding(cfg, w.guests, bindings, key);
    if GuestAt(w, socket).Live? && bindings[key].generation == GuestAt(w, socket).generation {
      RecordedIsUnclaimed(cfg, w.guests, bindings, key, socket);
      RemovePort(cfg, w.guests, bindings, key, socket, bindings[key].port);
    }
  }

  lemma {:induction false} ForgetAllIsSound(cfg: Config, w: World, order: seq<string>, scanned: map<string, UsbDevice>,
                                            fs: string -> ForgetFaults)
    requires Inv(cfg, w) && forall k :: !fs(k).saveFails
    ensures Inv(cfg, ForgetAllGone(cfg, w, order, scanned, fs).0)
    decreases |order|
  {
    if order != [] {
      var key := order[0];
      if key in scanned || key !in w.observedUsb {
        ForgetAllIsSound(cfg, w, order[1..], scanned, fs);
      } else {
        ForgetGoneIsSound(cfg, w, key, w.observedUsb[key], fs(key));
        var (w1, outcome) := ForgetGone(cfg, w, key, w.observedUsb[key], fs(key));
        if outcome.Done? {
          ForgetAllIsSound(cfg, w1, order[1..], scanned, fs);
        }
      }
    }
  }

  // ----- VMs -----

  lemma ReplaceGuest(cfg: Config, w: World, socket: string, guest: Guest)
    requires Inv(cfg, w)
    requires !guest.NoSocket? ==>
               || (guest.Live? && FreshGeneration(w, socket, guest.generation))
               || (guest.Stale? && !GuestAt(w, socket).NoSocket? && GuestAt(w, socket).generation == guest.generation)
    ensures Inv(cfg, w.(guests := w.guests[socket := guest]))
  {
    var guests, bindings := w.guests[socket := guest], w.persistent.ports;
    forall s | s in bindings ensures Truthful(cfg, guests, bindings[s]) {
      assert Truthful(cfg, w.guests, bindings[s]);
      forall k | k in guests && SameGeneration(guests[k], bindings[s])
        ensures bindings[s].vm in cfg.sockets && cfg.sockets[bindings[s].vm] == k && Held(guests[k], bindings[s])
      {
        assert k in w.guests && SameGeneration(w.guests[k], bindings[s]);
      }
    }
    forall s, s' | s in bindings && s' in bindings && s != s' ensures Apart(guests, bindings[s], bindings[s']) {
      assert Apart(w.guests, bindings[s], bindings[s']);
      forall k | k in guests && SameGeneration(guests[k], bindings[s]) && SameGeneration(guests[k], bindings[s'])
        ensures bindings[s].port != bindings[s'].port
      {
        assert SameGeneration(w.guests[k], bindings[s]) && SameGeneration(w.guests[k], bindings[s']);
      }
    }
  }

  // ----- PCI operations leave USB records alone -----

  /** The same USB ports in the same VMs. */
  ghost predicate SameUsbPorts(guests: Guests, guests': Guests) {
    && guests.Keys == guests'.Keys
    && forall k :: k in guests ==>
         match guests[k]
         case Live(g, ports, _) => guests'[k].Live? && guests'[k].generation == g && guests'[k].ports == ports
         case _ => guests'[k] == guests[k]
  }

  lemma SameUsbPortsKeepSound(cfg: Config, guests: Guests, guests': Guests, bindings: Bindings)
    requires Sound(cfg, guests, bindings) && DistinctGenerations(guests) && SameUsbPorts(guests, guests')
    ensures Sound(cfg, guests', bindings) && DistinctGenerations(guests')
  {
    forall s | s in bindings ensures Truthful(cfg, guests', bindings[s]) {
      assert Truthful(cfg, guests, bindings[s]);
      forall k | k in guests' && SameGeneration(guests'[k], bindings[s])
        ensures bindings[s].vm in cfg.sockets && cfg.sockets[bindings[s].vm] == k && Held(guests'[k], bindings[s])
      {
        assert SameGeneration(guests[k], bindings[s]);
      }
    }
    forall s, s' | s in bindings && s' in bindings && s != s' ensures Apart(guests', bindings[s], bindings[s']) {
      assert Apart(guests, bindings[s], bindings[s']);
      forall k | k in guests' && SameGeneration(guests'[k], bindings[s]) && SameGeneration(guests'[k], bindings[s'])
        ensures bindings[s].port != bindings[s'].port
      {
        assert SameGeneration(guests[k], bindings[s]) && SameGeneration(guests[k], bindings[s']);
      }
    }
  }

  lemma {:induction false} AddAllKeepsUsb(w: World, socket: string, addresses: seq<string>, live: set<string>,
                                          f: PciSpec.PciFaults)
    ensures var w1 := PciSpec.AddAll(w, socket, addresses, live, f).0;
      SameUsbPorts(w.guests, w1.guests) && w1 == w.(guests := w1.guests, log := w1.log)
  {
    if addresses != [] {
      var n := |addresses| - 1;
      AddAllKeepsUsb(w, socket, addresses[..n], live, f);
      AddOneKeepsUsb(PciSpec.AddAll(w, socket, addresses[..n], live, f).0, socket, addresses[n], f.adds(addresses[n]));
    }
  }

  lemma AddOneKeepsUsb(w: World, socket: string, address: string, outcome: PciSpec.VfioOutcome)
    ensures var w1 := PciSpec.AddOne(w, socket, address, outcome).0;
      SameUsbPorts(w.guests, w1.guests) && w1 == w.(guests := w1.guests, log := w1.log)
  {
    var guest := GuestAt(w, socket);
    if guest.Live? {
      VfioKeepsUsb(Log(w, VfioAddCommand(socket, address)), socket, guest.vfio + {address});
    }
  }

  lemma VfioKeepsUsb(w: World, socket: string, vfio: set<string>)
    requires GuestAt(w, socket).Live?
    ensures var w1 := PciSpec.WithVfio(w, socket, vfio);
      SameUsbPorts(w.guests, w1.guests) && w1 == w.(guests := w1.guests)
  {
  }

  lemma RemoveOneKeepsUsb(w: World, socket: string, address: string, outcome: PciSpec.VfioOutcome)
    ensures var w1 := PciSpec.RemoveOne(w, socket, address, outcome).0;
      SameUsbPorts(w.guests, w1.guests) && w1 == w.(guests := w1.guests, log := w1.log)
  {
    var guest := GuestAt(w, socket);
    if guest.Live? {
      VfioKeepsUsb(Log(w, VfioRemoveCommand(socket, address)), socket, guest.vfio - {address});
    }
  }

  lemma {:induction false} RemoveAllKeepsUsb(w: World, socket: string, addresses: seq<string>,
                                             outcomes: string -> PciSpec.VfioOutcome)
    ensures var w1 := PciSpec.RemoveAll(w, socket, addresses, outcomes).0;
      SameUsbPorts(w.guests, w1.guests) && w1 == w.(guests := w1.guests, log := w1.log)
  {
    if addresses != [] {
      var n := |addresses| - 1;
      RemoveAllKeepsUsb(w, socket, addresses[..n], outcomes);
      RemoveOneKeepsUsb(PciSpec.RemoveAll(w, socket, addresses[..n], outcomes).0, socket, addresses[n],
                        outcomes(addresses[n]));
    }
  }

  /** A PCI operation changes no USB port, record or memory; it may change one mark. */
  ghost predicate PciOnly(cfg: Config, w: World, w': World, address: string) {
    && SameUsbPorts(w.guests, w'.guests)
    && w'.usbVms == w.usbVms && w'.pending == w.pending && w'.observedUsb == w.observedUsb
    && w'.usbRouting == w.usbRouting && w'.gateLog == w.gateLog && w'.host.drivers == w.host.drivers
    && w'.persistent == w.persistent.(disconnected := w'.persistent.disconnected)
    && OtherMarks(w'.persistent.disconnected, PciPersistentId(address)) ==
       OtherMarks(w.persistent.disconnected, PciPersistentId(address))
    && (w'.disk == w'.persistent || w'.disk == w.disk)
  }

  /** Nothing persistent changed, or it was saved. */
  ghost predicate PciSaved(cfg: Config, w: World, w': World) {
    w'.disk == w'.persistent || (w'.disk == w.disk && w'.persistent == w.persistent) || !cfg.persistency
  }

  /** Nothing on the USB side and nothing persistent has changed yet. */
  ghost predicate UsbSideSame(w: World, w': World) {
    && SameUsbPorts(w.guests, w'.guests)
    && w'.usbVms == w.usbVms && w'.pending == w.pending && w'.observedUsb == w.observedUsb
    && w'.usbRouting == w.usbRouting && w'.gateLog == w.gateLog && w'.host.drivers == w.host.drivers
    && w'.persistent == w.persistent && w'.disk == w.disk
  }

  lemma MarkIsPciOnly(cfg: Config, w: World, mid: World, address: string, value: bool, fails: bool)
    requires UsbSideSame(w, mid)
    ensures PciOnly(cfg, w, PciSpec.MarkPci(cfg, mid, address, value, fails), address)
    ensures !fails ==> PciSaved(cfg, w, PciSpec.MarkPci(cfg, mid, address, value, fails))
  {
    MarksFrame(w.persistent.disconnected, PciPersistentId(address), value);
  }

  lemma BindAndAddFrame(w: World, quarantine: seq<string>, attach: seq<string>, socket: string, live: set<string>,
                        f: PciSpec.PciFaults)
    ensures UsbSideSame(w, PciSpec.BindAndAdd(w, quarantine, attach, socket, live, f).0)
  {
    PciSpec.BindAllBinds(w, quarantine, f.bindFails);
    AddAllKeepsUsb(PciSpec.BindAll(w, quarantine, f.bindFails).0, socket, attach, live, f);
  }

  lemma FinishAttachPciFrame(cfg: Config, w: World, mid: World, address: string, vm: string, attach: seq<string>,
                             changed: bool, f: PciSpec.PciFaults)
    requires UsbSideSame(w, mid)
    ensures PciOnly(cfg, w, PciSpec.FinishAttachPci(cfg, mid, address, vm, attach, changed, f).0, address)
    ensures !f.saveFails ==> PciSaved(cfg, w, PciSpec.FinishAttachPci(cfg, mid, address, vm, attach, changed, f).0)
  {
    MarkIsPciOnly(cfg, w, mid.(pciVms := PciSpec.RecordAll(mid.pciVms, attach, vm)), address, false, f.saveFails);
  }

  lemma AttachPciFrame(cfg: Config, groups: PciRules.Groups, w: World, x: PciRules.Routed, requested: Option<string>,
                       f: PciSpec.PciFaults)
    ensures PciOnly(cfg, w, PciSpec.AttachOnePci(cfg, groups, w, x, requested, f).0, x.device.address)
    ensures !f.saveFails ==> PciSaved(cfg, w, PciSpec.AttachOnePci(cfg, groups, w, x, requested, f).0)
  {
    var address, vm := x.device.address, x.rule.targetVm;
    if vm in cfg.sockets && groups(address).Ok? && GuestAt(w, cfg.sockets[vm]).Live? {
      var quarantine := PciSpec.Quarantine(groups(address).value, address);
      var attach := PciSpec.Passthrough(x.rule, quarantine, address);
      var socket, live := cfg.sockets[vm], GuestAt(w, cfg.sockets[vm]).vfio;
      BindAndAddFrame(w, quarantine, attach, socket, live, f);
      var added := PciSpec.BindAndAdd(w, quarantine, attach, socket, live, f).0;
      var changed := PciSpec.AttachPciEnds(cfg, groups, w, x, requested, f);
      FinishAttachPciFrame(cfg, w, added, address, vm, attach, changed, f);
      UsbSideIsPciOnly(cfg, w, w, address);
      UsbSideIsPciOnly(cfg, w, added, address);
    }
  }

  lemma UsbSideIsPciOnly(cfg: Config, w: World, mid: World, address: string)
    requires UsbSideSame(w, mid)
    ensures PciOnly(cfg, w, mid, address) && PciSaved(cfg, w, mid)
  {
  }

  lemma DetachPciFrame(cfg: Config, groups: PciRules.Groups, w: World, x: PciRules.Routed, permanent: bool,
                       f: PciSpec.PciFaults)
    ensures PciOnly(cfg, w, PciSpec.DetachOnePci(cfg, groups, w, x, permanent, f).0, x.device.address)
    ensures !f.saveFails ==> PciSaved(cfg, w, PciSpec.DetachOnePci(cfg, groups, w, x, permanent, f).0)
  {
    var address := x.device.address;
    var vm := if address in w.pciVms then w.pciVms[address] else x.rule.targetVm;
    PciSpec.DetachPciEnds(cfg, groups, w, x, permanent, f);
    UsbSideIsPciOnly(cfg, w, w, address);
    if vm in cfg.sockets && groups(address).Ok? {
      var detach := if x.rule.iommuAddAll then PciSpec.Quarantine(groups(address).value, address) else [address];
      var removed := PciSpec.Removed(w, cfg.sockets[vm], detach, f.removes).0;
      RemovedFrame(w, cfg.sockets[vm], detach, f.removes);
      FinishDetachPciFrame(cfg, w, removed, address, vm, detach, permanent, f);
      UsbSideIsPciOnly(cfg, w, removed, address);
    }
  }

  lemma RemovedFrame(w: World, socket: string, detach: seq<string>, outcomes: string -> PciSpec.VfioOutcome)
    ensures UsbSideSame(w, PciSpec.Removed(w, socket, detach, outcomes).0)
  {
    RemoveAllKeepsUsb(w, socket, detach, outcomes);
  }

  lemma FinishDetachPciFrame(cfg: Config, w: World, mid: World, address: string, vm: string, detach: seq<string>,
                             permanent: bool, f: PciSpec.PciFaults)
    requires UsbSideSame(w, mid)
    ensures PciOnly(cfg, w, PciSpec.FinishDetachPci(cfg, mid, address, vm, detach, permanent, f).0, address)
    ensures !f.saveFails ==> PciSaved(cfg, w, PciSpec.FinishDetachPci(cfg, mid, address, vm, detach, permanent, f).0)
  {
    var forgotten := Log(mid.(pciVms := PciSpec.ForgetAll(mid.pciVms, detach)), PciDetached(address, vm));
    MarkIsPciOnly(cfg, w, forgotten, address, permanent, f.saveFails);
  }

  // ----- reconciliations -----

  /** The same records, holders and observed devices, the same USB ports, and
      nothing done by the gate or to a USB driver. */
  ghost predicate SameBindings(w: World, w': World) {
    && w'.persistent.ports == w.persistent.ports && w'.usbVms == w.usbVms && w'.observedUsb == w.observedUsb
    && w'.usbRouting == w.usbRouting && w'.gateLog == w.gateLog && w'.host.drivers == w.host.drivers
    && SameUsbPorts(w.guests, w'.guests)
  }

  lemma SameBindingsTransitive(w: World, w1: World, w2: World)
    requires SameBindings(w, w1) && SameBindings(w1, w2)
    ensures SameBindings(w, w2)
  {
  }

  lemma {:induction false} ResumePciKeepsBindings(cfg: Config, groups: PciRules.Groups, w: World,
                                                  devices: seq<PciRules.Routed>,
                                                  scope: Option<string>, fs: string -> PciSpec.PciFaults)
    ensures SameBindings(w, PciSpec.ResumePci(cfg, groups, w, devices, scope, fs).0)
  {
    if devices != [] {
      var n := |devices| - 1;
      ResumePciKeepsBindings(cfg, groups, w, devices[..n], scope, fs);
      var w1, x := PciSpec.ResumePci(cfg, groups, w, devices[..n], scope, fs).0, devices[n];
      ResumeOnePciKeepsBindings(cfg, groups, w1, x, scope, fs(x.device.address));
      SameBindingsTransitive(w, w1, PciSpec.ResumeOnePci(cfg, groups, w1, x, scope, fs(x.device.address)).0);
    }
  }

  lemma ResumeOnePciKeepsBindings(cfg: Config, groups: PciRules.Groups, w: World, x: PciRules.Routed,
                                  scope: Option<string>, f: PciSpec.PciFaults)
    ensures var w' := PciSpec.ResumeOnePci(cfg, groups, w, x, scope, f).0;
      SameBindings(w, w') && (Inv(cfg, w) && !f.saveFails ==> Inv(cfg, w'))
  {
    var w' := PciSpec.AttachOnePci(cfg, groups, w, x, Some(x.rule.targetVm), f).0;
    AttachPciFrame(cfg, groups, w, x, Some(x.rule.targetVm), f);
    PciKeepsBindings(cfg, w, w', x.device.address, !f.saveFails);
    PciKeepsBindings(cfg, w, w'.(deferred := true), x.device.address, !f.saveFails);
    assert SameBindings(w, w);
  }

  lemma PciKeepsBindings(cfg: Config, w: World, w': World, address: string, saved: bool)
    requires PciOnly(cfg, w, w', address) && (saved ==> PciSaved(cfg, w, w'))
    ensures SameBindings(w, w') && (Inv(cfg, w) && saved ==> Inv(cfg, w'))
  {
    if Inv(cfg, w) {
      SameUsbPortsKeepSound(cfg, w.guests, w'.guests, w.persistent.ports);
    }
  }

  lemma AttachPciKeepsBindings(cfg: Config, groups: PciRules.Groups, w: World, x: PciRules.Routed,
                               requested: Option<string>, f: PciSpec.PciFaults)
    ensures SameBindings(w, PciSpec.AttachOnePci(cfg, groups, w, x, requested, f).0)
  {
    AttachPciFrame(cfg, groups, w, x, requested, f);
    PciKeepsBindings(cfg, w, PciSpec.AttachOnePci(cfg, groups, w, x, requested, f).0, x.device.address, false);
  }

  lemma DetachPciKeepsBindings(cfg: Config, groups: PciRules.Groups, w: World, x: PciRules.Routed, permanent: bool,
                               f: PciSpec.PciFaults)
    ensures SameBindings(w, PciSpec.DetachOnePci(cfg, groups, w, x, permanent, f).0)
  {
    DetachPciFrame(cfg, groups, w, x, permanent, f);
    PciKeepsBindings(cfg, w, PciSpec.DetachOnePci(cfg, groups, w, x, permanent, f).0, x.device.address, false);
  }

  lemma SuspendOnePciKeepsBindings(cfg: Config, groups: PciRules.Groups, w: World, x: PciRules.Routed,
                                   scope: Option<string>, f: PciSpec.PciFaults)
    ensures var w' := PciSpec.SuspendOnePci(cfg, groups, w, x, scope, f).0;
      SameBindings(w, w') && (Inv(cfg, w) && !f.saveFails ==> Inv(cfg, w'))
  {
    DetachPciFrame(cfg, groups, w, x, false, f);
    PciKeepsBindings(cfg, w, PciSpec.DetachOnePci(cfg, groups, w, x, false, f).0, x.device.address, !f.saveFails);
    assert SameBindings(w, w);
  }

  lemma {:induction false} SuspendPciKeepsBindings(cfg: Config, groups: PciRules.Groups, w: World,
                                                   devices: seq<PciRules.Routed>, scope: Option<string>,
                                                   fs: string -> PciSpec.PciFaults)
    ensures SameBindings(w, PciSpec.SuspendPci(cfg, groups, w, devices, scope, fs).0)
  {
    if devices != [] {
      var n := |devices| - 1;
      SuspendPciKeepsBindings(cfg, groups, w, devices[..n], scope, fs);
      var w1, x := PciSpec.SuspendPci(cfg, groups, w, devices[..n], scope, fs).0, devices[n];
      SuspendOnePciKeepsBindings(cfg, groups, w1, x, scope, fs(x.device.address));
      SameBindingsTransitive(w, w1, PciSpec.SuspendOnePci(cfg, groups, w1, x, scope, fs(x.device.address)).0);
    }
  }

  lemma {:induction false} SuspendPciKeepsInv(cfg: Config, groups: PciRules.Groups, w: World,
                                              devices: seq<PciRules.Routed>, scope: Option<string>,
                                              fs: string -> PciSpec.PciFaults)
    requires Inv(cfg, w) && forall a :: !fs(a).saveFails
    ensures Inv(cfg, PciSpec.SuspendPci(cfg, groups, w, devices, scope, fs).0)
  {
    if devices != [] {
      var n := |devices| - 1;
      SuspendPciKeepsInv(cfg, groups, w, devices[..n], scope, fs);
      var w1, x := PciSpec.SuspendPci(cfg, groups, w, devices[..n], scope, fs).0, devices[n];
      SuspendOnePciKeepsBindings(cfg, groups, w1, x, scope, fs(x.device.address));
    }
  }

  lemma {:induction false} ResumePciKeepsInv(cfg: Config, groups: PciRules.Groups, w: World,
                                             devices: seq<PciRules.Routed>,
                                             scope: Option<string>, fs: string -> PciSpec.PciFaults)
    requires Inv(cfg, w) && forall a :: !fs(a).saveFails
    ensures Inv(cfg, PciSpec.ResumePci(cfg, groups, w, devices, scope, fs).0)
  {
    if devices != [] {
      var n := |devices| - 1;
      ResumePciKeepsInv(cfg, groups, w, devices[..n], scope, fs);
      var w1, x := PciSpec.ResumePci(cfg, groups, w, devices[..n], scope, fs).0, devices[n];
      ResumeOnePciKeepsBindings(cfg, groups, w1, x, scope, fs(x.device.address));
    }
  }

  /** Only drivers, bits, the gate's memory and its log differ. */
  ghost predicate GateOnly(w: World, w': World) {
    w' == w.(usbRouting := w'.usbRouting, gateLog := w'.gateLog,
             host := w.host.(drivers := w'.host.drivers, authorized := w'.host.authorized))
  }

  lemma GatedIsGateOnly(cfg: Config, w: World, p: Gate.Pass)
    ensures GateOnly(w, Gated(cfg, w, p))
  {
  }

  lemma SweptIsGateOnly(cfg: Config, w: World, enabled: bool, s: HostPolicy.HostScan)
    ensures GateOnly(w, HostPolicy.Swept(cfg, w, enabled, s).0)
  {
    HostPolicy.SweptDenies(cfg, w, enabled, s);
  }

  ghost predicate FairUsb(w: World, devices: seq<RoutedUsb>, fs: string -> AttachFaults) {
    && DistinctDevices(devices)
    && forall i :: 0 <= i < |devices| ==>
         && Identifiable(w, devices[i].device)
         && HonestAttach(devices[i].device, fs(devices[i].device.sysName))
         && AttachSaves(fs(devices[i].device.sysName))
  }

  ghost predicate PassSaves(p: Pass) {
    forall k :: !p.forget(k).saveFails && !p.pciFaults(k).saveFails
  }

  /** A pass that gets to its resumes finds the devices told apart by the
      records the observation has left. */
  ghost predicate FairPass(cfg: Config, w: World, p: Pass, pciOrder: seq<string>) {
    && PassSaves(p)
    && (Resumes(cfg, w, p, pciOrder) ==> FairUsb(Stages(cfg, w, p, pciOrder).0, p.usb, p.attach))
  }

  lemma ObserveIsSound(cfg: Config, w: World, p: Pass, pciOrder: seq<string>)
    requires Inv(cfg, w) && PassSaves(p)
    ensures Inv(cfg, ObserveAll(cfg, w, p, pciOrder).0)
  {
    ForgetAllIsSound(cfg, w.(log := w.log + Newcomers(w.observedUsb, p.arrivals)), p.order, ScanMap(p.usb), p.forget);
  }

  lemma PassesAreSound(cfg: Config, w: World, p: Pass)
    requires Inv(cfg, w) && PassSaves(p) && (!p.usbScanFails ==> FairUsb(w, p.usb, p.attach))
    ensures Inv(cfg, UsbPass(cfg, PciPass(cfg, w, p).0, p).0)
  {
    var w1 := PciPass(cfg, w, p).0;
    if !p.pciScanFails {
      ResumePciKeepsInv(cfg, p.groups, w, p.pci, None, p.pciFaults);
      ResumePciKeepsBindings(cfg, p.groups, w, p.pci, None, p.pciFaults);
    }
    if !p.usbScanFails {
      assert SameBindings(w, w1);
      PciKeepsFair(w, w1, p.usb, p.attach);
      ResumeIsSound(cfg, w1, p.usb, None, p.attach, p.usb);
    }
  }

  lemma PciKeepsFair(w: World, w': World, devices: seq<RoutedUsb>, fs: string -> AttachFaults)
    requires FairUsb(w, devices, fs)
    requires SameBindings(w, w')
    ensures FairUsb(w', devices, fs)
  {
    forall i | 0 <= i < |devices| ensures Identifiable(w', devices[i].device) {
      PciKeepsTwins(w, w', devices[i].device);
    }
  }

  lemma PciKeepsTwins(w: World, w': World, d: UsbDevice)
    requires SameBindings(w, w')
    ensures Identifiable(w, d) ==> Identifiable(w', d)
  {
    var bindings := w.persistent.ports;
    forall s | s in bindings ensures Current(w'.guests, bindings[s]) ==> Current(w.guests, bindings[s]) {
      if k :| k in w'.guests && w'.guests[k].Live? && w'.guests[k].generation == bindings[s].generation {
        assert w.guests[k].Live? && w.guests[k].generation == bindings[s].generation;
      }
    }
  }

  lemma ReconcileIsSound(cfg: Config, w: World, p: Pass, pciOrder: seq<string>)
    requires Inv(cfg, w) && FairPass(cfg, w, p, pciOrder)
    ensures Inv(cfg, Reconciled(cfg, w, p, pciOrder).0)
  {
    var gated := Gated(cfg, w.(deferred := false), p.gate);
    GatedIsGateOnly(cfg, w.(deferred := false), p.gate);
    ObserveIsSound(cfg, gated, p, pciOrder);
    var (observed, w1, w2) := Stages(cfg, w, p, pciOrder);
    if Observes(cfg, w, p, pciOrder) {
      PassesAreSound(cfg, observed, p);
    }
    SweptIsGateOnly(cfg, w2, p.sweepEnabled, p.sweep);
  }

  ghost predicate IsPci(e: Event) {
    e.AttachPci? || e.ResumesPci? || e.SuspendsPci? || e.DetachPci?
  }

  /** Steps that are not about USB devices, on the part of the daemon. */
  ghost predicate Outside(e: Event) {
    IsPci(e) || e.VmStarts? || e.VmStops? || e.VmCrashes? || e.VmClaims?
  }

  lemma OutsideKeepsMemory(cfg: Config, w: World, e: Event)
    requires Outside(e)
    ensures var w' := Next(cfg, w, e);
      && w'.persistent.ports == w.persistent.ports && w'.usbVms == w.usbVms && w'.observedUsb == w.observedUsb
      && w'.usbRouting == w.usbRouting && w'.gateLog == w.gateLog
      && (!e.VmClaims? ==> w'.host.drivers == w.host.drivers)
  {
    if IsPci(e) {
      PciEventKeepsBindings(cfg, w, e);
    }
  }

  lemma PciEventKeepsBindings(cfg: Config, w: World, e: Event)
    requires IsPci(e)
    ensures SameBindings(w, Next(cfg, w, e))
  {
    match e
    case AttachPci(groups, x, requested, f) => AttachPciKeepsBindings(cfg, groups, w, x, requested, f);
    case ResumesPci(groups, devices, scope, fs) => ResumePciKeepsBindings(cfg, groups, w, devices, scope, fs);
    case SuspendsPci(groups, devices, scope, fs) => SuspendPciKeepsBindings(cfg, groups, w, devices, scope, fs);
    case DetachPci(groups, x, permanent, f) => DetachPciKeepsBindings(cfg, groups, w, x, permanent, f);
  }

  // ----- the theorem -----

  lemma NextIsSound(cfg: Config, w: World, e: Event)
    requires Inv(cfg, w) && Fair(cfg, w, e)
    ensures Inv(cfg, Next(cfg, w, e))
  {
    match e
    case Attach(d, rule, requested, f) => AttachIsSound(cfg, w, d, rule, requested, f);
    case Detach(d, permanent, f) => DetachIsSound(cfg, w, d, permanent, f);
    case Suspend(devices, scope, fs) => SuspendIsSound(cfg, w, devices, scope, fs);
    case Resume(devices, scope, fs) => ResumeIsSound(cfg, w, devices, scope, fs, devices);
    case Observe(scanned, arrivals, order, fs) =>
      ForgetAllIsSound(cfg, w.(log := w.log + Newcomers(w.observedUsb, arrivals)), order, scanned, fs);
    case Reconciles(p, pciOrder) => ReconcileIsSound(cfg, w, p, pciOrder);
    case AttachPci(groups, x, requested, f) =>
      AttachPciFrame(cfg, groups, w, x, requested, f);
      SameUsbPortsKeepSound(cfg, w.guests, Next(cfg, w, e).guests, w.persistent.ports);
    case ResumesPci(groups, devices, scope, fs) => ResumePciKeepsInv(cfg, groups, w, devices, scope, fs);
    case SuspendsPci(groups, devices, scope, fs) => SuspendPciKeepsInv(cfg, groups, w, devices, scope, fs);
    case DetachPci(groups, x, permanent, f) =>
      DetachPciFrame(cfg, groups, w, x, permanent, f);
      SameUsbPortsKeepSound(cfg, w.guests, Next(cfg, w, e).guests, w.persistent.ports);
    case VmStarts(socket, generation) => ReplaceGuest(cfg, w, socket, Live(generation, map[], {}));
    case VmStops(socket) => ReplaceGuest(cfg, w, socket, NoSocket);
    case VmCrashes(socket) =>
      if GuestAt(w, socket).Live? {
        ReplaceGuest(cfg, w, socket, Stale(GuestAt(w, socket).generation));
      }
    case VmClaims(_, _) =>
    case DaemonRestarts =>
  }

  /** Over every fair run, every current binding names a live port of its VM
      showing the recorded device, and no two of them share a port. */
  lemma {:induction false} BindingsStaySound(cfg: Config, w: World, events: seq<Event>)
    requires Inv(cfg, w) && FairRun(cfg, w, events)
    ensures Inv(cfg, Run(cfg, w, events))
  {
    if events != [] {
      var front := events[..|events| - 1];
      forall i | 0 <= i < |front| ensures Fair(cfg, Run(cfg, w, front[..i]), front[i]) {
        assert front[..i] == events[..i];
      }
      BindingsStaySound(cfg, w, front);
      NextIsSound(cfg, Run(cfg, w, front), events[|events| - 1]);
    }
  }

  /** A world without records is a sound place to start. */
  lemma StartIsSound(cfg: Config, w: World)
    requires w.persistent.ports == map[] && DistinctGenerations(w.guests)
    requires cfg.persistency ==> w.disk == w.persistent
    ensures Inv(cfg, w)
  {
  }
}
