/**
 The selection remembers the holder: over every run in which saves succeed, a
 held device is selected for the VM that holds it and is not marked. This is
 what lets a resume find its way back.
 */
module Selection {
  import opened Prelude
  import opened World
  import opened UsbSpec
  import opened Frames
  import opened Soundness
  import opened UsbRuns
  import opened SuspendResume
  import opened ReconcileSpec
  import Sticky
  import PciRules
  import PciSpec

  /** The record of a device describes it and is of the VM remembered for it. */
  ghost predicate Agreed(w: World, d: UsbDevice) {
    d.node.Some? && d.sysName in w.persistent.ports ==>
      var b := w.persistent.ports[d.sysName];
      Get(w.usbVms, d.node.value) == Some(b.vm) && b == BindingFor(d, b.vm, b.port, b.generation)
  }

  /** The step left the device's holder, record, selection and mark alone, took
      holder and record away, or set all of them together. */
  ghost predicate KeepsChoice(w: World, w': World, d: UsbDevice)
    requires d.node.Some?
  {
    var v, v' := ViewOf(w, d), ViewOf(w', d);
    || (v'.vm == v.vm && v'.binding == v.binding && v'.selected == v.selected && v'.marked == v.marked)
    || (v'.vm == None && v'.binding == None)
    || (v'.selected == v'.vm && !v'.marked && v'.binding.Some? && Agreed(w', d))
  }

  /** What a step keeps of one device. */
  ghost predicate Keeps(w: World, w': World, d: UsbDevice) {
    (Chosen(w, d) ==> Chosen(w', d)) && (Agreed(w, d) ==> Agreed(w', d))
  }

  lemma ChoiceIsKept(w: World, w': World, d: UsbDevice)
    requires d.node.Some? && KeepsChoice(w, w', d)
    ensures Keeps(w, w', d)
  {
    assert Agreed(w, d) && ViewOf(w', d).vm == ViewOf(w, d).vm && ViewOf(w', d).binding == ViewOf(w, d).binding ==>
        Agreed(w', d);
  }

  lemma DetachKeepsChoice(cfg: Config, w: World, d: UsbDevice, permanent: bool, f: DetachFaults)
    requires d.node.Some?
    ensures KeepsChoice(w, DetachOne(cfg, w, d, permanent, f).0, d)
  {
    var node := d.node.value;
    var holder := Holder(w, d, node);
    if holder.None? {
      FinishDetachShape(cfg, w, d, node, permanent, f);
    } else if holder.value in cfg.sockets {
      var (w1, error) := ReleaseFromVm(w, cfg.sockets[holder.value], Get(w.persistent.ports, d.sysName), d, f);
      ReleaseFrame(w, cfg.sockets[holder.value], Get(w.persistent.ports, d.sysName), d, f);
      FinishDetachShape(cfg, Log(w1, UsbDetached(node, holder.value)), d, node, permanent, f);
    }
  }

  lemma FreshChoice(cfg: Config, w: World, d: UsbDevice, node: string, vm: string, socket: string, view: Guest,
                    names: seq<string>, f: AttachFaults)
    requires view.Live? && d.node == Some(node) && AttachSaves(f)
    ensures KeepsChoice(w, AttachFresh(cfg, w, d, node, vm, socket, view, names, f).world, d)
  {
    var guest := GuestAt(w, socket);
    if f.attach.Taken? && guest.Live? && f.attach.port !in guest.ports {
      var port := f.attach.port;
      var issued := Log(w, UsbAttachCommand(socket, node, BoundDrivers(w.host.drivers, names)));
      var attached := WithPorts(issued, socket, guest.ports[port := f.shown]);
      var stale := StalePort(Get(w.persistent.ports, d.sysName), vm, view);
      var binding := BindingFor(d, vm, port, view.generation);
      SettleChoice(cfg, attached, d, node, socket, stale, binding, f);
      SameViewKeepsChoice(w, attached, SettleTaken(cfg, attached, d, node, socket, stale, binding, f).world, d);
    } else {
      UntakenShape(cfg, w, d, node, vm, socket, view, names, f);
    }
  }

  lemma SameViewKeepsChoice(w: World, w1: World, w': World, d: UsbDevice)
    requires w1 == w.(guests := w1.guests, log := w1.log)
    requires d.node.Some? && KeepsChoice(w1, w', d)
    ensures KeepsChoice(w, w', d)
  {
  }

  lemma SettleChoice(cfg: Config, w: World, d: UsbDevice, node: string, socket: string, stale: Option<nat>,
                     binding: Binding, f: AttachFaults)
    requires d.node == Some(node) && AttachSaves(f) && GuestAt(w, socket).Live?
    requires binding == BindingFor(d, binding.vm, binding.port, binding.generation)
    ensures KeepsChoice(w, SettleTaken(cfg, w, d, node, socket, stale, binding, f).world, d)
  {
    var (cleaned, error) := CleanStale(w, socket, stale, binding.port, f.staleFails);
    CleanStaleEffects(w, socket, stale, binding.port, f.staleFails);
    assert ViewOf(cleaned, d) == ViewOf(w, d);
    if error.None? {
      RecordShape(cfg, cleaned, d, node, binding, true, f);
      RecordAttached(cfg, cleaned, d, node, binding, true, f);
    }
  }

  lemma ConnectKeepsChoice(cfg: Config, w: World, d: UsbDevice, node: string, vm: string, socket: string,
                           preflight: Option<Guest>, changed: bool, names: seq<string>, f: AttachFaults)
    requires d.node == Some(node) && AttachSaves(f) && (preflight.Some? ==> preflight.value.Live?)
    ensures KeepsChoice(w, Connect(cfg, w, d, node, vm, socket, preflight, changed, names, f).world, d)
  {
    if !(preflight.None? && Listing(GuestAt(w, socket), f.listFails).None?) {
      var view := if preflight.Some? then preflight.value else GuestAt(w, socket);
      var known := Get(w.persistent.ports, d.sysName);
      if Reusable(known, d, vm, view) {
        RecordShape(cfg, w, d, node, known.value, changed, f);
        RecordAttached(cfg, w, d, node, known.value, changed, f);
      } else {
        FreshChoice(cfg, w, d, node, vm, socket, view, names, f);
      }
    }
  }

  lemma ClaimAndConnectKeepsChoice(cfg: Config, w: World, d: UsbDevice, node: string, vm: string, socket: string,
                                   preflight: Option<Guest>, changed: bool, f: AttachFaults)
    requires d.node == Some(node) && AttachSaves(f) && (preflight.Some? ==> preflight.value.Live?)
    ensures KeepsChoice(w, ClaimAndConnect(cfg, w, d, node, vm, socket, preflight, changed, f).world, d)
  {
    var (w1, stop) := Prepare(cfg, w, d, f);
    PrepareFrame(cfg, w, d, f);
    if stop.None? {
      ConnectKeepsChoice(cfg, w1, d, node, vm, socket, preflight, changed, f.interfaces.value, f);
    }
  }

  lemma UnderGuardKeepsChoice(cfg: Config, w: World, d: UsbDevice, node: string, vm: string, socket: string,
                              preflight: Option<Guest>, changed: bool, f: AttachFaults)
    requires d.node == Some(node) && AttachSaves(f) && (preflight.Some? ==> preflight.value.Live?)
    ensures KeepsChoice(w, UnderGuard(cfg, w, d, node, vm, socket, preflight, changed, f).0, d)
  {
    var w1 := if Armed(cfg, w, d) then WithAuthorized(w, d.sysName, true, false) else w;
    var g := ClaimAndConnect(cfg, w1, d, node, vm, socket, preflight, changed, f);
    ClaimAndConnectKeepsChoice(cfg, w1, d, node, vm, socket, preflight, changed, f);
    DropKeepsView(g.world, d, Armed(cfg, w, d) && !g.committed, f);
    DropKeepsView(w, d, true, f);
  }

  lemma DropKeepsView(w: World, d: UsbDevice, armed: bool, f: AttachFaults)
    requires d.node.Some?
    ensures ViewOf(Drop(w, d, armed, f), d) == ViewOf(w, d)
  {
  }

  lemma AttachToKeeps(cfg: Config, w: World, d: UsbDevice, vm: string, f: AttachFaults)
    requires vm in cfg.sockets && d.node.Some? && AttachSaves(f)
    ensures Keeps(w, AttachTo(cfg, w, d, vm, f).0, d)
  {
    var guest := GuestAt(w, cfg.sockets[vm]);
    if !(Preflighted(cfg, d) && Listing(guest, f.preflightFails).None?) {
      var node := d.node.value;
      var preflight := if Preflighted(cfg, d) then Some(guest) else None;
      var current := Get(w.usbVms, node);
      if current.Some? && current.value != vm {
        MoveKeeps(cfg, w, d, node, vm, cfg.sockets[vm], preflight, f);
      } else {
        UnderGuardKeepsChoice(cfg, w, d, node, vm, cfg.sockets[vm], preflight, current != Some(vm), f);
        ChoiceIsKept(w, UnderGuard(cfg, w, d, node, vm, cfg.sockets[vm], preflight, current != Some(vm), f).0, d);
      }
    }
  }

  lemma MoveKeeps(cfg: Config, w: World, d: UsbDevice, node: string, vm: string, socket: string,
                  preflight: Option<Guest>, f: AttachFaults)
    requires d.node == Some(node) && AttachSaves(f) && (preflight.Some? ==> preflight.value.Live?)
    ensures var w1 := DetachOne(cfg, w, d, false, f.move).0;
      Keeps(w, w1, d) && Keeps(w, UnderGuard(cfg, w1, d, node, vm, socket, preflight, true, f).0, d)
  {
    var w1 := DetachOne(cfg, w, d, false, f.move).0;
    DetachKeepsChoice(cfg, w, d, false, f.move);
    ChoiceIsKept(w, w1, d);
    UnderGuardKeepsChoice(cfg, w1, d, node, vm, socket, preflight, true, f);
    ChoiceIsKept(w1, UnderGuard(cfg, w1, d, node, vm, socket, preflight, true, f).0, d);
  }

  lemma AttachOwnKeeps(cfg: Config, w: World, d: UsbDevice, rule: UsbRule, requested: Option<string>, f: AttachFaults)
    requires d.node.Some? && AttachSaves(f)
    ensures Keeps(w, AttachOne(cfg, w, d, rule, requested, f).0, d)
  {
    var chosen := ChooseVm(w.persistent.selected, PersistentId(d), rule, requested);
    if chosen.Some? && chosen.value in cfg.sockets {
      AttachToKeeps(cfg, w, d, chosen.value, f);
    }
  }

  lemma AttachKeepsChosen(cfg: Config, w: World, d: UsbDevice, e: UsbDevice, rule: UsbRule, requested: Option<string>,
                          f: AttachFaults)
    requires d.node.Some? && Chosen(w, d) && ((d == e && AttachSaves(f)) || Sticky.Differs(d, e))
    ensures Chosen(AttachOne(cfg, w, e, rule, requested, f).0, d)
  {
    if d == e {
      AttachOwnKeeps(cfg, w, d, rule, requested, f);
    } else {
      AttachFrame(cfg, w, e, rule, requested, f);
      OtherKeepsView(w, AttachOne(cfg, w, e, rule, requested, f).0, d, e);
    }
  }

  lemma DetachKeepsChosen(cfg: Config, w: World, d: UsbDevice, e: UsbDevice, permanent: bool, f: DetachFaults)
    requires d.node.Some? && Chosen(w, d) && (d == e || Sticky.Differs(d, e))
    ensures Chosen(DetachOne(cfg, w, e, permanent, f).0, d)
  {
    var w' := DetachOne(cfg, w, e, permanent, f).0;
    if d == e {
      DetachKeepsChoice(cfg, w, d, permanent, f);
      ChoiceIsKept(w, w', d);
    } else {
      DetachFrame(cfg, w, e, permanent, f);
      OtherKeepsView(w, w', d, e);
    }
  }

  /** Every device the step works on is this one or shares no name with it,
      and the attaches of this one save what they record. */
  ghost predicate Distinguishes(d: UsbDevice, e: Event) {
    match e
    case Attach(x, _, _, f) => (d == x && AttachSaves(f)) || Sticky.Differs(d, x)
    case Detach(x, _, _) => d == x || Sticky.Differs(d, x)
    case Suspend(devices, _, _) =>
      forall i :: 0 <= i < |devices| ==> d == devices[i].device || Sticky.Differs(d, devices[i].device)
    case Resume(devices, _, fs) =>
      forall i :: 0 <= i < |devices| ==>
                    (d == devices[i].device && AttachSaves(fs(d.sysName))) || Sticky.Differs(d, devices[i].device)
    case Reconciles(p, _) =>
      forall i :: 0 <= i < |p.usb| ==>
                    (d == p.usb[i].device && AttachSaves(p.attach(d.sysName))) || Sticky.Differs(d, p.usb[i].device)
    case _ => true
  }

  lemma {:induction false} SuspendKeepsChosen(cfg: Config, w: World, devices: seq<RoutedUsb>, scope: Option<string>,
                                              fs: string -> DetachFaults, d: UsbDevice)
    requires d.node.Some? && Chosen(w, d) && Distinguishes(d, Suspend(devices, scope, fs))
    ensures Chosen(SuspendUsb(cfg, w, devices, scope, fs).0, d)
  {
    if devices != [] {
      var n := |devices| - 1;
      SuspendKeepsChosen(cfg, w, devices[..n], scope, fs, d);
      DetachKeepsChosen(cfg, SuspendUsb(cfg, w, devices[..n], scope, fs).0, d, devices[n].device, false,
                        fs(devices[n].device.sysName));
    }
  }

  lemma {:induction false} ResumeKeepsChosen(cfg: Config, w: World, devices: seq<RoutedUsb>, scope: Option<string>,
                                             fs: string -> AttachFaults, d: UsbDevice)
    requires d.node.Some? && Chosen(w, d) && Distinguishes(d, Resume(devices, scope, fs))
    ensures Chosen(ResumeUsb(cfg, w, devices, scope, fs).0, d)
  {
    if devices != [] {
      var n := |devices| - 1;
      ResumeKeepsChosen(cfg, w, devices[..n], scope, fs, d);
      var w1, x := ResumeUsb(cfg, w, devices[..n], scope, fs).0, devices[n];
      AttachKeepsChosen(cfg, w1, d, x.device, x.rule, ResumeTarget(w1, x), fs(x.device.sysName));
    }
  }

  lemma {:induction false} ForgetAllKeepsChosen(cfg: Config, w: World, order: seq<string>,
                                                scanned: map<string, UsbDevice>,
                                                fs: string -> ForgetFaults, d: UsbDevice)
    requires d.node.Some? && Chosen(w, d)
    ensures Chosen(ForgetAllGone(cfg, w, order, scanned, fs).0, d)
    decreases |order|
  {
    if order != [] {
      var key := order[0];
      if key in scanned || key !in w.observedUsb {
        ForgetAllKeepsChosen(cfg, w, order[1..], scanned, fs, d);
      } else {
        ForgetGoneKeepsChosen(cfg, w, key, w.observedUsb[key], fs(key), d);
        var (w1, outcome) := ForgetGone(cfg, w, key, w.observedUsb[key], fs(key));
        if outcome.Done? {
          ForgetAllKeepsChosen(cfg, w1, order[1..], scanned, fs, d);
        }
      }
    }
  }

  lemma ForgetGoneKeepsChosen(cfg: Config, w: World, key: string, e: UsbDevice, f: ForgetFaults, d: UsbDevice)
    requires d.node.Some? && Chosen(w, d)
    ensures Chosen(ForgetGone(cfg, w, key, e, f).0, d)
  {
    if key in w.persistent.ports && w.persistent.ports[key].vm in cfg.sockets {
      DropPortFrame(cfg, w, w.persistent.ports[key], f);
      FinishForgetShape(cfg, DropPort(cfg, w, w.persistent.ports[key], f).0, key, e, f);
    } else {
      FinishForgetShape(cfg, w, key, e, f);
    }
  }

  lemma PciKeepsChosen(cfg: Config, w: World, w': World, address: string, d: UsbDevice)
    requires d.node.Some? && Chosen(w, d) && PciOnly(cfg, w, w', address)
    ensures Chosen(w', d)
  {
    UsbAndPciIdsDiffer(d, address);
    assert PersistentId(d) in OtherMarks(w'.persistent.disconnected, PciPersistentId(address)) <==>
           PersistentId(d) in OtherMarks(w.persistent.disconnected, PciPersistentId(address));
  }

  lemma {:induction false} ResumePciKeepsChosen(cfg: Config, groups: PciRules.Groups, w: World,
                                                devices: seq<PciRules.Routed>, scope: Option<string>,
                                                fs: string -> PciSpec.PciFaults, d: UsbDevice)
    requires d.node.Some? && Chosen(w, d)
    ensures Chosen(PciSpec.ResumePci(cfg, groups, w, devices, scope, fs).0, d)
  {
    if devices != [] {
      var n := |devices| - 1;
      ResumePciKeepsChosen(cfg, groups, w, devices[..n], scope, fs, d);
      var w1, x := PciSpec.ResumePci(cfg, groups, w, devices[..n], scope, fs).0, devices[n];
      AttachPciFrame(cfg, groups, w1, x, Some(x.rule.targetVm), fs(x.device.address));
      PciKeepsChosen(cfg, w1, PciSpec.AttachOnePci(cfg, groups, w1, x, Some(x.rule.targetVm), fs(x.device.address)).0,
                     x.device.address, d);
    }
  }

  lemma {:induction false} SuspendPciKeepsChosen(cfg: Config, groups: PciRules.Groups, w: World,
                                                devices: seq<PciRules.Routed>, scope: Option<string>,
                                                fs: string -> PciSpec.PciFaults, d: UsbDevice)
    requires d.node.Some? && Chosen(w, d)
    ensures Chosen(PciSpec.SuspendPci(cfg, groups, w, devices, scope, fs).0, d)
  {
    if devices != [] {
      var n := |devices| - 1;
      SuspendPciKeepsChosen(cfg, groups, w, devices[..n], scope, fs, d);
      var w1, x := PciSpec.SuspendPci(cfg, groups, w, devices[..n], scope, fs).0, devices[n];
      DetachPciFrame(cfg, groups, w1, x, false, fs(x.device.address));
      PciKeepsChosen(cfg, w1, PciSpec.DetachOnePci(cfg, groups, w1, x, false, fs(x.device.address)).0,
                     x.device.address, d);
    }
  }

  lemma ObserveKeepsChosen(cfg: Config, w: World, p: Pass, pciOrder: seq<string>, d: UsbDevice)
    requires d.node.Some? && Chosen(w, d)
    ensures Chosen(ObserveAll(cfg, w, p, pciOrder).0, d)
  {
    ForgetAllKeepsChosen(cfg, w.(log := w.log + Newcomers(w.observedUsb, p.arrivals)), p.order, ScanMap(p.usb),
                         p.forget, d);
  }

  lemma ReconcileKeepsChosen(cfg: Config, w: World, p: Pass, pciOrder: seq<string>, d: UsbDevice)
    requires d.node.Some? && Chosen(w, d) && Distinguishes(d, Reconciles(p, pciOrder))
    ensures Chosen(Reconciled(cfg, w, p, pciOrder).0, d)
  {
    var reset := w.(deferred := false);
    GatedIsGateOnly(cfg, reset, p.gate);
    ObserveKeepsChosen(cfg, Gated(cfg, reset, p.gate), p, pciOrder, d);
    var (observed, w1, w2) := Stages(cfg, w, p, pciOrder);
    ResumePciKeepsChosen(cfg, p.groups, observed, p.pci, None, p.pciFaults, d);
    ResumeKeepsChosen(cfg, w1, p.usb, None, p.attach, d);
    SweptIsGateOnly(cfg, w2, p.sweepEnabled, p.sweep);
  }

  lemma NextKeepsChosen(cfg: Config, w: World, e: Event, d: UsbDevice)
    requires d.node.Some? && Chosen(w, d) && Distinguishes(d, e)
    ensures Chosen(Next(cfg, w, e), d)
  {
    match e
    case Attach(x, rule, requested, f) => AttachKeepsChosen(cfg, w, d, x, rule, requested, f);
    case Detach(x, permanent, f) => DetachKeepsChosen(cfg, w, d, x, permanent, f);
    case Suspend(devices, scope, fs) => SuspendKeepsChosen(cfg, w, devices, scope, fs, d);
    case Resume(devices, scope, fs) => ResumeKeepsChosen(cfg, w, devices, scope, fs, d);
    case Observe(scanned, arrivals, order, fs) =>
      ForgetAllKeepsChosen(cfg, w.(log := w.log + Newcomers(w.observedUsb, arrivals)), order, scanned, fs, d);
    case Reconciles(p, pciOrder) => ReconcileKeepsChosen(cfg, w, p, pciOrder, d);
    case AttachPci(groups, x, requested, f) =>
      AttachPciFrame(cfg, groups, w, x, requested, f);
      PciKeepsChosen(cfg, w, Next(cfg, w, e), x.device.address, d);
    case ResumesPci(groups, devices, scope, fs) => ResumePciKeepsChosen(cfg, groups, w, devices, scope, fs, d);
    case SuspendsPci(groups, devices, scope, fs) => SuspendPciKeepsChosen(cfg, groups, w, devices, scope, fs, d);
    case DetachPci(groups, x, permanent, f) =>
      DetachPciFrame(cfg, groups, w, x, permanent, f);
      PciKeepsChosen(cfg, w, Next(cfg, w, e), x.device.address, d);
    case VmStarts(_, _) =>
    case VmStops(_) =>
    case VmCrashes(_) =>
    case VmClaims(_, _) =>
    case DaemonRestarts =>
  }

  /** Over every run, a held device is selected for its holder and unmarked. */
  lemma {:induction false} HolderStaysSelected(cfg: Config, w: World, events: seq<Event>, d: UsbDevice)
    requires d.node.Some? && Chosen(w, d)
    requires forall i :: 0 <= i < |events| ==> Distinguishes(d, events[i])
    ensures Chosen(Run(cfg, w, events), d)
  {
    if events != [] {
      var n := |events| - 1;
      HolderStaysSelected(cfg, w, events[..n], d);
      NextKeepsChosen(cfg, Run(cfg, w, events[..n]), events[n], d);
    }
  }
}
