/**
 The gate in the manager's own runs: between two reconciliations operations
 take host drivers off interfaces and bind none to them, so no run of the
 daemon binds and unbinds an interface in turn.
 */
module GateRuns {
  import opened Prelude
  import opened World
  import opened UsbSpec
  import opened Frames
  import opened UsbRuns
  import opened ReconcileSpec
  import opened Authorization
  import opened Gate
  import HostPolicy

  /** No host driver came to this entry; the gate's memory and log are as they
      were. */
  ghost predicate Frees(w: World, w': World, entry: string) {
    && NotBoundBetween(w.host.drivers, w'.host.drivers, entry)
    && w'.usbRouting == w.usbRouting && w'.gateLog == w.gateLog
  }

  lemma FreesTransitive(w: World, w1: World, w2: World, entry: string)
    requires Frees(w, w1, entry) && Frees(w1, w2, entry)
    ensures Frees(w, w2, entry)
  {
  }

  // ----- operations -----

  lemma DetachFrees(cfg: Config, w: World, d: UsbDevice, permanent: bool, f: DetachFaults, entry: string)
    ensures Frees(w, DetachOne(cfg, w, d, permanent, f).0, entry)
  {
    DetachFrame(cfg, w, d, permanent, f);
    if d.node.Some? {
      var holder := Holder(w, d, d.node.value);
      if holder.Some? && holder.value in cfg.sockets {
        ReleaseFrame(w, cfg.sockets[holder.value], Get(w.persistent.ports, d.sysName), d, f);
        var w1 := ReleaseFromVm(w, cfg.sockets[holder.value], Get(w.persistent.ports, d.sysName), d, f).0;
        FinishKeepsDrivers(cfg, Log(w1, UsbDetached(d.node.value, holder.value)), d, d.node.value, permanent, f);
      } else {
        FinishKeepsDrivers(cfg, w, d, d.node.value, permanent, f);
      }
    }
  }

  lemma FinishKeepsDrivers(cfg: Config, w: World, d: UsbDevice, node: string, permanent: bool, f: DetachFaults)
    ensures FinishDetach(cfg, w, d, node, permanent, f).0.host.drivers == w.host.drivers
  {
  }

  lemma PrepareFrees(cfg: Config, w: World, d: UsbDevice, f: AttachFaults, entry: string)
    requires entry !in f.probed
    ensures Frees(w, Prepare(cfg, w, d, f).0, entry)
  {
    var before := Configured(cfg, w, d, f);
    assert Get(before, entry) == Get(w.host.drivers, entry);
    PrepareFrame(cfg, w, d, f);
    PreparedDrivers(cfg, w, d, f);
    if f.interfaces.Some? {
      ClaimReleasesHostDriversOnly(before, f.interfaces.value, f.releaseFails);
    }
  }

  lemma ClaimAndConnectFrees(cfg: Config, w: World, d: UsbDevice, node: string, vm: string, socket: string,
                             preflight: Option<Guest>, changed: bool, f: AttachFaults, entry: string)
    requires d.node == Some(node) && (preflight.Some? ==> preflight.value.Live?) && entry !in f.probed
    ensures Frees(w, ClaimAndConnect(cfg, w, d, node, vm, socket, preflight, changed, f).world, entry)
  {
    var (w1, stop) := Prepare(cfg, w, d, f);
    PrepareFrees(cfg, w, d, f, entry);
    if stop.None? {
      ConnectEffects(cfg, w1, d, node, vm, socket, preflight, changed, f.interfaces.value, f,
                     ErrandTo(d, node, vm, socket));
      ConnectFrame(cfg, w1, d, node, vm, socket, preflight, changed, f.interfaces.value, f);
    }
  }

  lemma UnderGuardFrees(cfg: Config, w: World, d: UsbDevice, node: string, vm: string, socket: string,
                        preflight: Option<Guest>, changed: bool, f: AttachFaults, entry: string)
    requires d.node == Some(node) && (preflight.Some? ==> preflight.value.Live?) && entry !in f.probed
    ensures Frees(w, UnderGuard(cfg, w, d, node, vm, socket, preflight, changed, f).0, entry)
  {
    var w1 := if Armed(cfg, w, d) then WithAuthorized(w, d.sysName, true, false) else w;
    ClaimAndConnectFrees(cfg, w1, d, node, vm, socket, preflight, changed, f, entry);
    var g := ClaimAndConnect(cfg, w1, d, node, vm, socket, preflight, changed, f);
    FreesTransitive(w, w1, g.world, entry);
    DropFrees(w, g.world, d, Armed(cfg, w, d) && !g.committed, f, entry);
    DropFrees(w, w, d, Armed(cfg, w, d), f, entry);
  }

  lemma DropFrees(w: World, w': World, d: UsbDevice, armed: bool, f: AttachFaults, entry: string)
    requires Frees(w, w', entry)
    ensures Frees(w, Drop(w', d, armed, f), entry)
  {
  }

  lemma MoveFrees(cfg: Config, w: World, d: UsbDevice, node: string, vm: string, socket: string,
                  preflight: Option<Guest>, f: AttachFaults, entry: string)
    requires d.node == Some(node) && (preflight.Some? ==> preflight.value.Live?) && entry !in f.probed
    ensures var w1 := DetachOne(cfg, w, d, false, f.move).0;
      Frees(w, w1, entry) && Frees(w, UnderGuard(cfg, w1, d, node, vm, socket, preflight, true, f).0, entry)
  {
    var w1 := DetachOne(cfg, w, d, false, f.move).0;
    DetachFrees(cfg, w, d, false, f.move, entry);
    UnderGuardFrees(cfg, w1, d, node, vm, socket, preflight, true, f, entry);
    FreesTransitive(w, w1, UnderGuard(cfg, w1, d, node, vm, socket, preflight, true, f).0, entry);
  }

  lemma AttachToFrees(cfg: Config, w: World, d: UsbDevice, vm: string, f: AttachFaults, entry: string)
    requires vm in cfg.sockets && entry !in f.probed
    ensures Frees(w, AttachTo(cfg, w, d, vm, f).0, entry)
  {
    var guest := GuestAt(w, cfg.sockets[vm]);
    if d.node.Some? && !(Preflighted(cfg, d) && Listing(guest, f.preflightFails).None?) {
      var node := d.node.value;
      var preflight := if Preflighted(cfg, d) then Some(guest) else None;
      var current := Get(w.usbVms, node);
      if current.Some? && current.value != vm {
        MoveFrees(cfg, w, d, node, vm, cfg.sockets[vm], preflight, f, entry);
      } else {
        UnderGuardFrees(cfg, w, d, node, vm, cfg.sockets[vm], preflight, current != Some(vm), f, entry);
      }
    }
  }

  /** An attach of any device takes a driver off this entry or leaves it, as
      long as configuring the device does not bind one to it. */
  lemma AttachFrees(cfg: Config, w: World, d: UsbDevice, rule: UsbRule, requested: Option<string>, f: AttachFaults,
                    entry: string)
    requires entry !in f.probed
    ensures Frees(w, AttachOne(cfg, w, d, rule, requested, f).0, entry)
  {
    var chosen := ChooseVm(w.persistent.selected, PersistentId(d), rule, requested);
    if chosen.Some? && chosen.value in cfg.sockets {
      AttachToFrees(cfg, w, d, chosen.value, f, entry);
    }
  }

  lemma {:induction false} SuspendFrees(cfg: Config, w: World, devices: seq<RoutedUsb>, scope: Option<string>,
                                        fs: string -> DetachFaults, entry: string)
    ensures Frees(w, SuspendUsb(cfg, w, devices, scope, fs).0, entry)
  {
    if devices != [] {
      var n := |devices| - 1;
      SuspendFrees(cfg, w, devices[..n], scope, fs, entry);
      DetachFrees(cfg, SuspendUsb(cfg, w, devices[..n], scope, fs).0, devices[n].device, false,
                  fs(devices[n].device.sysName), entry);
    }
  }

  lemma {:induction false} ResumeFrees(cfg: Config, w: World, devices: seq<RoutedUsb>, scope: Option<string>,
                                       fs: string -> AttachFaults, entry: string)
    requires forall k :: entry !in fs(k).probed
    ensures Frees(w, ResumeUsb(cfg, w, devices, scope, fs).0, entry)
  {
    if devices != [] {
      var n := |devices| - 1;
      ResumeFrees(cfg, w, devices[..n], scope, fs, entry);
      var w1, x := ResumeUsb(cfg, w, devices[..n], scope, fs).0, devices[n];
      AttachFrees(cfg, w1, x.device, x.rule, ResumeTarget(w1, x), fs(x.device.sysName), entry);
    }
  }

  lemma ForgetGoneFrees(cfg: Config, w: World, key: string, d: UsbDevice, f: ForgetFaults, entry: string)
    ensures Frees(w, ForgetGone(cfg, w, key, d, f).0, entry)
  {
    if key in w.persistent.ports && w.persistent.ports[key].vm in cfg.sockets {
      DropPortFrame(cfg, w, w.persistent.ports[key], f);
      FinishForgetFrees(cfg, DropPort(cfg, w, w.persistent.ports[key], f).0, key, d, f, entry);
    } else {
      FinishForgetFrees(cfg, w, key, d, f, entry);
    }
  }

  lemma FinishForgetFrees(cfg: Config, w: World, key: string, d: UsbDevice, f: ForgetFaults, entry: string)
    ensures Frees(w, FinishForget(cfg, w, key, d, f).0, entry)
  {
  }

  lemma {:induction false} ForgetAllFrees(cfg: Config, w: World, order: seq<string>, scanned: map<string, UsbDevice>,
                                          fs: string -> ForgetFaults, entry: string)
    ensures Frees(w, ForgetAllGone(cfg, w, order, scanned, fs).0, entry)
    decreases |order|
  {
    if order != [] {
      var key := order[0];
      if key in scanned || key !in w.observedUsb {
        ForgetAllFrees(cfg, w, order[1..], scanned, fs, entry);
      } else {
        ForgetGoneFrees(cfg, w, key, w.observedUsb[key], fs(key), entry);
        var (w1, outcome) := ForgetGone(cfg, w, key, w.observedUsb[key], fs(key));
        if outcome.Done? {
          ForgetAllFrees(cfg, w1, order[1..], scanned, fs, entry);
          FreesTransitive(w, w1, ForgetAllGone(cfg, w1, order[1..], scanned, fs).0, entry);
        }
      }
    }
  }

  // ----- a reconciliation -----

  lemma ObserveFrees(cfg: Config, w: World, p: ReconcileSpec.Pass, pciOrder: seq<string>, entry: string)
    ensures Frees(w, ObserveAll(cfg, w, p, pciOrder).0, entry)
  {
    if !p.observeFails {
      ObserveUsbFrees(cfg, w, ScanMap(p.usb), p.arrivals, p.order, p.forget, entry);
    }
  }

  lemma ObserveUsbFrees(cfg: Config, w: World, scanned: map<string, UsbDevice>, arrivals: seq<string>,
                        order: seq<string>, fs: string -> ForgetFaults, entry: string)
    ensures Frees(w, ObserveUsb(cfg, w, scanned, arrivals, order, fs).0, entry)
  {
    ForgetAllFrees(cfg, w.(log := w.log + Newcomers(w.observedUsb, arrivals)), order, scanned, fs, entry);
  }

  lemma BindingsFree(w: World, w': World, entry: string)
    requires SameBindings(w, w')
    ensures Frees(w, w', entry)
  {
  }

  lemma PassesFree(cfg: Config, w: World, p: ReconcileSpec.Pass, entry: string)
    requires forall k :: entry !in p.attach(k).probed
    ensures var w1 := PciPass(cfg, w, p).0; Frees(w, w1, entry) && Frees(w, UsbPass(cfg, w1, p).0, entry)
  {
    var w1 := PciPass(cfg, w, p).0;
    if !p.pciScanFails {
      ResumePciKeepsBindings(cfg, p.groups, w, p.pci, None, p.pciFaults);
      BindingsFree(w, w1, entry);
    }
    ResumeFrees(cfg, w1, p.usb, None, p.attach, entry);
    FreesTransitive(w, w1, UsbPass(cfg, w1, p).0, entry);
  }

  lemma AfterGateFrees(cfg: Config, w: World, p: ReconcileSpec.Pass, pciOrder: seq<string>, entry: string)
    requires forall k :: entry !in p.attach(k).probed
    ensures Frees(Gated(cfg, w.(deferred := false), p.gate), Reconciled(cfg, w, p, pciOrder).0, entry)
  {
    var gated := Gated(cfg, w.(deferred := false), p.gate);
    ObserveFrees(cfg, gated, p, pciOrder, entry);
    var (observed, w1, w2) := Stages(cfg, w, p, pciOrder);
    PassesFree(cfg, observed, p, entry);
    FreesTransitive(gated, observed, w2, entry);
    SweptFrees(cfg, w2, p.sweepEnabled, p.sweep, entry);
    FreesTransitive(gated, w2, HostPolicy.Swept(cfg, w2, p.sweepEnabled, p.sweep).0, entry);
  }

  lemma SweptFrees(cfg: Config, w: World, enabled: bool, s: HostPolicy.HostScan, entry: string)
    ensures Frees(w, HostPolicy.Swept(cfg, w, enabled, s).0, entry)
  {
    HostPolicy.SweptDenies(cfg, w, enabled, s);
  }

  // ----- runs -----

  /** Nothing in the step but the gate binds a driver to the entry, the device
      is there whenever the gate routes, and the daemon keeps running: its
      memory of verdicts is what the property rests on. */
  ghost predicate KeepsPlugged(cfg: Config, w: World, e: Event, d: UsbDevice, entry: string) {
    match e
    case Attach(_, _, _, f) => entry !in f.probed
    case Resume(_, _, fs) => forall k :: entry !in fs(k).probed
    case Reconciles(p, _) => Present(GateInput(cfg, w, p.gate), d, entry) && forall k :: entry !in p.attach(k).probed
    case DaemonRestarts => false
    case _ => true
  }

  ghost predicate PluggedRun(cfg: Config, w: World, events: seq<Event>, d: UsbDevice, entry: string) {
    forall i :: 0 <= i < |events| ==> KeepsPlugged(cfg, Run(cfg, w, events[..i]), events[i], d, entry)
  }

  lemma FreesKeepsReleased(w: World, w': World, d: UsbDevice, entry: string)
    requires StaysReleased(GateOf(w), d, entry) && Frees(w, w', entry)
    ensures StaysReleased(GateOf(w'), d, entry)
  {
  }

  lemma NextStaysReleased(cfg: Config, w: World, e: Event, d: UsbDevice, entry: string)
    requires StaysReleased(GateOf(w), d, entry) && KeepsPlugged(cfg, w, e, d, entry)
    ensures StaysReleased(GateOf(Next(cfg, w, e)), d, entry)
  {
    if e.Reconciles? {
      var gated := Gated(cfg, w.(deferred := false), e.pass.gate);
      PassStaysReleased(GateOf(w), GateInput(cfg, w, e.pass.gate), d, entry);
      assert GateOf(gated) == ApplyGate(GateOf(w), GateInput(cfg, w, e.pass.gate));
      AfterGateFrees(cfg, w, e.pass, e.pciOrder, entry);
      FreesKeepsReleased(gated, Next(cfg, w, e), d, entry);
    } else {
      OperationFrees(cfg, w, e, d, entry);
      FreesKeepsReleased(w, Next(cfg, w, e), d, entry);
    }
  }

  lemma OperationFrees(cfg: Config, w: World, e: Event, d: UsbDevice, entry: string)
    requires KeepsPlugged(cfg, w, e, d, entry) && !e.Reconciles?
    ensures Frees(w, Next(cfg, w, e), entry)
  {
    match e
    case Attach(x, rule, requested, f) => AttachFrees(cfg, w, x, rule, requested, f, entry);
    case Detach(x, permanent, f) => DetachFrees(cfg, w, x, permanent, f, entry);
    case Suspend(devices, scope, fs) => SuspendFrees(cfg, w, devices, scope, fs, entry);
    case Resume(devices, scope, fs) => ResumeFrees(cfg, w, devices, scope, fs, entry);
    case Observe(scanned, arrivals, order, fs) => ObserveUsbFrees(cfg, w, scanned, arrivals, order, fs, entry);
    case _ => OutsideFrees(cfg, w, e, entry);
  }

  lemma OutsideFrees(cfg: Config, w: World, e: Event, entry: string)
    requires Outside(e)
    ensures Frees(w, Next(cfg, w, e), entry)
  {
    OutsideKeepsMemory(cfg, w, e);
  }

  /** Over every run of the daemon, whatever the rules say from pass to pass
      and whatever operations come between: an interface of a device that stays
      plugged in is released by the gate at most once, and the gate does
      nothing to it afterwards. */
  lemma {:induction false} RunNeverCycles(cfg: Config, w: World, events: seq<Event>, d: UsbDevice, entry: string)
    requires w.gateLog == [] && PluggedRun(cfg, w, events, d, entry)
    ensures StaysReleased(GateOf(Run(cfg, w, events)), d, entry)
  {
    if events != [] {
      var n := |events| - 1;
      forall i | 0 <= i < n ensures KeepsPlugged(cfg, Run(cfg, w, events[..n][..i]), events[..n][i], d, entry) {
        assert events[..n][..i] == events[..i];
      }
      RunNeverCycles(cfg, w, events[..n], d, entry);
      NextStaysReleased(cfg, Run(cfg, w, events[..n]), events[n], d, entry);
    }
  }
}
