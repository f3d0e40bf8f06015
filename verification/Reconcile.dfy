/** What a reconciliation that succeeds and puts nothing off guarantees. */
module Reconcile {
  import opened Prelude
  import opened World
  import opened UsbSpec
  import opened Authorization
  import opened Frames
  import opened UsbRuns
  import opened SuspendResume
  import opened ReconcileSpec
  import HostPolicy

  // ----- completeness, USB -----

  /** Where the rules and the selection send the device now. */
  function Destination(w: World, x: RoutedUsb): Option<string> {
    ChooseVm(w.persistent.selected, PersistentId(x.device), x.rule, None)
  }

  /** A settled device: handed back for good, recorded with its destination,
      waiting for a selection, or found to be a hub by this very pass. */
  ghost predicate Accounted(cfg: Config, w: World, x: RoutedUsb, skipped: bool) {
    var d := x.device;
    || PersistentId(d) in w.persistent.disconnected
    || (exists vm :: Destination(w, x) == Some(vm) && RecordedAt(cfg, w, d, vm))
    || (Destination(w, x) == None && PersistentId(d) in w.pending)
    || (skipped && Destination(w, x).Some? && HeldByNoneElse(w, x))
  }

  ghost predicate HeldByNoneElse(w: World, x: RoutedUsb) {
    x.device.node.Some? && x.device.node.value in w.usbVms ==> Destination(w, x) == Some(w.usbVms[x.device.node.value])
  }

  lemma DestinationIsTarget(w: World, x: RoutedUsb)
    ensures ChooseVm(w.persistent.selected, PersistentId(x.device), x.rule, ResumeTarget(w, x)) == Destination(w, x)
  {
  }

  /** A skipped hub is remembered as held by nobody but its destination. */
  lemma SkippedHubHolder(cfg: Config, w: World, d: UsbDevice, vm: string, f: AttachFaults)
    requires vm in cfg.sockets && AttachTo(cfg, w, d, vm, f).1 == SkippedHub
    ensures var w' := AttachTo(cfg, w, d, vm, f).0;
      && w'.persistent.selected == w.persistent.selected
      && (d.node.Some? && d.node.value in w'.usbVms ==> w'.usbVms[d.node.value] == vm)
  {
    var guest := GuestAt(w, cfg.sockets[vm]);
    var node := d.node.value;
    var preflight := if Preflighted(cfg, d) then Some(guest) else None;
    var current := Get(w.usbVms, node);
    if current.Some? && current.value != vm {
      DetachDoneShape(cfg, w, d, false, f.move);
      SkippedHubFields(cfg, DetachOne(cfg, w, d, false, f.move).0, d, node, vm, cfg.sockets[vm], preflight, true, f);
    } else {
      SkippedHubFields(cfg, w, d, node, vm, cfg.sockets[vm], preflight, current != Some(vm), f);
    }
  }

  lemma SkippedHubFields(cfg: Config, w: World, d: UsbDevice, node: string, vm: string, socket: string,
                         preflight: Option<Guest>, changed: bool, f: AttachFaults)
    requires preflight.Some? ==> preflight.value.Live?
    requires UnderGuard(cfg, w, d, node, vm, socket, preflight, changed, f).1 == SkippedHub
    ensures var w' := UnderGuard(cfg, w, d, node, vm, socket, preflight, changed, f).0;
      w'.persistent == w.persistent && w'.usbVms == w.usbVms && w'.guests == w.guests && w'.pending == w.pending
          && w'.log == w.log
  {
    var w1 := if Armed(cfg, w, d) then WithAuthorized(w, d.sysName, true, false) else w;
    var (w2, stop) := Prepare(cfg, w1, d, f);
    PrepareFrame(cfg, w1, d, f);
    if stop.None? {
      ConnectResults(cfg, w2, d, node, vm, socket, preflight, changed, f.interfaces.value, f);
    }
  }

  /** A device's turn in a pass that neither fails nor puts it off accounts for it. */
  lemma ResumeOneAccounts(cfg: Config, w: World, x: RoutedUsb, f: AttachFaults)
    requires x.device.node.Some?
    requires var (w', ok) := ResumeOne(cfg, w, x, None, f); ok && !w'.deferred
    ensures Accounted(cfg, ResumeOne(cfg, w, x, None, f).0, x, Skips(cfg, w, x, None, f))
  {
    var d := x.device;
    if PersistentId(d) !in w.persistent.disconnected {
      var target := ResumeTarget(w, x);
      var (w1, result) := AttachOne(cfg, w, d, x.rule, target, f);
      DestinationIsTarget(w, x);
      var chosen := Destination(w, x);
      assert !result.Rejected?;
      if chosen.Some? {
        var vm := chosen.value;
        AttachedMeans(cfg, w, d, vm, f);
        if result == SkippedHub {
          SkippedHubHolder(cfg, w, d, vm, f);
        } else {
          assert Destination(w1, x) == Some(vm) by {
            assert Get(w1.persistent.selected, PersistentId(d)) == ViewOf(w1, d).selected;
          }
        }
      }
    }
  }

  lemma LaterKeepsAccounted(cfg: Config, w: World, w': World, x: RoutedUsb, skipped: bool)
    requires x.device.node.Some? && Later(w, w', x.device) && Accounted(cfg, w, x, skipped)
    ensures Accounted(cfg, w', x, skipped)
  {
    var d := x.device;
    assert ViewOf(w', d) == ViewOf(w, d);
    assert Get(w.persistent.selected, PersistentId(d)) == ViewOf(w, d).selected;
    assert Get(w'.persistent.selected, PersistentId(d)) == ViewOf(w', d).selected;
    assert Get(w.usbVms, d.node.value) == ViewOf(w, d).vm && Get(w'.usbVms, d.node.value) == ViewOf(w', d).vm;
    assert Destination(w', x) == Destination(w, x);
    if vm :| Destination(w, x) == Some(vm) && RecordedAt(cfg, w, d, vm) {
      assert RecordedAt(cfg, w', d, vm);
    }
  }

  lemma ResumeAccounts(cfg: Config, w: World, devices: seq<RoutedUsb>, fs: string -> AttachFaults, i: nat)
    requires DistinctScan(devices) && i < |devices|
    requires var (w', ok) := ResumeUsb(cfg, w, devices, None, fs); ok && !w'.deferred
    ensures Accounted(cfg, ResumeUsb(cfg, w, devices, None, fs).0, devices[i],
                      SkipsInTurn(cfg, w, devices, i, None, fs))
  {
    var x := devices[i];
    ResumeAfter(cfg, w, devices, None, fs, i);
    ResumeTurn(cfg, w, devices, i, None, fs);
    ResumeOneAccounts(cfg, ResumeUsb(cfg, w, devices[..i], None, fs).0, x, fs(x.device.sysName));
    LaterKeepsAccounted(cfg, ResumeUsb(cfg, w, devices[..i + 1], None, fs).0, ResumeUsb(cfg, w, devices, None, fs).0, x,
                        SkipsInTurn(cfg, w, devices, i, None, fs));
  }

  /** Device i of the pass is found to be a hub in its own turn. */
  ghost predicate SkippedIn(cfg: Config, w: World, p: Pass, pciOrder: seq<string>, i: nat)
    requires i < |p.usb|
  {
    SkipsInTurn(cfg, Stages(cfg, w, p, pciOrder).1, p.usb, i, None, p.attach)
  }

  /** After a reconciliation that succeeds and puts nothing off, every routed
      USB device is accounted for. */
  lemma ReconcileIsComplete(cfg: Config, w: World, p: Pass, pciOrder: seq<string>, i: nat)
    requires DistinctScan(p.usb) && i < |p.usb|
    requires var (w', ok) := Reconciled(cfg, w, p, pciOrder); ok && !w'.deferred
    ensures Accounted(cfg, Reconciled(cfg, w, p, pciOrder).0, p.usb[i], SkippedIn(cfg, w, p, pciOrder, i))
  {
    var (observed, w1, w2) := Stages(cfg, w, p, pciOrder);
    SweptIsGateOnly(cfg, w2, p.sweepEnabled, p.sweep);
    ResumeAccounts(cfg, w1, p.usb, p.attach, i);
    LaterKeepsAccounted(cfg, w2, HostPolicy.Swept(cfg, w2, p.sweepEnabled, p.sweep).0, p.usb[i],
                        SkippedIn(cfg, w, p, pciOrder, i));
  }

  /** Default deny: a reconciliation that succeeds under the sweeping policy
      leaves authorized only hubs, devices in VMs and devices the host may use. */
  lemma ReconcileDenies(cfg: Config, w: World, p: Pass, pciOrder: seq<string>)
    requires cfg.authorization && p.sweepEnabled && Reconciled(cfg, w, p, pciOrder).1
    ensures HostPolicy.Denied(Reconciled(cfg, w, p, pciOrder).0, p.sweep.devices, p.sweep)
  {
    HostPolicy.SweptDenies(cfg, Stages(cfg, w, p, pciOrder).2, p.sweepEnabled, p.sweep);
  }

  /** A device is skipped only where a hub driver is bound to one of its
      interfaces. */
  lemma SkippedIsHub(cfg: Config, w: World, x: RoutedUsb, scope: Option<string>, f: AttachFaults)
    requires Skips(cfg, w, x, scope, f)
    ensures f.interfaces.Some?
    ensures exists n :: n in f.interfaces.value
                        && Get(AttachOne(cfg, w, x.device, x.rule, ResumeTarget(w, x), f).0.host.drivers, n) ==
                            Some(HubDriver)
  {
    DestinationIsTarget(w, x);
    var vm := Destination(w, x).value;
    var d := x.device;
    var guest := GuestAt(w, cfg.sockets[vm]);
    var preflight := if Preflighted(cfg, d) then Some(guest) else None;
    var current := Get(w.usbVms, d.node.value);
    if current.Some? && current.value != vm {
      SkippedShowsHub(cfg, DetachOne(cfg, w, d, false, f.move).0, d, d.node.value, vm, cfg.sockets[vm], preflight,
                      true, f);
    } else {
      SkippedShowsHub(cfg, w, d, d.node.value, vm, cfg.sockets[vm], preflight, current != Some(vm), f);
    }
  }

  lemma SkippedShowsHub(cfg: Config, w: World, d: UsbDevice, node: string, vm: string, socket: string,
                        preflight: Option<Guest>, changed: bool, f: AttachFaults)
    requires preflight.Some? ==> preflight.value.Live?
    requires UnderGuard(cfg, w, d, node, vm, socket, preflight, changed, f).1 == SkippedHub
    ensures f.interfaces.Some?
    ensures exists n :: n in f.interfaces.value
                        && Get(UnderGuard(cfg, w, d, node, vm, socket, preflight, changed, f).0.host.drivers, n) ==
                            Some(HubDriver)
  {
    var w1 := if Armed(cfg, w, d) then WithAuthorized(w, d.sysName, true, false) else w;
    var (w2, stop) := Prepare(cfg, w1, d, f);
    if stop.None? {
      ConnectResults(cfg, w2, d, node, vm, socket, preflight, changed, f.interfaces.value, f);
    } else {
      PreparedHub(cfg, w1, d, f);
    }
  }

  lemma PreparedHub(cfg: Config, w: World, d: UsbDevice, f: AttachFaults)
    requires Prepare(cfg, w, d, f).1 == Some(SkippedHub)
    ensures f.interfaces.Some? && exists n :: n in f.interfaces.value
                                              && Get(Prepare(cfg, w, d, f).0.host.drivers, n) == Some(HubDriver)
  {
    var before := Configured(cfg, w, d, f);
    ClaimReleasesHostDriversOnly(before, f.interfaces.value, f.releaseFails);
    var n :| n in f.interfaces.value && n in before && before[n] == HubDriver;
    assert Get(Prepare(cfg, w, d, f).0.host.drivers, n) == Some(HubDriver);
  }
}
