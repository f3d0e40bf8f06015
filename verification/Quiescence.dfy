/**
 Resuming a device that is settled does nothing: no command to Crosvm, no
 notification, no change of any record, whatever fails on the way.
 */
module Quiescence {
  import opened Prelude
  import opened World
  import opened UsbSpec
  import opened Frames
  import opened SuspendResume
  import opened Reconcile
  import opened Authorization
  import Marks

  /** Only host drivers and bits, the gate's memory and log, the list of
      reported hubs, the saved copy and the flag for deferred work may differ.
      In particular the log of commands and notifications is the same. */
  ghost predicate Quiet(w: World, w': World) {
    && w' == w.(host := w'.host, usbRouting := w'.usbRouting, gateLog := w'.gateLog, reportedHubs := w'.reportedHubs,
                disk := w'.disk, deferred := w'.deferred)
    && w'.host.pciDrivers == w.host.pciDrivers
    && w.reportedHubs <= w'.reportedHubs
  }

  lemma QuietTransitive(w: World, w1: World, w2: World)
    requires Quiet(w, w1) && Quiet(w1, w2)
    ensures Quiet(w, w2)
  {
  }

  /** Interfaces known to belong to hubs. */
  ghost predicate HubsBound(w: World, hubs: set<string>) {
    forall n :: n in hubs ==> Get(w.host.drivers, n) == Some(HubDriver)
  }

  ghost predicate SparesHubs(f: AttachFaults, hubs: set<string>) {
    f.probed.Keys !! hubs
  }

  ghost predicate ShowsHub(f: AttachFaults, hubs: set<string>) {
    f.interfaces.Some? && exists n :: n in f.interfaces.value && n in hubs
  }

  /** Settled for good: marked, recorded and listed, waiting, or a hub still seen as one. */
  ghost predicate Ready(cfg: Config, w: World, x: RoutedUsb, f: AttachFaults, hubs: set<string>) {
    var d := x.device;
    || PersistentId(d) in w.persistent.disconnected
    || (exists vm :: Destination(w, x) == Some(vm) && RecordedAt(cfg, w, d, vm) && ListedAtPort(cfg, w, d, vm))
    || (Destination(w, x) == None && PersistentId(d) in w.pending)
    || (Destination(w, x).Some? && HeldByNoneElse(w, x) && ShowsHub(f, hubs))
  }

  lemma QuietKeepsReady(cfg: Config, w: World, w': World, x: RoutedUsb, f: AttachFaults, hubs: set<string>)
    requires Ready(cfg, w, x, f, hubs) && Quiet(w, w')
    ensures Ready(cfg, w', x, f, hubs)
  {
    var d := x.device;
    if vm :| Destination(w, x) == Some(vm) && RecordedAt(cfg, w, d, vm) && ListedAtPort(cfg, w, d, vm) {
      assert ViewOf(w', d) == ViewOf(w, d);
      assert RecordedAt(cfg, w', d, vm) && ListedAtPort(cfg, w', d, vm);
    }
  }

  // ----- one settled USB device -----

  lemma PrepareQuiet(cfg: Config, w: World, d: UsbDevice, f: AttachFaults, hubs: set<string>)
    requires HubsBound(w, hubs) && SparesHubs(f, hubs)
    ensures var (w', stop) := Prepare(cfg, w, d, f);
      Quiet(w, w') && HubsBound(w', hubs) && (ShowsHub(f, hubs) ==> stop.Some?)
  {
    PrepareFrame(cfg, w, d, f);
    PreparedDrivers(cfg, w, d, f);
    var before := Configured(cfg, w, d, f);
    assert forall n :: n in hubs ==> Get(before, n) == Some(HubDriver);
    ClaimSparesHubs(before, if f.interfaces.Some? then f.interfaces.value else [], f.releaseFails, hubs);
  }

  lemma ClaimSparesHubs(before: map<string, Driver>, names: seq<string>, fails: set<string>, hubs: set<string>)
    requires forall n :: n in hubs ==> Get(before, n) == Some(HubDriver)
    ensures var (drivers, claim) := ClaimInterfaces(before, names, fails);
      && (forall n :: n in hubs ==> Get(drivers, n) == Some(HubDriver))
      && ((exists n :: n in names && n in hubs) ==> !claim.Claimed?)
  {
    ClaimReleasesHostDriversOnly(before, names, fails);
  }

  /** Recording what is already on record changes nothing. */
  lemma RecordQuiet(cfg: Config, w: World, d: UsbDevice, node: string, binding: Binding, f: AttachFaults)
    requires d.node == Some(node)
    requires ViewOf(w, d) == View(Some(binding.vm), Some(binding.vm), false, false, Some(binding))
    ensures var w' := Record(cfg, w, d, node, binding, false, f).world;
      Quiet(w, w') && w'.host == w.host
  {
    Marks.SetDisconnectedIsUpdate(w.persistent.disconnected, PersistentId(d), false);
    assert w.usbVms[node := binding.vm] == w.usbVms;
    assert w.persistent.selected[PersistentId(d) := binding.vm] == w.persistent.selected;
    assert w.persistent.ports[d.sysName := binding] == w.persistent.ports;
    assert w.pending - {PersistentId(d)} == w.pending;
    assert NoteVm(w, d, node, binding.vm) == w;
    RecordStagesQuiet(cfg, w, d, node, binding, f);
  }

  lemma RecordStagesQuiet(cfg: Config, w: World, d: UsbDevice, node: string, binding: Binding, f: AttachFaults)
    requires forall disk: Persistent :: NoteVm(w.(disk := disk), d, node, binding.vm) == w.(disk := disk)
    requires Marks.SetDisconnected(w.persistent.disconnected, PersistentId(d), false) == w.persistent.disconnected
    requires w.persistent.ports[d.sysName := binding] == w.persistent.ports
    requires w.pending - {PersistentId(d)} == w.pending
    ensures var w' := Record(cfg, w, d, node, binding, false, f).world;
      Quiet(w, w') && w'.host == w.host
  {
  }

  lemma ConnectQuiet(cfg: Config, w: World, d: UsbDevice, node: string, vm: string, socket: string,
                     preflight: Option<Guest>, names: seq<string>, f: AttachFaults)
    requires d.node == Some(node) && vm in cfg.sockets && cfg.sockets[vm] == socket
    requires RecordedAt(cfg, w, d, vm) && ListedAtPort(cfg, w, d, vm)
    requires preflight.Some? ==> preflight.value == GuestAt(w, socket)
    ensures var w' := Connect(cfg, w, d, node, vm, socket, preflight, false, names, f).world;
      Quiet(w, w') && w'.host == w.host
  {
    var known := Get(w.persistent.ports, d.sysName);
    assert ViewOf(w, d).binding == known;
    assert Reusable(known, d, vm, GuestAt(w, socket));
    RecordQuiet(cfg, w, d, node, known.value, f);
  }

  lemma UnderGuardQuiet(cfg: Config, w: World, d: UsbDevice, node: string, vm: string, socket: string,
                        preflight: Option<Guest>, changed: bool, f: AttachFaults, hubs: set<string>)
    requires d.node == Some(node) && vm in cfg.sockets && cfg.sockets[vm] == socket
    requires HubsBound(w, hubs) && SparesHubs(f, hubs)
    requires preflight.Some? ==> preflight.value == GuestAt(w, socket) && preflight.value.Live?
    requires ShowsHub(f, hubs) || (!changed && RecordedAt(cfg, w, d, vm) && ListedAtPort(cfg, w, d, vm))
    ensures var w' := UnderGuard(cfg, w, d, node, vm, socket, preflight, changed, f).0;
      Quiet(w, w') && HubsBound(w', hubs)
  {
    var w1 := if Armed(cfg, w, d) then WithAuthorized(w, d.sysName, true, false) else w;
    if !(Armed(cfg, w, d) && (d.sysName !in w.host.authorized || f.authorizeFails)) {
      ClaimAndConnectQuiet(cfg, w1, d, node, vm, socket, preflight, changed, f, hubs);
      var g := ClaimAndConnect(cfg, w1, d, node, vm, socket, preflight, changed, f);
      GuardQuiet(w, w1, g, d, Armed(cfg, w, d) && !g.committed, f, hubs);
    } else {
      DropQuiet(w, d, true, f, hubs);
    }
  }

  lemma GuardQuiet(w: World, w1: World, g: Guarded, d: UsbDevice, armed: bool, f: AttachFaults, hubs: set<string>)
    requires Quiet(w, w1) && Quiet(w1, g.world) && HubsBound(g.world, hubs)
    ensures Quiet(w, Drop(g.world, d, armed, f)) && HubsBound(Drop(g.world, d, armed, f), hubs)
  {
    DropQuiet(g.world, d, armed, f, hubs);
    QuietTransitive(w, w1, g.world);
    QuietTransitive(w, g.world, Drop(g.world, d, armed, f));
  }

  lemma DropQuiet(w: World, d: UsbDevice, armed: bool, f: AttachFaults, hubs: set<string>)
    requires HubsBound(w, hubs)
    ensures Quiet(w, Drop(w, d, armed, f)) && HubsBound(Drop(w, d, armed, f), hubs)
  {
  }

  lemma ClaimAndConnectQuiet(cfg: Config, w: World, d: UsbDevice, node: string, vm: string, socket: string,
                             preflight: Option<Guest>, changed: bool, f: AttachFaults, hubs: set<string>)
    requires d.node == Some(node) && vm in cfg.sockets && cfg.sockets[vm] == socket
    requires HubsBound(w, hubs) && SparesHubs(f, hubs)
    requires preflight.Some? ==> preflight.value == GuestAt(w, socket) && preflight.value.Live?
    requires ShowsHub(f, hubs) || (!changed && RecordedAt(cfg, w, d, vm) && ListedAtPort(cfg, w, d, vm))
    ensures var w' := ClaimAndConnect(cfg, w, d, node, vm, socket, preflight, changed, f).world;
      Quiet(w, w') && HubsBound(w', hubs)
  {
    var (w1, stop) := Prepare(cfg, w, d, f);
    PrepareQuiet(cfg, w, d, f, hubs);
    if stop.None? {
      assert ViewOf(w1, d) == ViewOf(w, d);
      ConnectQuiet(cfg, w1, d, node, vm, socket, preflight, f.interfaces.value, f);
      QuietTransitive(w, w1, Connect(cfg, w1, d, node, vm, socket, preflight, false, f.interfaces.value, f).world);
    }
  }

  lemma AttachToQuiet(cfg: Config, w: World, x: RoutedUsb, vm: string, f: AttachFaults, hubs: set<string>)
    requires vm in cfg.sockets && Destination(w, x) == Some(vm)
    requires HubsBound(w, hubs) && SparesHubs(f, hubs)
    requires
      || (RecordedAt(cfg, w, x.device, vm) && ListedAtPort(cfg, w, x.device, vm))
      || (HeldByNoneElse(w, x) && ShowsHub(f, hubs))
    ensures var w' := AttachTo(cfg, w, x.device, vm, f).0;
      Quiet(w, w') && HubsBound(w', hubs)
  {
    var d := x.device;
    var guest := GuestAt(w, cfg.sockets[vm]);
    if d.node.Some? && !(Preflighted(cfg, d) && Listing(guest, f.preflightFails).None?) {
      var node := d.node.value;
      var preflight := if Preflighted(cfg, d) then Some(guest) else None;
      var current := Get(w.usbVms, node);
      assert RecordedAt(cfg, w, d, vm) ==> ViewOf(w, d).vm == current;
      UnderGuardQuiet(cfg, w, d, node, vm, cfg.sockets[vm], preflight, current != Some(vm), f, hubs);
    }
  }

  lemma ReadyIsQuiet(cfg: Config, w: World, x: RoutedUsb, f: AttachFaults, hubs: set<string>)
    requires Ready(cfg, w, x, f, hubs) && HubsBound(w, hubs) && SparesHubs(f, hubs)
    ensures var w' := ResumeOne(cfg, w, x, None, f).0;
      Quiet(w, w') && HubsBound(w', hubs)
  {
    if PersistentId(x.device) !in w.persistent.disconnected {
      AttachIsQuiet(cfg, w, x, f, hubs);
      var w1 := AttachOne(cfg, w, x.device, x.rule, ResumeTarget(w, x), f).0;
      QuietTransitive(w, w1, w1.(deferred := true));
    }
  }

  lemma AttachIsQuiet(cfg: Config, w: World, x: RoutedUsb, f: AttachFaults, hubs: set<string>)
    requires Ready(cfg, w, x, f, hubs) && HubsBound(w, hubs) && SparesHubs(f, hubs)
    requires PersistentId(x.device) !in w.persistent.disconnected
    ensures var w' := AttachOne(cfg, w, x.device, x.rule, ResumeTarget(w, x), f).0;
      Quiet(w, w') && HubsBound(w', hubs)
  {
    DestinationIsTarget(w, x);
    var chosen := Destination(w, x);
    if chosen.Some? && chosen.value in cfg.sockets {
      AttachToQuiet(cfg, w, x, chosen.value, f, hubs);
    }
  }

  lemma {:induction false} ResumeIsQuiet(cfg: Config, w: World, devices: seq<RoutedUsb>, fs: string -> AttachFaults,
                                         hubs: set<string>)
    requires HubsBound(w, hubs) && forall k :: SparesHubs(fs(k), hubs)
    requires forall i :: 0 <= i < |devices| ==> Ready(cfg, w, devices[i], fs(devices[i].device.sysName), hubs)
    ensures var w' := ResumeUsb(cfg, w, devices, None, fs).0;
      Quiet(w, w') && HubsBound(w', hubs)
  {
    if devices != [] {
      var n := |devices| - 1;
      var front, x := devices[..n], devices[n];
      ResumeIsQuiet(cfg, w, front, fs, hubs);
      var w1 := ResumeUsb(cfg, w, front, None, fs).0;
      var f := fs(x.device.sysName);
      QuietKeepsReady(cfg, w, w1, x, f, hubs);
      ReadyIsQuiet(cfg, w1, x, f, hubs);
      QuietTransitive(w, w1, ResumeOne(cfg, w1, x, None, f).0);
    }
  }
}
