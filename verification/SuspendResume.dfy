/** A suspend followed by a resume puts every device back into its VM. */
module SuspendResume {
  import opened Prelude
  import opened World
  import opened UsbSpec
  import opened Frames
  import opened Soundness
  import Marks
  import Sticky

  /** Everything the manager knows of one device. */
  datatype View = View(vm: Option<string>, selected: Option<string>, marked: bool, pending: bool,
                       binding: Option<Binding>)

  ghost function ViewOf(w: World, d: UsbDevice): View
    requires d.node.Some?
  {
    View(Get(w.usbVms, d.node.value), Get(w.persistent.selected, PersistentId(d)),
         PersistentId(d) in w.persistent.disconnected, PersistentId(d) in w.pending, Get(w.persistent.ports, d.sysName))
  }

  lemma OtherKeepsView(w: World, w': World, d: UsbDevice, e: UsbDevice)
    requires d.node.Some? && TouchesOnly(w, w', e) && Sticky.Differs(d, e)
    ensures ViewOf(w', d) == ViewOf(w, d)
  {
    ElsewhereAt(w.persistent.ports, w'.persistent.ports, e.sysName, d.sysName);
    ElsewhereAt(w.persistent.selected, w'.persistent.selected, PersistentId(e), PersistentId(d));
    assert PersistentId(d) in OtherMarks(w.persistent.disconnected, PersistentId(e)) <==>
        PersistentId(d) in w.persistent.disconnected;
    assert PersistentId(d) in OtherMarks(w'.persistent.disconnected, PersistentId(e)) <==>
        PersistentId(d) in w'.persistent.disconnected;
    assert PersistentId(d) in w.pending - {PersistentId(e)} <==> PersistentId(d) in w.pending;
    assert PersistentId(d) in w'.pending - {PersistentId(e)} <==> PersistentId(d) in w'.pending;
    if e.node.Some? {
      ElsewhereAt(w.usbVms, w'.usbVms, e.node.value, d.node.value);
    }
  }

  /** A scan in which every device has its own name, node and id. */
  ghost predicate DistinctScan(devices: seq<RoutedUsb>) {
    && (forall i :: 0 <= i < |devices| ==> devices[i].device.node.Some?)
    && forall i, j :: 0 <= i < |devices| && 0 <= j < |devices| && i != j ==>
                        Sticky.Differs(devices[i].device, devices[j].device)
  }

  // ----- what one device sees of a pass over all -----

  lemma SuspendOneFrame(cfg: Config, w: World, x: RoutedUsb, scope: Option<string>, f: DetachFaults)
    ensures TouchesOnly(w, SuspendOne(cfg, w, x, scope, f).0, x.device)
  {
    DetachFrame(cfg, w, x.device, false, f);
  }

  lemma SuspendOtherKeepsView(cfg: Config, w: World, x: RoutedUsb, scope: Option<string>, f: DetachFaults, d: UsbDevice)
    requires d.node.Some? && Sticky.Differs(d, x.device)
    ensures ViewOf(SuspendOne(cfg, w, x, scope, f).0, d) == ViewOf(w, d)
  {
    SuspendOneFrame(cfg, w, x, scope, f);
    OtherKeepsView(w, SuspendOne(cfg, w, x, scope, f).0, d, x.device);
  }

  /** Until its turn comes, a device sees nothing of the pass. */
  lemma {:induction false} SuspendBefore(cfg: Config, w: World, devices: seq<RoutedUsb>, n: nat, scope: Option<string>,
                                         fs: string -> DetachFaults, i: nat)
    requires n <= i < |devices| && DistinctScan(devices)
    ensures ViewOf(SuspendUsb(cfg, w, devices[..n], scope, fs).0, devices[i].device) == ViewOf(w, devices[i].device)
  {
    if n > 0 {
      var m := n - 1;
      assert devices[..n][..m] == devices[..m];
      SuspendBefore(cfg, w, devices, m, scope, fs, i);
      var w1 := SuspendUsb(cfg, w, devices[..m], scope, fs).0;
      SuspendOtherKeepsView(cfg, w1, devices[m], scope, fs(devices[m].device.sysName), devices[i].device);
    }
  }

  /** A device's resume, up to the flag that says work was put off. */
  lemma ResumeOneFrame(cfg: Config, w: World, x: RoutedUsb, scope: Option<string>, f: AttachFaults)
    ensures var w' := ResumeOne(cfg, w, x, scope, f).0;
      && TouchesOnly(w, w'.(deferred := w.deferred), x.device)
      && (w.deferred ==> w'.deferred)
  {
    var w1 := AttachOne(cfg, w, x.device, x.rule, ResumeTarget(w, x), f).0;
    AttachFrame(cfg, w, x.device, x.rule, ResumeTarget(w, x), f);
    BitOnlyFrame(w, w, x.device);
    DeferFrame(w, w1, x.device);
  }

  lemma DeferFrame(w: World, w1: World, d: UsbDevice)
    requires TouchesOnly(w, w1, d)
    ensures w1.(deferred := w.deferred) == w1 && w1.(deferred := true).(deferred := w.deferred) == w1
  {
  }

  /** What the rest of a pass leaves true for a device whose turn is over. */
  ghost predicate Later(w: World, w': World, d: UsbDevice)
    requires d.node.Some?
  {
    && ViewOf(w', d) == ViewOf(w, d)
    && (w.deferred ==> w'.deferred)
    && w.reportedHubs <= w'.reportedHubs
    && SameVms(w.guests, w'.guests)
  }

  lemma ResumeOtherKeepsView(cfg: Config, w: World, x: RoutedUsb, scope: Option<string>, f: AttachFaults, d: UsbDevice)
    requires d.node.Some? && Sticky.Differs(d, x.device)
    ensures Later(w, ResumeOne(cfg, w, x, scope, f).0, d)
  {
    ResumeOneFrame(cfg, w, x, scope, f);
    OtherKeepsView(w, ResumeOne(cfg, w, x, scope, f).0.(deferred := w.deferred), d, x.device);
  }

  lemma {:induction false} ResumeBefore(cfg: Config, w: World, devices: seq<RoutedUsb>, n: nat, scope: Option<string>,
                                        fs: string -> AttachFaults, i: nat)
    requires n <= i < |devices| && DistinctScan(devices)
    ensures ViewOf(ResumeUsb(cfg, w, devices[..n], scope, fs).0, devices[i].device) == ViewOf(w, devices[i].device)
  {
    if n > 0 {
      var m := n - 1;
      assert devices[..n][..m] == devices[..m];
      ResumeBefore(cfg, w, devices, m, scope, fs, i);
      var w1 := ResumeUsb(cfg, w, devices[..m], scope, fs).0;
      ResumeOtherKeepsView(cfg, w1, devices[m], scope, fs(devices[m].device.sysName), devices[i].device);
    }
  }

  lemma OtherTurn(cfg: Config, w: World, devices: seq<RoutedUsb>, m: nat, scope: Option<string>,
                  fs: string -> AttachFaults, i: nat)
    requires i < m < |devices| && DistinctScan(devices)
    ensures StandsAfter(ResumeUsb(cfg, w, devices[..m], scope, fs), ResumeUsb(cfg, w, devices[..m + 1], scope, fs),
                        devices[i].device)
  {
    ResumeTurn(cfg, w, devices, m, scope, fs);
    ResumeOtherKeepsView(cfg, ResumeUsb(cfg, w, devices[..m], scope, fs).0, devices[m], scope,
                         fs(devices[m].device.sysName), devices[i].device);
  }

  lemma StandsTransitive(s: (World, bool), s1: (World, bool), s2: (World, bool), d: UsbDevice)
    requires d.node.Some? && StandsAfter(s, s1, d) && StandsAfter(s1, s2, d)
    ensures StandsAfter(s, s2, d)
  {
  }

  lemma {:induction false} ResumeChain(cfg: Config, w: World, devices: seq<RoutedUsb>, scope: Option<string>,
                                       fs: string -> AttachFaults, i: nat, n: nat)
    requires i < n <= |devices| && DistinctScan(devices)
    ensures StandsAfter(ResumeUsb(cfg, w, devices[..i + 1], scope, fs), ResumeUsb(cfg, w, devices[..n], scope, fs),
                        devices[i].device)
  {
    if i + 1 < n {
      ResumeChain(cfg, w, devices, scope, fs, i, n - 1);
      OtherTurn(cfg, w, devices, n - 1, scope, fs, i);
      StandsTransitive(ResumeUsb(cfg, w, devices[..i + 1], scope, fs), ResumeUsb(cfg, w, devices[..n - 1], scope, fs),
                       ResumeUsb(cfg, w, devices[..n], scope, fs), devices[i].device);
    } else {
      StandsStill(ResumeUsb(cfg, w, devices[..n], scope, fs), devices[i].device);
    }
  }

  lemma StandsStill(s: (World, bool), d: UsbDevice)
    requires d.node.Some?
    ensures StandsAfter(s, s, d)
  {
  }

  /** After its turn a device sees nothing more of the pass. */
  lemma ResumeAfter(cfg: Config, w: World, devices: seq<RoutedUsb>, scope: Option<string>, fs: string -> AttachFaults,
                    i: nat)
    requires i < |devices| && DistinctScan(devices)
    ensures StandsAfter(ResumeUsb(cfg, w, devices[..i + 1], scope, fs), ResumeUsb(cfg, w, devices, scope, fs),
                        devices[i].device)
  {
    ResumeChain(cfg, w, devices, scope, fs, i, |devices|);
    assert devices[..|devices|] == devices;
  }

  /** How far a pass has got, seen from a device whose turn is over. */
  ghost predicate StandsAfter(s: (World, bool), s': (World, bool), d: UsbDevice)
    requires d.node.Some?
  {
    Later(s.0, s'.0, d) && (s'.1 ==> s.1)
  }

  /** One turn of the pass. */
  lemma ResumeTurn(cfg: Config, w: World, devices: seq<RoutedUsb>, m: nat, scope: Option<string>,
                   fs: string -> AttachFaults)
    requires m < |devices|
    ensures var (w1, ok) := ResumeUsb(cfg, w, devices[..m], scope, fs);
      var (w2, last) := ResumeOne(cfg, w1, devices[m], scope, fs(devices[m].device.sysName));
      ResumeUsb(cfg, w, devices[..m + 1], scope, fs) == (w2, ok && last)
  {
    assert devices[..m + 1][..m] == devices[..m];
  }

  lemma SuspendTurn(cfg: Config, w: World, devices: seq<RoutedUsb>, m: nat, scope: Option<string>,
                    fs: string -> DetachFaults)
    requires m < |devices|
    ensures var (w1, ok) := SuspendUsb(cfg, w, devices[..m], scope, fs);
      var (w2, last) := SuspendOne(cfg, w1, devices[m], scope, fs(devices[m].device.sysName));
      SuspendUsb(cfg, w, devices[..m + 1], scope, fs) == (w2, ok && last)
  {
    assert devices[..m + 1][..m] == devices[..m];
  }

  lemma OtherSuspendTurn(cfg: Config, w: World, devices: seq<RoutedUsb>, m: nat, scope: Option<string>,
                         fs: string -> DetachFaults, i: nat)
    requires i < m < |devices| && DistinctScan(devices)
    ensures StandsAfter(SuspendUsb(cfg, w, devices[..m], scope, fs), SuspendUsb(cfg, w, devices[..m + 1], scope, fs),
                        devices[i].device)
  {
    var w1, x := SuspendUsb(cfg, w, devices[..m], scope, fs).0, devices[m];
    SuspendTurn(cfg, w, devices, m, scope, fs);
    SuspendOneFrame(cfg, w1, x, scope, fs(x.device.sysName));
    SuspendOtherKeepsView(cfg, w1, x, scope, fs(x.device.sysName), devices[i].device);
  }

  lemma {:induction false} SuspendChain(cfg: Config, w: World, devices: seq<RoutedUsb>, scope: Option<string>,
                                        fs: string -> DetachFaults, i: nat, n: nat)
    requires i < n <= |devices| && DistinctScan(devices)
    ensures StandsAfter(SuspendUsb(cfg, w, devices[..i + 1], scope, fs), SuspendUsb(cfg, w, devices[..n], scope, fs),
                        devices[i].device)
  {
    if i + 1 < n {
      SuspendChain(cfg, w, devices, scope, fs, i, n - 1);
      OtherSuspendTurn(cfg, w, devices, n - 1, scope, fs, i);
      StandsTransitive(SuspendUsb(cfg, w, devices[..i + 1], scope, fs), SuspendUsb(cfg, w, devices[..n - 1], scope, fs),
                       SuspendUsb(cfg, w, devices[..n], scope, fs), devices[i].device);
    } else {
      StandsStill(SuspendUsb(cfg, w, devices[..n], scope, fs), devices[i].device);
    }
  }

  /** The same for a suspend. */
  lemma SuspendAfter(cfg: Config, w: World, devices: seq<RoutedUsb>, scope: Option<string>,
                     fs: string -> DetachFaults, i: nat)
    requires i < |devices| && DistinctScan(devices)
    ensures StandsAfter(SuspendUsb(cfg, w, devices[..i + 1], scope, fs), SuspendUsb(cfg, w, devices, scope, fs),
                        devices[i].device)
  {
    SuspendChain(cfg, w, devices, scope, fs, i, |devices|);
    assert devices[..|devices|] == devices;
  }

  // ----- what a successful attach establishes -----

  /** The records after Crosvm took the device and every step succeeded. */
  ghost predicate RecordedAt(cfg: Config, w: World, d: UsbDevice, vm: string) {
    && d.node.Some?
    && vm in cfg.sockets
    && var v := ViewOf(w, d);
       && v.vm == Some(vm) && v.selected == Some(vm) && !v.marked && !v.pending
       && v.binding.Some?
       && v.binding.value == BindingFor(d, vm, v.binding.value.port, v.binding.value.generation)
       && var guest := GuestAt(w, cfg.sockets[vm]);
          guest.Live? && guest.generation == v.binding.value.generation
  }

  lemma RecordAttached(cfg: Config, w: World, d: UsbDevice, node: string, binding: Binding, changed: bool,
                       f: AttachFaults)
    requires d.node == Some(node)
    requires Record(cfg, w, d, node, binding, changed, f).result == Attached
    ensures var w' := Record(cfg, w, d, node, binding, changed, f).world;
      && ViewOf(w', d) == View(Some(binding.vm), Some(binding.vm), false, false, Some(binding))
      && w'.guests == w.guests
  {
    Marks.SetDisconnectedIsUpdate(w.persistent.disconnected, PersistentId(d), false);
    var w2 := Saved(cfg, LiftMark(Saved(cfg, NoteVm(w, d, node, binding.vm), false), d), false);
    assert ViewOf(w2, d) == ViewOf(w, d).(vm := Some(binding.vm), selected := Some(binding.vm), marked := false)
        && w2.guests == w.guests;
    PortRecorded(cfg, w2, d, binding, changed, f);
  }

  lemma PortRecorded(cfg: Config, w: World, d: UsbDevice, binding: Binding, changed: bool, f: AttachFaults)
    requires d.node.Some?
    requires RecordPort(cfg, w, d, binding, changed, f).result == Attached
    ensures var w' := RecordPort(cfg, w, d, binding, changed, f).world;
      && ViewOf(w', d) == ViewOf(w, d).(pending := false, binding := Some(binding))
      && w'.guests == w.guests
  {
  }

  lemma FreshAttached(cfg: Config, w: World, d: UsbDevice, node: string, vm: string, socket: string, view: Guest,
                      names: seq<string>, f: AttachFaults)
    requires view.Live? && d.node == Some(node) && vm in cfg.sockets && cfg.sockets[vm] == socket
    requires GuestAt(w, socket).Live? ==> view.generation == GuestAt(w, socket).generation
    requires AttachFresh(cfg, w, d, node, vm, socket, view, names, f).result == Attached
    ensures var w' := AttachFresh(cfg, w, d, node, vm, socket, view, names, f).world;
      && RecordedAt(cfg, w', d, vm)
      && var live := GuestAt(w', socket).ports;
         var port := ViewOf(w', d).binding.value.port;
         port in live && live[port] == f.shown && !f.attach.Refused?
  {
    var guest := GuestAt(w, socket);
    var port := f.attach.port;
    var issued := Log(w, UsbAttachCommand(socket, node, BoundDrivers(w.host.drivers, names)));
    var attached := WithPorts(issued, socket, guest.ports[port := f.shown]);
    var stale := StalePort(Get(w.persistent.ports, d.sysName), vm, view);
    var cleaned := CleanStale(attached, socket, stale, port, f.staleFails).0;
    CleanStaleEffects(attached, socket, stale, port, f.staleFails);
    RecordAttached(cfg, cleaned, d, node, BindingFor(d, vm, port, view.generation), true, f);
  }

  /** The device is listed by its VM at the recorded port. */
  ghost predicate ListedAtPort(cfg: Config, w: World, d: UsbDevice, vm: string)
    requires RecordedAt(cfg, w, d, vm)
  {
    var live := GuestAt(w, cfg.sockets[vm]).ports;
    var port := ViewOf(w, d).binding.value.port;
    port in live && Shows(live[port], d.vid, d.pid)
  }

  lemma ConnectAttached(cfg: Config, w: World, d: UsbDevice, node: string, vm: string, socket: string,
                        preflight: Option<Guest>, changed: bool, names: seq<string>, f: AttachFaults)
    requires d.node == Some(node) && vm in cfg.sockets && cfg.sockets[vm] == socket
    requires preflight.Some? ==> ListedAs(w, d, socket, preflight.value)
    requires Connect(cfg, w, d, node, vm, socket, preflight, changed, names, f).result == Attached
    ensures var w' := Connect(cfg, w, d, node, vm, socket, preflight, changed, names, f).world;
      RecordedAt(cfg, w', d, vm) && (HonestAttach(d, f) ==> ListedAtPort(cfg, w', d, vm))
  {
    var view := if preflight.Some? then preflight.value else GuestAt(w, socket);
    var known := Get(w.persistent.ports, d.sysName);
    if Reusable(known, d, vm, view) {
      RecordAttached(cfg, w, d, node, known.value, changed, f);
    } else {
      FreshAttached(cfg, w, d, node, vm, socket, view, names, f);
    }
  }

  lemma ClaimAndConnectAttached(cfg: Config, w: World, d: UsbDevice, node: string, vm: string, socket: string,
                                preflight: Option<Guest>, changed: bool, f: AttachFaults)
    requires d.node == Some(node) && vm in cfg.sockets && cfg.sockets[vm] == socket
    requires preflight.Some? ==> ListedAs(w, d, socket, preflight.value)
    ensures var g := ClaimAndConnect(cfg, w, d, node, vm, socket, preflight, changed, f);
      && (g.result == Attached ==>
            && RecordedAt(cfg, g.world, d, vm)
            && (HonestAttach(d, f) ==> ListedAtPort(cfg, g.world, d, vm)) && g.committed)
      && (g.result == SkippedHub ==> PersistentId(d) in g.world.reportedHubs)
      && g.result != Pending
  {
    var (w1, stop) := Prepare(cfg, w, d, f);
    PrepareFrame(cfg, w, d, f);
    if stop.None? {
      var g := Connect(cfg, w1, d, node, vm, socket, preflight, changed, f.interfaces.value, f);
      ConnectResults(cfg, w1, d, node, vm, socket, preflight, changed, f.interfaces.value, f);
      if g.result == Attached {
        ConnectAttached(cfg, w1, d, node, vm, socket, preflight, changed, f.interfaces.value, f);
      }
    }
  }

  /** Connecting either attaches, and then the guard is committed, or fails. */
  lemma ConnectResults(cfg: Config, w: World, d: UsbDevice, node: string, vm: string, socket: string,
                       preflight: Option<Guest>, changed: bool, names: seq<string>, f: AttachFaults)
    requires preflight.Some? ==> preflight.value.Live?
    ensures var g := Connect(cfg, w, d, node, vm, socket, preflight, changed, names, f);
      (g.result == Attached && g.committed) || g.result.Rejected?
  {
    if !(preflight.None? && Listing(GuestAt(w, socket), f.listFails).None?) {
      var view := if preflight.Some? then preflight.value else GuestAt(w, socket);
      var known := Get(w.persistent.ports, d.sysName);
      if Reusable(known, d, vm, view) {
        RecordResults(cfg, w, d, node, known.value, changed, f);
      } else {
        FreshResults(cfg, w, d, node, vm, socket, view, names, f);
      }
    }
  }

  lemma RecordResults(cfg: Config, w: World, d: UsbDevice, node: string, binding: Binding, changed: bool,
                      f: AttachFaults)
    ensures var g := Record(cfg, w, d, node, binding, changed, f);
      (g.result == Attached && g.committed) || g.result.Rejected?
  {
  }

  lemma FreshResults(cfg: Config, w: World, d: UsbDevice, node: string, vm: string, socket: string, view: Guest,
                     names: seq<string>, f: AttachFaults)
    requires view.Live?
    ensures var g := AttachFresh(cfg, w, d, node, vm, socket, view, names, f);
      (g.result == Attached && g.committed) || g.result.Rejected?
  {
    var issued := Log(w, UsbAttachCommand(socket, node, BoundDrivers(w.host.drivers, names)));
    var guest := GuestAt(w, socket);
    if guest.Live? && f.attach.Taken? && f.attach.port !in guest.ports {
      var attached := WithPorts(issued, socket, guest.ports[f.attach.port := f.shown]);
      var cleaned := CleanStale(attached, socket, StalePort(Get(w.persistent.ports, d.sysName), vm, view),
                                f.attach.port, f.staleFails).0;
      RecordResults(cfg, cleaned, d, node, BindingFor(d, vm, f.attach.port, view.generation), true, f);
    }
  }

  lemma UnderGuardAttached(cfg: Config, w: World, d: UsbDevice, node: string, vm: string, socket: string,
                           preflight: Option<Guest>, changed: bool, f: AttachFaults)
    requires d.node == Some(node) && vm in cfg.sockets && cfg.sockets[vm] == socket
    requires preflight.Some? ==> ListedAs(w, d, socket, preflight.value)
    ensures var (w', result) := UnderGuard(cfg, w, d, node, vm, socket, preflight, changed, f);
      && (result == Attached ==>
            RecordedAt(cfg, w', d, vm) && (HonestAttach(d, f) ==> ListedAtPort(cfg, w', d, vm)))
      && (result == SkippedHub ==> PersistentId(d) in w'.reportedHubs)
      && result != Pending
  {
    var w1 := if Armed(cfg, w, d) then WithAuthorized(w, d.sysName, true, false) else w;
    ClaimAndConnectAttached(cfg, w1, d, node, vm, socket, preflight, changed, f);
  }

  lemma MoveAttached(cfg: Config, w: World, d: UsbDevice, node: string, vm: string, socket: string,
                     preflight: Option<Guest>, f: AttachFaults)
    requires d.node == Some(node) && vm in cfg.sockets && cfg.sockets[vm] == socket
    requires preflight.Some? ==> preflight.value == GuestAt(w, socket) && preflight.value.Live?
    requires DetachOne(cfg, w, d, false, f.move).1.Done?
    ensures var (w', result) := UnderGuard(cfg, DetachOne(cfg, w, d, false, f.move).0, d, node, vm, socket, preflight,
                                           true, f);
      && (result == Attached ==>
            RecordedAt(cfg, w', d, vm) && (HonestAttach(d, f) ==> ListedAtPort(cfg, w', d, vm)))
      && (result == SkippedHub ==> PersistentId(d) in w'.reportedHubs)
      && result != Pending
  {
    DetachFrame(cfg, w, d, false, f.move);
    DetachDoneShape(cfg, w, d, false, f.move);
    UnderGuardAttached(cfg, DetachOne(cfg, w, d, false, f.move).0, d, node, vm, socket, preflight, true, f);
  }

  /** An attach that reports success has recorded the device in the VM it chose. */
  lemma AttachedMeans(cfg: Config, w: World, d: UsbDevice, vm: string, f: AttachFaults)
    requires vm in cfg.sockets
    ensures var (w', result) := AttachTo(cfg, w, d, vm, f);
      && (result == Attached ==>
            RecordedAt(cfg, w', d, vm) && (HonestAttach(d, f) ==> ListedAtPort(cfg, w', d, vm)))
      && (result == SkippedHub ==> PersistentId(d) in w'.reportedHubs)
      && result != Pending
  {
    var guest := GuestAt(w, cfg.sockets[vm]);
    if d.node.Some? && !(Preflighted(cfg, d) && Listing(guest, f.preflightFails).None?) {
      var node := d.node.value;
      var preflight := if Preflighted(cfg, d) then Some(guest) else None;
      if !MustMove(w, d, vm) {
        UnderGuardAttached(cfg, w, d, node, vm, cfg.sockets[vm], preflight, Get(w.usbVms, node) != Some(vm), f);
      } else if DetachOne(cfg, w, d, false, f.move).1.Done? {
        MoveAttached(cfg, w, d, node, vm, cfg.sockets[vm], preflight, f);
      }
    }
  }

  // ----- the round trip -----

  /** A held device is selected for its holder and not marked. */
  ghost predicate Chosen(w: World, d: UsbDevice) {
    d.node.Some? && d.node.value in w.usbVms ==>
      Get(w.persistent.selected, PersistentId(d)) == Some(w.usbVms[d.node.value])
          && PersistentId(d) !in w.persistent.disconnected
  }

  /** The device's own turn ends with its being skipped as a hub. */
  ghost predicate Skips(cfg: Config, w: World, x: RoutedUsb, scope: Option<string>, f: AttachFaults) {
    && PersistentId(x.device) !in w.persistent.disconnected
    && InScope(scope, ResumeTarget(w, x))
    && AttachOne(cfg, w, x.device, x.rule, ResumeTarget(w, x), f).1 == SkippedHub
  }

  ghost predicate SkipsInTurn(cfg: Config, w: World, devices: seq<RoutedUsb>, i: nat, scope: Option<string>,
                              fs: string -> AttachFaults)
    requires i < |devices|
  {
    Skips(cfg, ResumeUsb(cfg, w, devices[..i], scope, fs).0, devices[i], scope, fs(devices[i].device.sysName))
  }

  lemma LaterKeepsRecorded(cfg: Config, w: World, w': World, d: UsbDevice, vm: string)
    requires RecordedAt(cfg, w, d, vm) && Later(w, w', d)
    ensures RecordedAt(cfg, w', d, vm)
  {
  }

  /** Where the records are true, what is recorded is listed. */
  lemma RecordedIsListed(cfg: Config, w: World, d: UsbDevice, vm: string)
    requires Inv(cfg, w) && RecordedAt(cfg, w, d, vm)
    ensures ListedAtPort(cfg, w, d, vm)
  {
    assert CurrentAt(cfg, w, w.persistent.ports[d.sysName]);
    InvMeans(cfg, w);
  }

  /** A successful suspend and a successful resume that put nothing off bring
      device i back into the VM it was in: on record there at the current
      generation and, where records are true, listed at the recorded port. The
      one exception is a device found to be a hub in its own turn of this
      resume; rules with another targetVm are the documented exclusion. */
  lemma SuspendResumeRoundTrip(cfg: Config, w: World, devices: seq<RoutedUsb>, scope: Option<string>,
                               fs: string -> DetachFaults, gs: string -> AttachFaults, i: nat, vm: string)
    requires DistinctScan(devices) && i < |devices|
    requires var d := devices[i].device; Get(w.usbVms, d.node.value) == Some(vm) && Chosen(w, d)
    requires devices[i].rule.targetVm == None || devices[i].rule.targetVm == Some(vm)
    requires scope == None || scope == Some(vm)
    requires SuspendUsb(cfg, w, devices, scope, fs).1
    requires var w1 := SuspendUsb(cfg, w, devices, scope, fs).0;
      ResumeUsb(cfg, w1, devices, scope, gs).1 && !ResumeUsb(cfg, w1, devices, scope, gs).0.deferred
    ensures var d := devices[i].device;
      var w1 := SuspendUsb(cfg, w, devices, scope, fs).0;
      var w2 := ResumeUsb(cfg, w1, devices, scope, gs).0;
      || (RecordedAt(cfg, w2, d, vm) && (Inv(cfg, w2) ==> ListedAtPort(cfg, w2, d, vm)))
      || SkipsInTurn(cfg, w1, devices, i, scope, gs)
  {
    var d := devices[i].device;
    SuspendBefore(cfg, w, devices, i, scope, fs, i);
    SuspendAfter(cfg, w, devices, scope, fs, i);
    SuspendTurn(cfg, w, devices, i, scope, fs);
    var before := SuspendUsb(cfg, w, devices[..i], scope, fs).0;
    SuspendOneView(cfg, before, devices[i], scope, fs(d.sysName));
    var w1 := SuspendUsb(cfg, w, devices, scope, fs).0;
    ResumeBefore(cfg, w1, devices, i, scope, gs, i);
    ResumeAfter(cfg, w1, devices, scope, gs, i);
    ResumeTurn(cfg, w1, devices, i, scope, gs);
    ResumeOneView(cfg, ResumeUsb(cfg, w1, devices[..i], scope, gs).0, devices[i], scope, gs(d.sysName), vm);
    ResumedStaysRecorded(cfg, ResumeUsb(cfg, w1, devices[..i + 1], scope, gs).0,
                         ResumeUsb(cfg, w1, devices, scope, gs).0, d, vm);
  }

  lemma ResumedStaysRecorded(cfg: Config, w: World, w': World, d: UsbDevice, vm: string)
    requires d.node.Some? && Later(w, w', d)
    ensures RecordedAt(cfg, w, d, vm) ==> RecordedAt(cfg, w', d, vm) && (Inv(cfg, w') ==> ListedAtPort(cfg, w', d, vm))
  {
    if RecordedAt(cfg, w, d, vm) {
      LaterKeepsRecorded(cfg, w, w', d, vm);
      if Inv(cfg, w') {
        RecordedIsListed(cfg, w', d, vm);
      }
    }
  }

  /** A suspended device is held by nobody, unmarked, and still selected. */
  lemma SuspendOneView(cfg: Config, w: World, x: RoutedUsb, scope: Option<string>, f: DetachFaults)
    requires x.device.node.Some? && SuspendOne(cfg, w, x, scope, f).1
    ensures var d := x.device;
      var v, v' := ViewOf(w, d), ViewOf(SuspendOne(cfg, w, x, scope, f).0, d);
      && v'.selected == v.selected
      && (v' == v || (v'.vm == None && !v'.marked && !v'.pending && v'.binding == None))
      && (!x.rule.skipOnSuspend && v.vm.Some? && InScope(scope, v.vm) ==> v'.vm == None)
  {
    var d := x.device;
    var attached := Get(w.usbVms, d.node.value);
    if !x.rule.skipOnSuspend && attached.Some? && InScope(scope, attached) {
      DetachDoneShape(cfg, w, d, false, f);
      Marks.SetDisconnectedIsUpdate(w.persistent.disconnected, PersistentId(d), false);
    }
  }

  lemma ResumeOneView(cfg: Config, w: World, x: RoutedUsb, scope: Option<string>, f: AttachFaults, vm: string)
    requires x.device.node.Some?
    requires var v := ViewOf(w, x.device); v.selected == Some(vm) && !v.marked
    requires x.rule.targetVm == None || x.rule.targetVm == Some(vm)
    requires scope == None || scope == Some(vm)
    requires var (w', ok) := ResumeOne(cfg, w, x, scope, f); ok && !w'.deferred
    ensures RecordedAt(cfg, ResumeOne(cfg, w, x, scope, f).0, x.device, vm) || Skips(cfg, w, x, scope, f)
  {
    var target := ResumeTarget(w, x);
    assert target == Some(vm);
    var (w1, result) := AttachOne(cfg, w, x.device, x.rule, target, f);
    AttachFrame(cfg, w, x.device, x.rule, target, f);
    assert !result.Rejected?;
    AttachedMeans(cfg, w, x.device, vm, f);
  }
}
