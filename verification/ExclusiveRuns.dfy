/**
 Exclusive ownership over whole runs, daemon restarts included: each attach
 has to find nothing else on record with the device's numbers, and the device
 where it can be taken from.
 */
module ExclusiveRuns {
  import opened Prelude
  import opened World
  import opened UsbSpec
  import opened Frames
  import opened Soundness
  import opened UsbRuns
  import opened Exclusive
  import opened ReconcileSpec
  import HostPolicy
  import Restart

  /** The attach can be made safely, the VM lists the device honestly, and
      nothing fails once Crosvm has it. Every other failure is allowed. */
  ghost predicate SafeAttach(cfg: Config, w: World, x: RoutedUsb, requested: Option<string>, f: AttachFaults) {
    && SafeToAttach(cfg, w, x.device, x.rule, requested)
    && HonestAttach(x.device, f) && AttachSaves(f) && Settles(w, x.device, f)
  }

  ghost predicate SafeDetach(cfg: Config, w: World, d: UsbDevice, f: DetachFaults) {
    Identifiable(w, d) && MemoryRight(cfg, w, d) && DetachSaves(f)
  }

  /** A resume attempts the attach: the device is unmarked and in scope. */
  ghost predicate Attempts(w: World, x: RoutedUsb, scope: Option<string>) {
    PersistentId(x.device) !in w.persistent.disconnected && InScope(scope, ResumeTarget(w, x))
  }

  /** So it is for each device when its turn in the pass comes. */
  ghost predicate SafeResume(cfg: Config, w: World, devices: seq<RoutedUsb>, scope: Option<string>,
                             fs: string -> AttachFaults) {
    forall i :: 0 <= i < |devices| ==> SafeTurn(cfg, w, devices, scope, fs, i)
  }

  ghost predicate SafeTurn(cfg: Config, w: World, devices: seq<RoutedUsb>, scope: Option<string>,
                           fs: string -> AttachFaults, i: nat)
    requires i < |devices|
  {
    var w1, x := ResumeUsb(cfg, w, devices[..i], scope, fs).0, devices[i];
    Attempts(w1, x, scope) ==> SafeAttach(cfg, w1, x, ResumeTarget(w1, x), fs(x.device.sysName))
  }

  ghost predicate SafeSuspend(cfg: Config, w: World, devices: seq<RoutedUsb>, scope: Option<string>,
                              fs: string -> DetachFaults) {
    forall i :: 0 <= i < |devices| ==> SafeLeave(cfg, w, devices, scope, fs, i)
  }

  ghost predicate SafeLeave(cfg: Config, w: World, devices: seq<RoutedUsb>, scope: Option<string>,
                            fs: string -> DetachFaults, i: nat)
    requires i < |devices|
  {
    SafeDetach(cfg, SuspendUsb(cfg, w, devices[..i], scope, fs).0, devices[i].device, fs(devices[i].device.sysName))
  }

  ghost predicate Orderly(cfg: Config, w: World, e: Event) {
    match e
    case Attach(d, rule, requested, f) => SafeAttach(cfg, w, RoutedUsb(d, rule), requested, f)
    case Detach(d, _, f) => SafeDetach(cfg, w, d, f)
    case Suspend(devices, scope, fs) => SafeSuspend(cfg, w, devices, scope, fs)
    case Resume(devices, scope, fs) => SafeResume(cfg, w, devices, scope, fs)
    case Observe(_, _, _, fs) => forall k :: !fs(k).saveFails
    case Reconciles(p, pciOrder) =>
      && PassSaves(p)
      && (Resumes(cfg, w, p, pciOrder) ==>
            SafeResume(cfg, Stages(cfg, w, p, pciOrder).1, p.usb, None, p.attach))
    case AttachPci(_, _, _, f) => !f.saveFails
    case ResumesPci(_, _, _, fs) => forall a :: !fs(a).saveFails
    case SuspendsPci(_, _, _, fs) => forall a :: !fs(a).saveFails
    case DetachPci(_, _, _, f) => !f.saveFails
    case VmStarts(socket, generation) => FreshGeneration(w, socket, generation)
    case VmStops(_) => true
    case VmCrashes(_) => true
    case VmClaims(_, _) => true
    case DaemonRestarts => cfg.persistency || Restart.NoPorts(w.guests)
  }

  ghost predicate OrderlyRun(cfg: Config, w: World, events: seq<Event>) {
    forall i :: 0 <= i < |events| ==> Orderly(cfg, Run(cfg, w, events[..i]), events[i])
  }

  // ----- one step -----

  lemma {:induction false} SuspendIsExclusive(cfg: Config, w: World, devices: seq<RoutedUsb>, scope: Option<string>,
                                              fs: string -> DetachFaults)
    requires Owns(cfg, w) && SafeSuspend(cfg, w, devices, scope, fs)
    ensures Owns(cfg, SuspendUsb(cfg, w, devices, scope, fs).0)
  {
    if devices != [] {
      var n := |devices| - 1;
      forall i | 0 <= i < n ensures SafeLeave(cfg, w, devices[..n], scope, fs, i) {
        assert SafeLeave(cfg, w, devices, scope, fs, i);
        assert devices[..n][..i] == devices[..i];
      }
      SuspendIsExclusive(cfg, w, devices[..n], scope, fs);
      assert SafeLeave(cfg, w, devices, scope, fs, n);
      DetachIsExclusive(cfg, SuspendUsb(cfg, w, devices[..n], scope, fs).0, devices[n].device, false,
                        fs(devices[n].device.sysName));
    }
  }

  lemma {:induction false} ResumeIsExclusive(cfg: Config, w: World, devices: seq<RoutedUsb>, scope: Option<string>,
                                             fs: string -> AttachFaults)
    requires Owns(cfg, w) && SafeResume(cfg, w, devices, scope, fs)
    ensures Owns(cfg, ResumeUsb(cfg, w, devices, scope, fs).0)
  {
    if devices != [] {
      var n := |devices| - 1;
      forall i | 0 <= i < n ensures SafeTurn(cfg, w, devices[..n], scope, fs, i) {
        assert SafeTurn(cfg, w, devices, scope, fs, i);
        assert devices[..n][..i] == devices[..i];
      }
      ResumeIsExclusive(cfg, w, devices[..n], scope, fs);
      assert SafeTurn(cfg, w, devices, scope, fs, n);
      ResumeOneIsExclusive(cfg, ResumeUsb(cfg, w, devices[..n], scope, fs).0, devices[n], scope,
                           fs(devices[n].device.sysName));
    }
  }

  lemma ResumeOneIsExclusive(cfg: Config, w: World, x: RoutedUsb, scope: Option<string>, f: AttachFaults)
    requires Owns(cfg, w)
    requires Attempts(w, x, scope) ==> SafeAttach(cfg, w, x, ResumeTarget(w, x), f)
    ensures Owns(cfg, ResumeOne(cfg, w, x, scope, f).0)
  {
    if Attempts(w, x, scope) {
      var target := ResumeTarget(w, x);
      AttachIsExclusive(cfg, w, x.device, x.rule, target, f);
      var w1 := AttachOne(cfg, w, x.device, x.rule, target, f).0;
      OwnsDepends(cfg, w1, w1.(deferred := true));
    }
  }

  lemma ForgetGoneIsExclusive(cfg: Config, w: World, key: string, d: UsbDevice, f: ForgetFaults)
    requires Owns(cfg, w) && !f.saveFails
    ensures Owns(cfg, ForgetGone(cfg, w, key, d, f).0)
  {
    var (w', outcome) := ForgetGone(cfg, w, key, d, f);
    ForgetGoneIsSound(cfg, w, key, d, f);
    ForgetGoneShape(cfg, w, key, d, f);
    if outcome.Done? {
      ForgottenPort(cfg, w, key, f);
      DroppedTallies(cfg, w, key, w'.guests);
    } else {
      OwnsDepends(cfg, w, w');
    }
  }

  /** The record of a name dropped together with its port. */
  lemma DroppedTallies(cfg: Config, w: World, key: string, guests': Guests)
    requires Owns(cfg, w) && GivesBack(cfg, w, guests', Named(key))
    ensures AllRecorded(guests', Without(w.persistent.ports, key))
        && DistinctCurrent(guests', Without(w.persistent.ports, key))
  {
    DropKeepsTally(cfg, w, Named(key), guests');
  }

  /** Some device of this name; what a record gives back depends on no more. */
  ghost function Named(key: string): UsbDevice {
    UsbDevice(key, None, None, None, None, false)
  }

  lemma ForgottenPort(cfg: Config, w: World, key: string, f: ForgetFaults)
    requires Inv(cfg, w)
    ensures key !in w.persistent.ports ==> GivesBack(cfg, w, w.guests, Named(key))
    ensures key in w.persistent.ports && w.persistent.ports[key].vm in cfg.sockets ==>
              var (w1, error) := DropPort(cfg, w, w.persistent.ports[key], f);
              error.None? ==> GivesBack(cfg, w, w1.guests, Named(key))
  {
    if OwnRecord(w, Named(key)) {
      CurrentIsHeld(cfg, w, key);
    }
  }

  lemma {:induction false} ForgetAllIsExclusive(cfg: Config, w: World, order: seq<string>,
                                                scanned: map<string, UsbDevice>, fs: string -> ForgetFaults)
    requires Owns(cfg, w) && forall k :: !fs(k).saveFails
    ensures Owns(cfg, ForgetAllGone(cfg, w, order, scanned, fs).0)
    decreases |order|
  {
    if order != [] {
      var key := order[0];
      if key in scanned || key !in w.observedUsb {
        ForgetAllIsExclusive(cfg, w, order[1..], scanned, fs);
      } else {
        ForgetGoneIsExclusive(cfg, w, key, w.observedUsb[key], fs(key));
        var (w1, outcome) := ForgetGone(cfg, w, key, w.observedUsb[key], fs(key));
        if outcome.Done? {
          ForgetAllIsExclusive(cfg, w1, order[1..], scanned, fs);
        }
      }
    }
  }

  lemma ObserveIsExclusive(cfg: Config, w: World, scanned: map<string, UsbDevice>, arrivals: seq<string>,
                           order: seq<string>, fs: string -> ForgetFaults)
    requires Owns(cfg, w) && forall k :: !fs(k).saveFails
    ensures Owns(cfg, ObserveUsb(cfg, w, scanned, arrivals, order, fs).0)
  {
    var announced := w.(log := w.log + Newcomers(w.observedUsb, arrivals));
    OwnsDepends(cfg, w, announced);
    ForgetAllIsExclusive(cfg, announced, order, scanned, fs);
    var w1 := ForgetAllGone(cfg, announced, order, scanned, fs).0;
    OwnsDepends(cfg, w1, w1.(observedUsb := scanned));
  }

  lemma ReplaceGuestIsExclusive(cfg: Config, w: World, socket: string, guest: Guest)
    requires Owns(cfg, w)
    requires guest.Live? ==> guest.ports == map[] && FreshGeneration(w, socket, guest.generation)
    requires guest.Stale? ==> !GuestAt(w, socket).NoSocket? && GuestAt(w, socket).generation == guest.generation
    ensures Owns(cfg, w.(guests := w.guests[socket := guest]))
  {
    var guests', bindings := w.guests[socket := guest], w.persistent.ports;
    ReplaceGuest(cfg, w, socket, guest);
    assert forall k :: k in guests' && guests'[k].Live? && k != socket ==> w.guests[k] == guests'[k];
    forall s | s in bindings && Current(guests', bindings[s]) ensures Current(w.guests, bindings[s]) {
      var k :| k in guests' && guests'[k].Live? && guests'[k].generation == bindings[s].generation;
      assert k != socket && w.guests[k].Live?;
    }
  }

  lemma PciIsExclusive(cfg: Config, w: World, w': World)
    requires Owns(cfg, w) && Inv(cfg, w')
    requires SameUsbPorts(w.guests, w'.guests) && w'.persistent.ports == w.persistent.ports
    ensures Owns(cfg, w')
  {
    var bindings := w.persistent.ports;
    forall k, p | k in w'.guests && w'.guests[k].Live? && p in w'.guests[k].ports
      ensures Recorded(bindings, w'.guests[k].generation, p)
    {
      assert w.guests[k].Live? && p in w.guests[k].ports;
    }
    forall s | s in bindings && Current(w'.guests, bindings[s]) ensures Current(w.guests, bindings[s]) {
      var k :| k in w'.guests && w'.guests[k].Live? && w'.guests[k].generation == bindings[s].generation;
      assert w.guests[k].Live? && w.guests[k].generation == bindings[s].generation;
    }
  }

  // ----- reconciliations and restarts -----

  lemma ObserveAllIsExclusive(cfg: Config, w: World, p: Pass, pciOrder: seq<string>)
    requires Owns(cfg, w) && PassSaves(p)
    ensures Owns(cfg, ObserveAll(cfg, w, p, pciOrder).0)
  {
    if !p.observeFails {
      ObserveIsExclusive(cfg, w, ScanMap(p.usb), p.arrivals, p.order, p.forget);
      OwnsDepends(cfg, ObserveUsb(cfg, w, ScanMap(p.usb), p.arrivals, p.order, p.forget).0,
                  ObserveAll(cfg, w, p, pciOrder).0);
    }
  }

  lemma PassesAreExclusive(cfg: Config, w: World, p: Pass)
    requires Owns(cfg, w) && PassSaves(p)
    requires !p.usbScanFails ==> SafeResume(cfg, PciPass(cfg, w, p).0, p.usb, None, p.attach)
    ensures Owns(cfg, UsbPass(cfg, PciPass(cfg, w, p).0, p).0)
  {
    var w1 := PciPass(cfg, w, p).0;
    if !p.pciScanFails {
      ResumePciKeepsInv(cfg, p.groups, w, p.pci, None, p.pciFaults);
      ResumePciKeepsBindings(cfg, p.groups, w, p.pci, None, p.pciFaults);
      PciIsExclusive(cfg, w, w1);
    }
    if !p.usbScanFails {
      ResumeIsExclusive(cfg, w1, p.usb, None, p.attach);
    }
  }

  lemma ReconcileIsExclusive(cfg: Config, w: World, p: Pass, pciOrder: seq<string>)
    requires Owns(cfg, w) && Orderly(cfg, w, Reconciles(p, pciOrder))
    ensures Owns(cfg, Reconciled(cfg, w, p, pciOrder).0)
  {
    var reset := w.(deferred := false);
    var gated := Gated(cfg, reset, p.gate);
    GatedIsGateOnly(cfg, reset, p.gate);
    OwnsDepends(cfg, w, gated);
    ObserveAllIsExclusive(cfg, gated, p, pciOrder);
    var (observed, w1, w2) := Stages(cfg, w, p, pciOrder);
    if Observes(cfg, w, p, pciOrder) {
      PassesAreExclusive(cfg, observed, p);
      SweptIsGateOnly(cfg, w2, p.sweepEnabled, p.sweep);
      OwnsDepends(cfg, w2, HostPolicy.Swept(cfg, w2, p.sweepEnabled, p.sweep).0);
    }
  }

  lemma OperationIsExclusive(cfg: Config, w: World, e: Event)
    requires Owns(cfg, w) && Orderly(cfg, w, e)
    ensures Owns(cfg, Next(cfg, w, e))
  {
    match e
    case Attach(d, rule, requested, f) => AttachIsExclusive(cfg, w, d, rule, requested, f);
    case Detach(d, permanent, f) => DetachIsExclusive(cfg, w, d, permanent, f);
    case Suspend(devices, scope, fs) => SuspendIsExclusive(cfg, w, devices, scope, fs);
    case Resume(devices, scope, fs) => ResumeIsExclusive(cfg, w, devices, scope, fs);
    case Observe(scanned, arrivals, order, fs) => ObserveIsExclusive(cfg, w, scanned, arrivals, order, fs);
    case Reconciles(p, pciOrder) => ReconcileIsExclusive(cfg, w, p, pciOrder);
    case AttachPci(groups, x, requested, f) =>
      AttachPciFrame(cfg, groups, w, x, requested, f);
      SameUsbPortsKeepSound(cfg, w.guests, Next(cfg, w, e).guests, w.persistent.ports);
      PciIsExclusive(cfg, w, Next(cfg, w, e));
    case ResumesPci(groups, devices, scope, fs) =>
      ResumePciKeepsInv(cfg, groups, w, devices, scope, fs);
      ResumePciKeepsBindings(cfg, groups, w, devices, scope, fs);
      PciIsExclusive(cfg, w, Next(cfg, w, e));
    case SuspendsPci(groups, devices, scope, fs) =>
      SuspendPciKeepsInv(cfg, groups, w, devices, scope, fs);
      SuspendPciKeepsBindings(cfg, groups, w, devices, scope, fs);
      PciIsExclusive(cfg, w, Next(cfg, w, e));
    case DetachPci(groups, x, permanent, f) =>
      DetachPciFrame(cfg, groups, w, x, permanent, f);
      SameUsbPortsKeepSound(cfg, w.guests, Next(cfg, w, e).guests, w.persistent.ports);
      PciIsExclusive(cfg, w, Next(cfg, w, e));
    case VmStarts(socket, generation) => ReplaceGuestIsExclusive(cfg, w, socket, Live(generation, map[], {}));
    case VmStops(socket) => ReplaceGuestIsExclusive(cfg, w, socket, NoSocket);
    case VmCrashes(socket) =>
      if GuestAt(w, socket).Live? {
        ReplaceGuestIsExclusive(cfg, w, socket, Stale(GuestAt(w, socket).generation));
      }
    case VmClaims(_, _) => OwnsDepends(cfg, w, Next(cfg, w, e));
    case DaemonRestarts => Restart.RestartKeepsRecords(cfg, w);
  }

  // ----- the theorem -----

  lemma {:induction false} OwnershipStays(cfg: Config, w: World, events: seq<Event>)
    requires Owns(cfg, w) && OrderlyRun(cfg, w, events)
    ensures Owns(cfg, Run(cfg, w, events))
  {
    if events != [] {
      var front := events[..|events| - 1];
      forall i | 0 <= i < |front| ensures Orderly(cfg, Run(cfg, w, front[..i]), front[i]) {
        assert front[..i] == events[..i];
      }
      OwnershipStays(cfg, w, front);
      OperationIsExclusive(cfg, Run(cfg, w, front), events[|events| - 1]);
    }
  }

  /** A daemon with no records, and VMs with no ports. */
  ghost predicate EmptyStart(cfg: Config, w: World) {
    && w.persistent.ports == map[] && Restart.NoPorts(w.guests)
    && DistinctGenerations(w.guests) && (cfg.persistency ==> w.disk == w.persistent)
  }

  /** From an empty start, no orderly run ever shows a device at two places:
      not in two VMs and not at two ports of one VM. */
  lemma HeldAtMostOnce(cfg: Config, w: World, events: seq<Event>, vid: Option<string>, pid: Option<string>)
    requires EmptyStart(cfg, w) && OrderlyRun(cfg, w, events)
    ensures ExclusivelyHeld(Run(cfg, w, events).guests, vid, pid)
  {
    OwnershipStays(cfg, w, events);
    OwnsMeansExclusive(cfg, Run(cfg, w, events));
  }
}
