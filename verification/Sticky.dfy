/**
 A permanent detach sticks: until the device is selected again, no operation
 attaches it, records it or lifts its mark, and no daemon restart forgets it.
 */
module Sticky {
  import opened Prelude
  import opened World
  import opened UsbSpec
  import opened Frames
  import opened UsbRuns
  import Marks
  import opened ReconcileSpec
  import PciRules
  import PciSpec

  /** Marked, and recorded nowhere; on disk as well when state is kept there. */
  ghost predicate Down(cfg: Config, w: World, d: UsbDevice) {
    && DownIn(w.persistent, d)
    && (d.node.Some? ==> d.node.value !in w.usbVms)
    && (cfg.persistency ==> DownIn(w.disk, d))
  }

  ghost predicate DownIn(p: Persistent, d: UsbDevice) {
    PersistentId(d) in p.disconnected && d.sysName !in p.ports
  }

  /** Another device by every name the manager uses. */
  ghost predicate Differs(d: UsbDevice, e: UsbDevice) {
    PersistentId(d) != PersistentId(e) && d.sysName != e.sysName && d.node != e.node
  }

  /** A device by the names and nodes it may be plugged in under: the same
      persistent id throughout. */
  ghost predicate IsFamily(family: set<UsbDevice>) {
    && (forall x :: x in family ==> x.node.Some?)
    && (forall x, y :: x in family && y in family ==> PersistentId(x) == PersistentId(y))
  }

  ghost predicate AllDown(cfg: Config, w: World, family: set<UsbDevice>) {
    forall x :: x in family ==> Down(cfg, w, x)
  }

  ghost predicate Unrelated(family: set<UsbDevice>, e: UsbDevice) {
    forall d :: d in family ==> Differs(d, e)
  }

  ghost predicate SameId(family: set<UsbDevice>, e: UsbDevice) {
    forall d :: d in family ==> PersistentId(d) == PersistentId(e)
  }

  /** The step does not select the device for an attach or a temporary detach.
      Resumes may come across it under any name at all. */
  ghost predicate Leaves(cfg: Config, family: set<UsbDevice>, e: Event) {
    match e
    case Attach(x, _, _, _) => Unrelated(family, x)
    case Detach(x, permanent, _) => Unrelated(family, x) || (x in family && permanent)
    case Suspend(devices, _, _) =>
      forall i :: 0 <= i < |devices| ==> devices[i].device in family || Unrelated(family, devices[i].device)
    case Resume(devices, _, _) => PassesBy(family, devices)
    case Reconciles(p, _) => PassesBy(family, p.usb)
    case DaemonRestarts => cfg.persistency
    case _ => true
  }

  ghost predicate PassesBy(family: set<UsbDevice>, devices: seq<RoutedUsb>) {
    forall i :: 0 <= i < |devices| ==> SameId(family, devices[i].device) || Unrelated(family, devices[i].device)
  }

  lemma SameElsewhereKeepsDown(p: Persistent, p': Persistent, d: UsbDevice, id: string, sysName: string)
    requires DownIn(p, d) && SamePersistentElsewhere(p, p', id, sysName)
    requires PersistentId(d) != id && d.sysName != sysName
    ensures DownIn(p', d)
  {
    ElsewhereAt(p.ports, p'.ports, sysName, d.sysName);
    assert PersistentId(d) in OtherMarks(p.disconnected, id);
  }

  /** An operation on another device. */
  lemma OtherKeepsDown(cfg: Config, w: World, w': World, d: UsbDevice, e: UsbDevice)
    requires Down(cfg, w, d) && TouchesOnly(w, w', e) && Differs(d, e)
    ensures Down(cfg, w', d)
  {
    SameElsewhereKeepsDown(w.persistent, w'.persistent, d, PersistentId(e), e.sysName);
    if w'.disk != w.disk {
      SameElsewhereKeepsDown(w.persistent, w'.disk, d, PersistentId(e), e.sysName);
    }
    if d.node.Some? && e.node.Some? {
      ElsewhereAt(w.usbVms, w'.usbVms, e.node.value, d.node.value);
    }
  }

  /** Detaching for good again changes nothing that matters. */
  lemma DetachAgain(cfg: Config, w: World, x: UsbDevice, f: DetachFaults, d: UsbDevice)
    requires Down(cfg, w, x) && Down(cfg, w, d) && PersistentId(x) == PersistentId(d)
    ensures Down(cfg, DetachOne(cfg, w, x, true, f).0, d)
  {
    if x.node.Some? {
      assert Holder(w, x, x.node.value).None?;
      Marks.SetDisconnectedIsUpdate(w.persistent.disconnected, PersistentId(x), true);
    }
  }

  /** The moment it goes down. */
  lemma PermanentDetach(cfg: Config, w: World, d: UsbDevice, f: DetachFaults)
    requires DetachOne(cfg, w, d, true, f).1.Done?
    ensures Down(cfg, DetachOne(cfg, w, d, true, f).0, d)
  {
    DetachDoneShape(cfg, w, d, true, f);
    Marks.SetDisconnectedIsUpdate(w.persistent.disconnected, PersistentId(d), true);
    if cfg.persistency {
      DetachDoneIsSaved(cfg, w, d, true, f);
    }
  }

  /** A detach that reports success has saved what it recorded. */
  lemma DetachDoneIsSaved(cfg: Config, w: World, d: UsbDevice, permanent: bool, f: DetachFaults)
    requires DetachOne(cfg, w, d, permanent, f).1.Done? && cfg.persistency
    ensures var w' := DetachOne(cfg, w, d, permanent, f).0; w'.disk == w'.persistent
  {
  }

  lemma DetachOtherKeepsDown(cfg: Config, w: World, e: UsbDevice, permanent: bool, f: DetachFaults,
                             family: set<UsbDevice>)
    requires AllDown(cfg, w, family) && Unrelated(family, e)
    ensures AllDown(cfg, DetachOne(cfg, w, e, permanent, f).0, family)
  {
    DetachFrame(cfg, w, e, permanent, f);
    forall d | d in family ensures Down(cfg, DetachOne(cfg, w, e, permanent, f).0, d) {
      OtherKeepsDown(cfg, w, DetachOne(cfg, w, e, permanent, f).0, d, e);
    }
  }

  lemma {:induction false} SuspendKeepsDown(cfg: Config, w: World, devices: seq<RoutedUsb>, scope: Option<string>,
                                            fs: string -> DetachFaults, family: set<UsbDevice>)
    requires AllDown(cfg, w, family) && IsFamily(family)
    requires forall i :: 0 <= i < |devices| ==> devices[i].device in family || Unrelated(family, devices[i].device)
    ensures AllDown(cfg, SuspendUsb(cfg, w, devices, scope, fs).0, family)
  {
    if devices != [] {
      var n := |devices| - 1;
      SuspendKeepsDown(cfg, w, devices[..n], scope, fs, family);
      var w1, e := SuspendUsb(cfg, w, devices[..n], scope, fs).0, devices[n].device;
      if e in family {
        assert Down(cfg, w1, e);
      } else {
        DetachOtherKeepsDown(cfg, w1, e, false, fs(e.sysName), family);
      }
    }
  }

  lemma {:induction false} ResumeKeepsDown(cfg: Config, w: World, devices: seq<RoutedUsb>, scope: Option<string>,
                                           fs: string -> AttachFaults, d: UsbDevice)
    requires Down(cfg, w, d) && PassesBy({d}, devices)
    ensures Down(cfg, ResumeUsb(cfg, w, devices, scope, fs).0, d)
  {
    if devices != [] {
      var n := |devices| - 1;
      ResumeKeepsDown(cfg, w, devices[..n], scope, fs, d);
      assert SameId({d}, devices[n].device) || Unrelated({d}, devices[n].device);
      ResumeOneKeepsDown(cfg, ResumeUsb(cfg, w, devices[..n], scope, fs).0, devices[n], scope,
                         fs(devices[n].device.sysName), d);
    }
  }

  /** A marked device is passed over, under whatever name it is scanned. */
  lemma ResumeOneKeepsDown(cfg: Config, w: World, x: RoutedUsb, scope: Option<string>, f: AttachFaults, d: UsbDevice)
    requires Down(cfg, w, d) && (SameId({d}, x.device) || Unrelated({d}, x.device))
    ensures Down(cfg, ResumeOne(cfg, w, x, scope, f).0, d)
  {
    assert d in {d};
    if PersistentId(x.device) != PersistentId(d) {
      AttachFrame(cfg, w, x.device, x.rule, ResumeTarget(w, x), f);
      OtherKeepsDown(cfg, w, AttachOne(cfg, w, x.device, x.rule, ResumeTarget(w, x), f).0, d, x.device);
    }
  }

  lemma ForgetGoneKeepsDown(cfg: Config, w: World, key: string, e: UsbDevice, f: ForgetFaults, d: UsbDevice)
    requires Down(cfg, w, d)
    ensures Down(cfg, ForgetGone(cfg, w, key, e, f).0, d)
  {
    if key in w.persistent.ports && w.persistent.ports[key].vm in cfg.sockets {
      DropPortFrame(cfg, w, w.persistent.ports[key], f);
      FinishForgetShape(cfg, DropPort(cfg, w, w.persistent.ports[key], f).0, key, e, f);
    } else {
      FinishForgetShape(cfg, w, key, e, f);
    }
  }

  lemma {:induction false} ForgetAllKeepsDown(cfg: Config, w: World, order: seq<string>,
                                              scanned: map<string, UsbDevice>, fs: string -> ForgetFaults, d: UsbDevice)
    requires Down(cfg, w, d)
    ensures Down(cfg, ForgetAllGone(cfg, w, order, scanned, fs).0, d)
    decreases |order|
  {
    if order != [] {
      var key := order[0];
      if key in scanned || key !in w.observedUsb {
        ForgetAllKeepsDown(cfg, w, order[1..], scanned, fs, d);
      } else {
        ForgetGoneKeepsDown(cfg, w, key, w.observedUsb[key], fs(key), d);
        var (w1, outcome) := ForgetGone(cfg, w, key, w.observedUsb[key], fs(key));
        if outcome.Done? {
          ForgetAllKeepsDown(cfg, w1, order[1..], scanned, fs, d);
        }
      }
    }
  }

  lemma PciKeepsDown(cfg: Config, w: World, w': World, d: UsbDevice, address: string)
    requires Down(cfg, w, d) && PciOnly(cfg, w, w', address)
    ensures Down(cfg, w', d)
  {
    UsbAndPciIdsDiffer(d, address);
    assert PersistentId(d) in OtherMarks(w.persistent.disconnected, PciPersistentId(address));
  }

  lemma {:induction false} ResumePciKeepsDown(cfg: Config, groups: PciRules.Groups, w: World,
                                              devices: seq<PciRules.Routed>, scope: Option<string>,
                                              fs: string -> PciSpec.PciFaults, d: UsbDevice)
    requires Down(cfg, w, d)
    ensures Down(cfg, PciSpec.ResumePci(cfg, groups, w, devices, scope, fs).0, d)
  {
    if devices != [] {
      var n := |devices| - 1;
      ResumePciKeepsDown(cfg, groups, w, devices[..n], scope, fs, d);
      var w1, x := PciSpec.ResumePci(cfg, groups, w, devices[..n], scope, fs).0, devices[n];
      AttachPciFrame(cfg, groups, w1, x, Some(x.rule.targetVm), fs(x.device.address));
      PciKeepsDown(cfg, w1, PciSpec.AttachOnePci(cfg, groups, w1, x, Some(x.rule.targetVm), fs(x.device.address)).0,
                   d, x.device.address);
    }
  }

  lemma {:induction false} SuspendPciKeepsDown(cfg: Config, groups: PciRules.Groups, w: World,
                                               devices: seq<PciRules.Routed>, scope: Option<string>,
                                               fs: string -> PciSpec.PciFaults, d: UsbDevice)
    requires Down(cfg, w, d)
    ensures Down(cfg, PciSpec.SuspendPci(cfg, groups, w, devices, scope, fs).0, d)
  {
    if devices != [] {
      var n := |devices| - 1;
      SuspendPciKeepsDown(cfg, groups, w, devices[..n], scope, fs, d);
      var w1, x := PciSpec.SuspendPci(cfg, groups, w, devices[..n], scope, fs).0, devices[n];
      DetachPciFrame(cfg, groups, w1, x, false, fs(x.device.address));
      PciKeepsDown(cfg, w1, PciSpec.DetachOnePci(cfg, groups, w1, x, false, fs(x.device.address)).0,
                   d, x.device.address);
    }
  }

  lemma ObserveKeepsDown(cfg: Config, w: World, p: Pass, pciOrder: seq<string>, d: UsbDevice)
    requires Down(cfg, w, d)
    ensures Down(cfg, ObserveAll(cfg, w, p, pciOrder).0, d)
  {
    ForgetAllKeepsDown(cfg, w.(log := w.log + Newcomers(w.observedUsb, p.arrivals)), p.order, ScanMap(p.usb),
                       p.forget, d);
  }

  /** No reconciliation brings the device back. */
  lemma ReconcileKeepsDown(cfg: Config, w: World, p: Pass, pciOrder: seq<string>, d: UsbDevice)
    requires Down(cfg, w, d) && PassesBy({d}, p.usb)
    ensures Down(cfg, Reconciled(cfg, w, p, pciOrder).0, d)
  {
    var reset := w.(deferred := false);
    GatedIsGateOnly(cfg, reset, p.gate);
    ObserveKeepsDown(cfg, Gated(cfg, reset, p.gate), p, pciOrder, d);
    var (observed, w1, w2) := Stages(cfg, w, p, pciOrder);
    PassesKeepDown(cfg, observed, p, d);
    SweptIsGateOnly(cfg, w2, p.sweepEnabled, p.sweep);
  }

  lemma PassesKeepDown(cfg: Config, w: World, p: Pass, d: UsbDevice)
    requires Down(cfg, w, d) && PassesBy({d}, p.usb)
    ensures Down(cfg, UsbPass(cfg, PciPass(cfg, w, p).0, p).0, d)
  {
    ResumePciKeepsDown(cfg, p.groups, w, p.pci, None, p.pciFaults, d);
    ResumeKeepsDown(cfg, PciPass(cfg, w, p).0, p.usb, None, p.attach, d);
  }

  lemma OperationKeepsDown(cfg: Config, w: World, e: Event, d: UsbDevice)
    requires Down(cfg, w, d) && Leaves(cfg, {d}, e) && !e.Detach? && !e.Suspend?
    ensures Down(cfg, Next(cfg, w, e), d)
  {
    assert d in {d};
    match e
    case Attach(x, rule, requested, f) =>
      AttachFrame(cfg, w, x, rule, requested, f);
      OtherKeepsDown(cfg, w, Next(cfg, w, e), d, x);
    case Resume(devices, scope, fs) => ResumeKeepsDown(cfg, w, devices, scope, fs, d);
    case Observe(scanned, arrivals, order, fs) =>
      ForgetAllKeepsDown(cfg, w.(log := w.log + Newcomers(w.observedUsb, arrivals)), order, scanned, fs, d);
    case Reconciles(p, pciOrder) => ReconcileKeepsDown(cfg, w, p, pciOrder, d);
    case AttachPci(groups, x, requested, f) =>
      AttachPciFrame(cfg, groups, w, x, requested, f);
      PciKeepsDown(cfg, w, Next(cfg, w, e), d, x.device.address);
    case ResumesPci(groups, devices, scope, fs) => ResumePciKeepsDown(cfg, groups, w, devices, scope, fs, d);
    case SuspendsPci(groups, devices, scope, fs) => SuspendPciKeepsDown(cfg, groups, w, devices, scope, fs, d);
    case DetachPci(groups, x, permanent, f) =>
      DetachPciFrame(cfg, groups, w, x, permanent, f);
      PciKeepsDown(cfg, w, Next(cfg, w, e), d, x.device.address);
    case VmStarts(_, _) =>
    case VmStops(_) =>
    case VmCrashes(_) =>
    case VmClaims(_, _) =>
    case DaemonRestarts =>
  }

  lemma LeavesEach(cfg: Config, family: set<UsbDevice>, e: Event, d: UsbDevice)
    requires Leaves(cfg, family, e) && d in family && !e.Detach? && !e.Suspend?
    ensures Leaves(cfg, {d}, e)
  {
  }

  lemma NextKeepsDown(cfg: Config, w: World, e: Event, family: set<UsbDevice>)
    requires AllDown(cfg, w, family) && IsFamily(family) && Leaves(cfg, family, e)
    ensures AllDown(cfg, Next(cfg, w, e), family)
  {
    match e
    case Detach(x, permanent, f) =>
      if Unrelated(family, x) {
        DetachOtherKeepsDown(cfg, w, x, permanent, f, family);
      } else {
        forall d | d in family ensures Down(cfg, Next(cfg, w, e), d) {
          DetachAgain(cfg, w, x, f, d);
        }
      }
    case Suspend(devices, scope, fs) => SuspendKeepsDown(cfg, w, devices, scope, fs, family);
    case _ =>
      forall d | d in family ensures Down(cfg, Next(cfg, w, e), d) {
        LeavesEach(cfg, family, e, d);
        OperationKeepsDown(cfg, w, e, d);
      }
  }

  lemma {:induction false} RunKeepsDown(cfg: Config, w: World, events: seq<Event>, family: set<UsbDevice>)
    requires AllDown(cfg, w, family) && IsFamily(family)
    requires forall i :: 0 <= i < |events| ==> Leaves(cfg, family, events[i])
    ensures AllDown(cfg, Run(cfg, w, events), family)
  {
    if events != [] {
      var n := |events| - 1;
      RunKeepsDown(cfg, w, events[..n], family);
      NextKeepsDown(cfg, Run(cfg, w, events[..n]), events[n], family);
    }
  }

  /** After a successful permanent detach, whatever follows short of selecting
      the device again, failed saves and restarts included, and under whatever
      name of the family it is plugged in: it is marked, and neither the
      records nor the memory of holders names it. */
  lemma PermanentDetachSticks(cfg: Config, w: World, d: UsbDevice, f: DetachFaults, family: set<UsbDevice>,
                              events: seq<Event>)
    requires DetachOne(cfg, w, d, true, f).1.Done?
    requires d in family && IsFamily(family)
    requires forall x :: x in family && x != d ==> x.sysName !in w.persistent.ports && x.node.value !in w.usbVms
    requires forall i :: 0 <= i < |events| ==> Leaves(cfg, family, events[i])
    ensures var w' := Run(cfg, DetachOne(cfg, w, d, true, f).0, events);
      forall x :: x in family ==>
        && PersistentId(x) in w'.persistent.disconnected
        && x.sysName !in w'.persistent.ports
        && x.node.value !in w'.usbVms
  {
    FamilyGoesDown(cfg, w, d, f, family);
    RunKeepsDown(cfg, DetachOne(cfg, w, d, true, f).0, events, family);
  }

  lemma FamilyGoesDown(cfg: Config, w: World, d: UsbDevice, f: DetachFaults, family: set<UsbDevice>)
    requires DetachOne(cfg, w, d, true, f).1.Done? && d in family && IsFamily(family)
    requires forall x :: x in family && x != d ==> x.sysName !in w.persistent.ports && x.node.value !in w.usbVms
    ensures AllDown(cfg, DetachOne(cfg, w, d, true, f).0, family)
  {
    PermanentDetach(cfg, w, d, f);
    DetachDoneShape(cfg, w, d, true, f);
    if cfg.persistency {
      DetachDoneIsSaved(cfg, w, d, true, f);
    }
  }

  /** Why temporary detaches of the device are left out above: one that
      succeeds lifts the mark, also a mark a permanent detach has set. */
  lemma TemporaryDetachLifts(cfg: Config, w: World, d: UsbDevice, f: DetachFaults)
    requires DetachOne(cfg, w, d, false, f).1.Done?
    ensures PersistentId(d) !in DetachOne(cfg, w, d, false, f).0.persistent.disconnected
  {
    DetachDoneShape(cfg, w, d, false, f);
    Marks.SetDisconnectedIsUpdate(w.persistent.disconnected, PersistentId(d), false);
  }
}
