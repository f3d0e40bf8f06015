/**
 Two reconciliations in a row: the first one, if it succeeds and puts nothing
 off, settles every routed device; the second, over the same devices, does
 nothing whatever fails in it.
 */
module SecondPass {
  import opened Prelude
  import opened World
  import opened UsbSpec
  import opened Frames
  import opened Soundness
  import opened UsbRuns
  import opened SuspendResume
  import opened ReconcileSpec
  import opened Reconcile
  import opened Quiescence
  import PciRules
  import HostPolicy
  import Gate
  import opened PciReconcile

  // ----- the two resumes leave each other's results alone -----

  /** What the USB resume leaves alone. */
  ghost predicate KeepsPciSide(w: World, w': World) {
    && SameVms(w.guests, w'.guests)
    && w'.pciVms == w.pciVms && w'.host.pciDrivers == w.host.pciDrivers
    && w'.observedUsb == w.observedUsb && w'.observedPci == w.observedPci
    && (w.deferred ==> w'.deferred)
    && (forall a :: PciPersistentId(a) in w'.persistent.disconnected <==>
                    PciPersistentId(a) in w.persistent.disconnected)
  }

  lemma OneKeepsPciSide(cfg: Config, w: World, x: RoutedUsb, f: AttachFaults)
    ensures KeepsPciSide(w, ResumeOne(cfg, w, x, None, f).0)
  {
    var w', id := ResumeOne(cfg, w, x, None, f).0, PersistentId(x.device);
    ResumeOneFrame(cfg, w, x, None, f);
    forall a ensures PciPersistentId(a) in w'.persistent.disconnected <==>
        PciPersistentId(a) in w.persistent.disconnected {
      UsbAndPciIdsDiffer(x.device, a);
      assert PciPersistentId(a) in OtherMarks(w'.persistent.disconnected, id) <==>
          PciPersistentId(a) in OtherMarks(w.persistent.disconnected, id);
    }
  }

  lemma {:induction false} ResumeKeepsPciSide(cfg: Config, w: World, devices: seq<RoutedUsb>,
                                              fs: string -> AttachFaults)
    ensures KeepsPciSide(w, ResumeUsb(cfg, w, devices, None, fs).0)
  {
    if devices != [] {
      var n := |devices| - 1;
      ResumeKeepsPciSide(cfg, w, devices[..n], fs);
      OneKeepsPciSide(cfg, ResumeUsb(cfg, w, devices[..n], None, fs).0, devices[n], fs(devices[n].device.sysName));
    }
  }

  lemma KeepsPciAccounted(cfg: Config, groups: PciRules.Groups, w: World, w': World, x: PciRules.Routed)
    requires KeepsPciSide(w, w') && PciAccounted(cfg, groups, w, x)
    ensures PciAccounted(cfg, groups, w', x)
  {
  }

  // ----- what a clean pass settles -----

  /** What tells the devices of a pass apart. */
  ghost predicate WellScanned(p: Pass) {
    DistinctScan(p.usb) && MatesShareTarget(p.groups, p.pci) && DistinctAddresses(p.pci)
  }

  /** What is true between the observation and the end of a clean pass. */
  ghost predicate Observed(cfg: Config, w: World, p: Pass) {
    Inv(cfg, w) && w.observedUsb == ScanMap(p.usb) && w.observedPci == Addresses(p.pci)
  }

  ghost predicate PciSettled(cfg: Config, w: World, p: Pass) {
    forall i :: 0 <= i < |p.pci| ==> PciAccounted(cfg, p.groups, w, p.pci[i])
  }

  lemma PassesSettle(cfg: Config, w: World, p: Pass)
    requires Observed(cfg, w, p) && PassSaves(p) && (!p.usbScanFails ==> FairUsb(w, p.usb, p.attach))
    requires MatesShareTarget(p.groups, p.pci) && DistinctAddresses(p.pci)
    ensures var (w1, pciOk) := PciPass(cfg, w, p);
      var (w2, usbOk) := UsbPass(cfg, w1, p);
      Observed(cfg, w2, p) && (pciOk && !w2.deferred ==> PciSettled(cfg, w2, p))
  {
    var w1 := PciPass(cfg, w, p).0;
    PassesAreSound(cfg, w, p);
    PciPassSettles(cfg, w, p);
    ResumeKeepsPciSide(cfg, w1, p.usb, p.attach);
    var w2 := UsbPass(cfg, w1, p).0;
    if PciSettled(cfg, w1, p) {
      forall i | 0 <= i < |p.pci| ensures PciAccounted(cfg, p.groups, w2, p.pci[i]) {
        KeepsPciAccounted(cfg, p.groups, w1, w2, p.pci[i]);
      }
    }
  }

  lemma PciPassSettles(cfg: Config, w: World, p: Pass)
    requires MatesShareTarget(p.groups, p.pci) && DistinctAddresses(p.pci)
    ensures var (w1, ok) := PciPass(cfg, w, p);
      && w1.observedUsb == w.observedUsb && w1.observedPci == w.observedPci && (w.deferred ==> w1.deferred)
      && (ok && !w1.deferred ==> PciSettled(cfg, w1, p))
  {
    assert p.pci[..|p.pci|] == p.pci;
    ResumePciSettles(cfg, p.groups, w, p.pci, |p.pci|, p.pciFaults);
  }

  lemma ObserveRecords(cfg: Config, w: World, p: Pass, pciOrder: seq<string>)
    requires Inv(cfg, w) && PassSaves(p) && ObserveAll(cfg, w, p, pciOrder).1.Done?
    ensures Observed(cfg, ObserveAll(cfg, w, p, pciOrder).0, p)
  {
    ObserveIsSound(cfg, w, p, pciOrder);
  }

  lemma ReconcileObserves(cfg: Config, w: World, p: Pass, pciOrder: seq<string>)
    requires Inv(cfg, w) && FairPass(cfg, w, p, pciOrder) && WellScanned(p)
    requires var (w', ok) := Reconciled(cfg, w, p, pciOrder); ok && !w'.deferred
    ensures var w' := Reconciled(cfg, w, p, pciOrder).0;
      Observed(cfg, w', p) && PciSettled(cfg, w', p)
  {
    var gated := Gated(cfg, w.(deferred := false), p.gate);
    GatedIsGateOnly(cfg, w.(deferred := false), p.gate);
    ObserveRecords(cfg, gated, p, pciOrder);
    var (observed, w1, w2) := Stages(cfg, w, p, pciOrder);
    PassesSettle(cfg, observed, p);
    SweepKeepsSettled(cfg, p, w2);
  }

  lemma SweepKeepsSettled(cfg: Config, p: Pass, w: World)
    ensures var w' := HostPolicy.Swept(cfg, w, p.sweepEnabled, p.sweep).0;
      && w'.deferred == w.deferred
      && (Observed(cfg, w, p) ==> Observed(cfg, w', p))
      && forall x :: PciAccounted(cfg, p.groups, w', x) == PciAccounted(cfg, p.groups, w, x)
  {
    SweptIsGateOnly(cfg, w, p.sweepEnabled, p.sweep);
    HostPolicy.SweptDenies(cfg, w, p.sweepEnabled, p.sweep);
  }

  /** After a reconciliation that succeeds and puts nothing off, every routed
      PCI function not handed back for good is listed by its target VM, on
      record there, with its whole group quarantined. */
  lemma ReconcileIsCompleteForPci(cfg: Config, w: World, p: Pass, pciOrder: seq<string>, i: nat)
    requires MatesShareTarget(p.groups, p.pci) && DistinctAddresses(p.pci) && i < |p.pci|
    requires var (w', ok) := Reconciled(cfg, w, p, pciOrder); ok && !w'.deferred
    ensures var w', x := Reconciled(cfg, w, p, pciOrder).0, p.pci[i];
      || Marked(w', x)
      || (&& PciReconcile.Attached(cfg, p.groups, w', x)
          && (p.groups(x.device.address).value == [] || x.device.address in p.groups(x.device.address).value ==>
                Get(w'.pciVms, x.device.address) == Some(x.rule.targetVm)))
  {
    var (observed, w1, w2) := Stages(cfg, w, p, pciOrder);
    PciPassSettles(cfg, observed, p);
    ResumeKeepsPciSide(cfg, w1, p.usb, p.attach);
    SweepKeepsSettled(cfg, p, w2);
    assert PciAccounted(cfg, p.groups, w1, p.pci[i]);
    KeepsPciAccounted(cfg, p.groups, w1, w2, p.pci[i]);
    assert PciAccounted(cfg, p.groups, HostPolicy.Swept(cfg, w2, p.sweepEnabled, p.sweep).0, p.pci[i]);
  }

  // ----- the next pass -----

  lemma AccountedIsReady(cfg: Config, w: World, x: RoutedUsb, skipped: bool, f: AttachFaults, hubs: set<string>)
    requires Inv(cfg, w) && Accounted(cfg, w, x, skipped)
    requires skipped ==> ShowsHub(f, hubs)
    ensures Ready(cfg, w, x, f, hubs)
  {
    if vm :| Destination(w, x) == Some(vm) && RecordedAt(cfg, w, x.device, vm) {
      RecordedIsListed(cfg, w, x.device, vm);
    }
  }

  lemma {:induction false} NobodyArrives(observed: map<string, UsbDevice>, arrivals: seq<string>)
    requires forall k :: k in arrivals ==> k in observed
    ensures Newcomers(observed, arrivals) == []
  {
    if arrivals != [] {
      NobodyArrives(observed, arrivals[1..]);
    }
  }

  lemma {:induction false} NobodyLeaves(cfg: Config, w: World, order: seq<string>, fs: string -> ForgetFaults)
    ensures ForgetAllGone(cfg, w, order, w.observedUsb, fs) == (w, Done)
    decreases |order|
  {
    if order != [] {
      NobodyLeaves(cfg, w, order[1..], fs);
    }
  }

  lemma {:induction false} NoPciNews(observed: set<string>, devices: seq<PciRules.Routed>)
    requires forall i :: 0 <= i < |devices| ==> devices[i].device.address in observed
    ensures PciNews(observed, devices) == []
  {
    if devices != [] {
      NoPciNews(observed, devices[..|devices| - 1]);
    }
  }

  lemma {:induction false} NoPciGone(order: seq<string>, scanned: set<string>)
    requires forall a :: a in order ==> a in scanned
    ensures PciGone(order, scanned) == []
  {
    if order != [] {
      NoPciGone(order[..|order| - 1], scanned);
    }
  }

  /** The next pass sees the same devices; its tables are walked in any order,
      and any step of it may fail. */
  ghost predicate SameDevices(p: Pass, p2: Pass, pciOrder: seq<string>) {
    && p2.usb == p.usb && p2.pci == p.pci && p2.groups == p.groups
    && (forall k :: k in p2.arrivals ==> k in ScanMap(p.usb))
    && (forall a :: a in pciOrder ==> a in Addresses(p.pci))
  }

  lemma ObserveRests(cfg: Config, w: World, p: Pass, p2: Pass, pciOrder: seq<string>)
    requires Observed(cfg, w, p) && SameDevices(p, p2, pciOrder)
    ensures ObserveAll(cfg, w, p2, pciOrder) == (w, if p2.observeFails then Failed(ScanFailed) else Done)
  {
    NobodyArrives(w.observedUsb, p2.arrivals);
    assert w.log + [] == w.log;
    NobodyLeaves(cfg, w, p2.order, p2.forget);
    assert w.(observedUsb := ScanMap(p.usb)) == w;
    NoPciNews(w.observedPci, p2.pci);
    NoPciGone(pciOrder, Addresses(p2.pci));
    assert w.pciVms - (w.observedPci - Addresses(p2.pci)) == w.pciVms;
  }

  /** Hub interfaces are bound to the hub driver, and what the first pass
      skipped as a hub shows one of them again. */
  ghost predicate HubsStay(cfg: Config, w: World, p: Pass, pciOrder: seq<string>, p2: Pass, hubs: set<string>)
    requires p2.usb == p.usb
  {
    && HubsBound(Reconciled(cfg, w, p, pciOrder).0, hubs)
    && (forall k :: SparesHubs(p2.attach(k), hubs))
    && (forall i :: 0 <= i < |p.usb| && SkippedIn(cfg, w, p, pciOrder, i) ==>
                    ShowsHub(p2.attach(p.usb[i].device.sysName), hubs))
  }

  lemma AtRestIsQuiet(w: World, w': World)
    requires AtRest(w, w')
    ensures Quiet(w, w')
  {
  }

  /** Every routed USB device is ready for the faults of this pass. */
  ghost predicate AllReady(cfg: Config, w: World, p: Pass, hubs: set<string>) {
    forall i :: 0 <= i < |p.usb| ==> Ready(cfg, w, p.usb[i], p.attach(p.usb[i].device.sysName), hubs)
  }

  lemma SettledPassIsQuiet(cfg: Config, w: World, p: Pass, hubs: set<string>)
    requires HubsBound(w, hubs) && forall k :: SparesHubs(p.attach(k), hubs)
    requires PciSettled(cfg, w, p) && AllReady(cfg, w, p, hubs)
    ensures Quiet(w, UsbPass(cfg, PciPass(cfg, w, p).0, p).0)
  {
    var w1 := PciPass(cfg, w, p).0;
    ResumePciRests(cfg, p.groups, w, p.pci, p.pciFaults);
    AtRestIsQuiet(w, w1);
    forall i | 0 <= i < |p.usb| ensures Ready(cfg, w1, p.usb[i], p.attach(p.usb[i].device.sysName), hubs) {
      QuietKeepsReady(cfg, w, w1, p.usb[i], p.attach(p.usb[i].device.sysName), hubs);
    }
    ResumeIsQuiet(cfg, w1, p.usb, p.attach, hubs);
    QuietTransitive(w, w1, UsbPass(cfg, w1, p).0);
  }

  /** The gate leaves hub drivers where they are, and no record touched. */
  lemma GatedIsQuiet(cfg: Config, w: World, gate: Gate.Pass, hubs: set<string>)
    requires HubsBound(w, hubs)
    ensures Quiet(w, Gated(cfg, w, gate)) && HubsBound(Gated(cfg, w, gate), hubs)
  {
    GatedIsGateOnly(cfg, w, gate);
    forall n | n in hubs ensures Get(Gated(cfg, w, gate).host.drivers, n) == Some(HubDriver) {
      Gate.GateKeepsClaims(GateOf(w), GateInput(cfg, w, gate), n);
    }
  }

  lemma QuietKeepsSettled(cfg: Config, w: World, w': World, p: Pass, p2: Pass, hubs: set<string>)
    requires Quiet(w, w') && Observed(cfg, w, p) && PciSettled(cfg, w, p) && w'.disk == w.disk
    requires p2.usb == p.usb && AllReady(cfg, w, p2, hubs)
    ensures Observed(cfg, w', p) && PciSettled(cfg, w', p) && AllReady(cfg, w', p2, hubs)
  {
    forall i | 0 <= i < |p2.usb| ensures Ready(cfg, w', p2.usb[i], p2.attach(p2.usb[i].device.sysName), hubs) {
      QuietKeepsReady(cfg, w, w', p2.usb[i], p2.attach(p2.usb[i].device.sysName), hubs);
    }
    forall i | 0 <= i < |p.pci| ensures PciAccounted(cfg, p.groups, w', p.pci[i]) {
      assert PciAccounted(cfg, p.groups, w, p.pci[i]);
    }
  }

  lemma SettledReconcileIsQuiet(cfg: Config, w: World, p: Pass, p2: Pass, pciOrder: seq<string>, hubs: set<string>)
    requires Observed(cfg, w, p) && PciSettled(cfg, w, p) && SameDevices(p, p2, pciOrder)
    requires HubsBound(w, hubs) && AllReady(cfg, w, p2, hubs) && forall k :: SparesHubs(p2.attach(k), hubs)
    ensures Quiet(w, Reconciled(cfg, w, p2, pciOrder).0)
  {
    var reset := w.(deferred := false);
    var gated := Gated(cfg, reset, p2.gate);
    GatedIsQuiet(cfg, reset, p2.gate, hubs);
    QuietTransitive(w, reset, gated);
    GatedIsGateOnly(cfg, reset, p2.gate);
    QuietKeepsSettled(cfg, w, gated, p, p2, hubs);
    ObserveRests(cfg, gated, p, p2, pciOrder);
    if !p2.observeFails {
      SettledPassIsQuiet(cfg, gated, p2, hubs);
      var w2 := UsbPass(cfg, PciPass(cfg, gated, p2).0, p2).0;
      QuietTransitive(w, gated, w2);
      HostPolicy.SweptDenies(cfg, w2, p2.sweepEnabled, p2.sweep);
      QuietTransitive(w, w2, HostPolicy.Swept(cfg, w2, p2.sweepEnabled, p2.sweep).0);
    }
  }

  /** The second reconciliation issues no command to Crosvm, emits no
      notification, binds no PCI driver and changes no record. */
  lemma ReconcileIsQuiescent(cfg: Config, w: World, p: Pass, pciOrder: seq<string>, p2: Pass, pciOrder2: seq<string>,
                             hubs: set<string>)
    requires Inv(cfg, w) && FairPass(cfg, w, p, pciOrder) && WellScanned(p)
    requires var (w', ok) := Reconciled(cfg, w, p, pciOrder); ok && !w'.deferred
    requires SameDevices(p, p2, pciOrder2) && HubsStay(cfg, w, p, pciOrder, p2, hubs)
    ensures var w' := Reconciled(cfg, w, p, pciOrder).0;
      Quiet(w', Reconciled(cfg, w', p2, pciOrder2).0)
  {
    var w' := Reconciled(cfg, w, p, pciOrder).0;
    ReconcileObserves(cfg, w, p, pciOrder);
    forall i | 0 <= i < |p.usb| ensures Ready(cfg, w', p.usb[i], p2.attach(p.usb[i].device.sysName), hubs) {
      ReconcileIsComplete(cfg, w, p, pciOrder, i);
      AccountedIsReady(cfg, w', p.usb[i], SkippedIn(cfg, w, p, pciOrder, i), p2.attach(p.usb[i].device.sysName), hubs);
    }
    SettledReconcileIsQuiet(cfg, w', p, p2, pciOrder2, hubs);
  }
}
