/**
 Whole reconciliations: what they may do to whom, when they report a failure,
 and when they put work off.
 */
module Passes {
  import opened Prelude
  import opened World
  import opened UsbSpec
  import opened UsbRuns
  import opened SuspendResume
  import opened ReconcileSpec
  import opened Routing
  import Observations
  import PciCommands
  import PciReconcile
  import PciRuns
  import Scopes
  import HostPolicy
  import UsbNames
  import Gate
  import GateProbes

  // ----- what a pass does -----

  /** An action of the observation: arrivals and departures, and ports given
      back that are on record for a name no longer scanned. */
  ghost predicate OfObservation(cfg: Config, w: World, p: Pass, action: Action) {
    action.UsbConnected? || action.PciConnected? || action.PciDisconnected?
    || Observations.Told(cfg, w, Observations.Departed(w, p.order, ScanMap(p.usb)), action)
  }

  /** An action a pass has a reason for. */
  ghost predicate Justified(cfg: Config, w: World, p: Pass, action: Action) {
    || OfObservation(cfg, w, p, action)
    || PciRuns.InScopeAction(cfg, p.groups, w, p.pci, None, action)
    || Allowed(cfg, p.usb, None, action)
  }

  ghost predicate AllJustified(cfg: Config, w: World, p: Pass, log: seq<Action>, log': seq<Action>) {
    log <= log' && forall i :: |log| <= i < |log'| ==> Justified(cfg, w, p, log'[i])
  }

  lemma JustifiedTogether(cfg: Config, w: World, p: Pass, a: seq<Action>, b: seq<Action>, c: seq<Action>)
    requires AllJustified(cfg, w, p, a, b) && AllJustified(cfg, w, p, b, c)
    ensures AllJustified(cfg, w, p, a, c)
  {
    forall i | |a| <= i < |c| ensures Justified(cfg, w, p, c[i]) {
      assert i < |b| ==> c[i] == b[i];
    }
  }

  lemma ObservationIsJustified(cfg: Config, w: World, w0: World, p: Pass, pciOrder: seq<string>)
    requires GateOnly(w, w0.(deferred := w.deferred))
    ensures var w1 := ObserveAll(cfg, w0, p, pciOrder).0;
      AllJustified(cfg, w, p, w0.log, w1.log) && AttachesNothing(w0, w1)
  {
    ObserveAttachesNothing(cfg, w0, p, pciOrder);
    Observations.ObservationStages(cfg, w0, p, pciOrder);
    var s := ObserveAll(cfg, w0, p, pciOrder);
    if !p.observeFails {
      var s1 :|
        && Observations.UsbObserved(cfg, w0, s1, ScanMap(p.usb), p.arrivals, p.order)
        && s1.1 == s.1 && (s1.1.Failed? ==> s1.0 == s.0)
        && (s1.1.Done? ==> Observations.PciObserved(s1.0, s.0, p.pci, pciOrder));
      UsbNewsIsJustified(cfg, w, w0, s1, p);
      if s1.1.Done? {
        PciNewsIsJustified(cfg, w, s1.0, s.0, p, pciOrder);
        JustifiedTogether(cfg, w, p, w0.log, s1.0.log, s.0.log);
      }
    }
  }

  lemma UsbNewsIsJustified(cfg: Config, w: World, w0: World, s: (World, Outcome), p: Pass)
    requires GateOnly(w, w0.(deferred := w.deferred))
    requires Observations.UsbObserved(cfg, w0, s, ScanMap(p.usb), p.arrivals, p.order)
    ensures AllJustified(cfg, w, p, w0.log, s.0.log)
  {
    var keys := Observations.Departed(w, p.order, ScanMap(p.usb));
    assert Observations.Departed(w0, p.order, ScanMap(p.usb)) == keys;
    assert forall action :: Observations.Told(cfg, w0, keys, action) ==> Observations.Told(cfg, w, keys, action) by {
      assert forall k, n: nat :: Observations.Returned(cfg, w0, keys, k, n) ==>
                                 Observations.Returned(cfg, w, keys, k, n);
    }
  }

  lemma PciNewsIsJustified(cfg: Config, w: World, w1: World, w2: World, p: Pass, pciOrder: seq<string>)
    requires Observations.PciObserved(w1, w2, p.pci, pciOrder)
    ensures AllJustified(cfg, w, p, w1.log, w2.log)
  {
  }

  lemma ObserveAttachesNothing(cfg: Config, w: World, p: Pass, pciOrder: seq<string>)
    ensures AttachesNothing(w, ObserveAll(cfg, w, p, pciOrder).0)
  {
    if !p.observeFails {
      var news := Newcomers(w.observedUsb, p.arrivals);
      var announced := w.(log := w.log + news);
      Observations.NewcomersOnce(w.observedUsb, p.arrivals);
      assert AttachesNothing(w, announced) by {
        forall i | |w.log| <= i < |announced.log| ensures announced.log[i].UsbConnected? {
          assert announced.log[i] == news[i - |w.log|] && news[i - |w.log|] in news;
        }
      }
      ForgetAllAttachesNothing(cfg, announced, p.order, ScanMap(p.usb), p.forget);
      var w1 := ObserveUsb(cfg, w, ScanMap(p.usb), p.arrivals, p.order, p.forget).0;
      AttachesNothingTransitive(w, announced, w1);
      Observations.ObservePciSettles(w1, p.pci, pciOrder);
    }
  }

  lemma PciPassIsJustified(cfg: Config, w: World, w1: World, p: Pass)
    requires w1.persistent.disconnected == w.persistent.disconnected
    ensures var w2 := PciPass(cfg, w1, p).0; AllJustified(cfg, w, p, w1.log, w2.log) && w2.usbVms == w1.usbVms
  {
    if !p.pciScanFails {
      PciRuns.ResumePciStaysInScope(cfg, p.groups, w1, p.pci, None, p.pciFaults);
      ResumePciKeepsBindings(cfg, p.groups, w1, p.pci, None, p.pciFaults);
      var w2 := PciPass(cfg, w1, p).0;
      forall i | |w1.log| <= i < |w2.log| ensures Justified(cfg, w, p, w2.log[i]) {
        assert PciRuns.InScopeAction(cfg, p.groups, w1, p.pci, None, w2.log[i]);
        var j :| 0 <= j < |p.pci| && PciCommands.AttachAction(cfg, p.groups, p.pci[j], w2.log[i])
                 && PciRuns.Due(w1, p.pci[j], None);
        assert PciRuns.Due(w, p.pci[j], None);
      }
    }
  }

  lemma UsbPassIsJustified(cfg: Config, w: World, w1: World, p: Pass)
    ensures var w2 := UsbPass(cfg, w1, p).0;
      AllJustified(cfg, w, p, w1.log, w2.log) && HeldAsAllowed(w1, w2, p.usb, None)
  {
    if !p.usbScanFails {
      ResumeIsAllowed(cfg, w1, p.usb, None, p.attach);
      var w2 := UsbPass(cfg, w1, p).0;
      forall i | |w1.log| <= i < |w2.log| ensures Justified(cfg, w, p, w2.log[i]) {
        assert Allowed(cfg, p.usb, None, w2.log[i]);
      }
    }
  }

  /** An observation leaves the marks alone, and the flag that work was put off. */
  lemma ObservationKeepsMarks(cfg: Config, w: World, p: Pass, pciOrder: seq<string>)
    ensures var (w1, outcome) := ObserveAll(cfg, w, p, pciOrder);
      w1.deferred == w.deferred && (outcome.Done? ==> w1.persistent.disconnected == w.persistent.disconnected)
  {
    Observations.ObservationStages(cfg, w, p, pciOrder);
  }

  /** A reconciliation does nothing without a reason. It announces what came
      and went and takes back ports that are on record for what went; it
      attaches unmarked PCI functions to their rule's VM, and USB devices to
      VMs their rules allow. Who holds a device afterwards and did not before
      is such a VM. */
  lemma ReconcileIsJustified(cfg: Config, w: World, p: Pass, pciOrder: seq<string>)
    ensures var w' := Reconciled(cfg, w, p, pciOrder).0;
      AllJustified(cfg, w, p, w.log, w'.log) && HeldAsAllowed(w, w', p.usb, None)
  {
    var w0 := Gated(cfg, w.(deferred := false), p.gate);
    var (w1, outcome) := ObserveAll(cfg, w0, p, pciOrder);
    ObservationIsJustified(cfg, w, w0, p, pciOrder);
    ObservationKeepsMarks(cfg, w0, p, pciOrder);
    if outcome.Done? {
      PciPassIsJustified(cfg, w, w1, p);
      var w2 := PciPass(cfg, w1, p).0;
      UsbPassIsJustified(cfg, w, w2, p);
      var w3 := UsbPass(cfg, w2, p).0;
      SweptIsGateOnly(cfg, w3, p.sweepEnabled, p.sweep);
      JustifiedTogether(cfg, w, p, w.log, w1.log, w2.log);
      JustifiedTogether(cfg, w, p, w.log, w2.log, w3.log);
      HeldTogether(w, w1, w3, p.usb);
    }
  }

  lemma HeldTogether(w: World, w1: World, w3: World, devices: seq<RoutedUsb>)
    requires forall node :: node in w1.usbVms ==> Get(w.usbVms, node) == Some(w1.usbVms[node])
    requires HeldAsAllowed(w1, w3, devices, None)
    ensures HeldAsAllowed(w, w3, devices, None)
  {
    forall node | node in w3.usbVms && Get(w.usbVms, node) != Get(w3.usbVms, node)
      ensures NewHolder(devices, None, node, w3.usbVms[node])
    {
      assert Get(w1.usbVms, node) != Get(w3.usbVms, node);
    }
  }

  // ----- what a pass reports -----

  /** PCI functions fared well, as far as their VMs are there. */
  ghost predicate PciIsFine(cfg: Config, w: World, p: Pass) {
    && !p.pciScanFails
    && forall i :: 0 <= i < |p.pci| ==> PciRuns.TurnIsFine(cfg, p.groups, w, p.pci, None, p.pciFaults, i)
  }

  ghost predicate UsbIsFine(cfg: Config, w: World, p: Pass) {
    !p.usbScanFails && forall i :: 0 <= i < |p.usb| ==> !Scopes.TurnFails(cfg, w, p.usb, None, p.attach, i)
  }

  /** A function waits for a VM whose socket is not there. */
  ghost predicate PciWaits(cfg: Config, w: World, p: Pass) {
    && !p.pciScanFails
    && exists i :: 0 <= i < |p.pci| && PciRuns.Due(w, p.pci[i], None) && PciRuns.Gone(cfg, w, p.pci[i].rule.targetVm)
  }

  ghost predicate UsbWaits(cfg: Config, w: World, p: Pass) {
    !p.usbScanFails && exists i :: 0 <= i < |p.usb| && Scopes.TurnIsPutOff(cfg, w, p.usb, None, p.attach, i)
  }

  lemma PciPassReports(cfg: Config, w: World, p: Pass)
    requires PciReconcile.DistinctAddresses(p.pci)
    ensures var (w1, ok) := PciPass(cfg, w, p);
      && (ok <==> PciIsFine(cfg, w, p))
      && (w1.deferred <==> w.deferred || PciWaits(cfg, w, p))
  {
    assert p.pci[..|p.pci|] == p.pci;
    PciRuns.ResumePciReports(cfg, p.groups, w, p.pci, |p.pci|, None, p.pciFaults);
  }

  lemma UsbPassReports(cfg: Config, w: World, p: Pass)
    requires DistinctScan(p.usb)
    ensures var (w1, ok) := UsbPass(cfg, w, p);
      && (ok <==> UsbIsFine(cfg, w, p))
      && (w1.deferred <==> w.deferred || UsbWaits(cfg, w, p))
  {
    assert p.usb[..|p.usb|] == p.usb;
    Scopes.ResumeFailsIff(cfg, w, p.usb, |p.usb|, None, p.attach);
    Scopes.ResumeDefersIff(cfg, w, p.usb, |p.usb|, None, p.attach);
  }

  /** A reconciliation that cannot observe fails and puts nothing off. Otherwise
      it fails if and only if a scan, the attach of a device whose VM is there,
      or the sweep does, and puts work off if and only if something waits for a
      VM that is not there. One failure hides no other device. */
  lemma ReconcileReports(cfg: Config, w: World, p: Pass, pciOrder: seq<string>)
    requires DistinctScan(p.usb) && PciReconcile.DistinctAddresses(p.pci)
    ensures var (w', ok) := Reconciled(cfg, w, p, pciOrder);
      var (observed, w1, w2) := Stages(cfg, w, p, pciOrder);
      if !Observes(cfg, w, p, pciOrder) then !ok && !w'.deferred
      else
        && (ok <==> PciIsFine(cfg, observed, p) && UsbIsFine(cfg, w1, p)
                    && HostPolicy.Swept(cfg, w2, p.sweepEnabled, p.sweep).1)
        && (w'.deferred <==> PciWaits(cfg, observed, p) || UsbWaits(cfg, w1, p))
  {
    var w0 := Gated(cfg, w.(deferred := false), p.gate);
    ObservationKeepsMarks(cfg, w0, p, pciOrder);
    if Observes(cfg, w, p, pciOrder) {
      var (observed, w1, w2) := Stages(cfg, w, p, pciOrder);
      PciPassReports(cfg, observed, p);
      UsbPassReports(cfg, w1, p);
      SweptIsGateOnly(cfg, w2, p.sweepEnabled, p.sweep);
    }
  }

  // ----- the gate of a pass -----

  /** Some unmarked device scanned under the name is matched by a rule, now or
      before, as the daemon remembers it. */
  ghost predicate KeptFromHost(w: World, p: Gate.Pass, name: string) {
    exists d :: d in p.devices && d.sysName == name && PersistentId(d) !in w.persistent.disconnected
                && (p.verdict(d) || Get(w.usbRouting, PersistentId(d)) == Some(true))
  }

  ghost predicate Probes(w: World, w': World, name: string) {
    exists i :: |w.gateLog| <= i < |w'.gateLog| && w'.gateLog[i] == Probe(name)
  }

  /** The pass ends before it does anything. */
  ghost predicate EndsAtOnce(cfg: Config, p: Gate.Pass) {
    (p.active && p.closeFails) || (cfg.authorization && p.host.scanFails)
  }

  /** In the daemon, too, an interface without a driver is given back if and
      only if no rule keeps its device from the host: the marks are those of
      the persistent state, and the verdicts those remembered. */
  lemma GateGivesBackIff(cfg: Config, w: World, p: Gate.Pass, owner: string, entry: string)
    requires !EndsAtOnce(cfg, p) && p.active && !p.beforeFails && !p.scanFails && !p.listingFails
    requires owner in UsbNames.DeviceNames(p.listing) && owner !in p.listFails
    requires entry in p.listing && Gate.OwnedOnlyBy(p, entry, owner) && entry !in w.host.drivers
    ensures var w' := Gated(cfg, w, p);
      && (Probes(w, w', entry) <==> !KeptFromHost(w, p, owner))
      && Get(w'.host.drivers, entry) == if KeptFromHost(w, p, owner) then None else p.kernel(entry)
  {
    var g, input := GateOf(w), GateInput(cfg, w, p);
    GateProbes.PassProbesIff(g, input, owner, entry);
    RoutedIsKept(cfg, w, p, owner);
    ProbesAre(cfg, w, p, entry);
  }

  lemma RoutedIsKept(cfg: Config, w: World, p: Gate.Pass, owner: string)
    ensures GateProbes.IsRouted(GateOf(w).cache, GateInput(cfg, w, p), owner) <==> KeptFromHost(w, p, owner)
  {
  }

  lemma ProbesAre(cfg: Config, w: World, p: Gate.Pass, name: string)
    ensures var w', g' := Gated(cfg, w, p), Gate.ApplyGate(GateOf(w), GateInput(cfg, w, p));
      && (Probes(w, w', name) <==> Gate.IsProbed(GateOf(w).settled, g'.settled, name))
      && w'.host.drivers == g'.settled.drivers && w'.host.authorized == g'.bits
  {
  }

  /** A device without a driver is configured if and only if it is listed and
      the policy in force does not keep it out. */
  lemma GateConfiguresIff(cfg: Config, w: World, p: Gate.Pass, name: string)
    requires !EndsAtOnce(cfg, p) && p.active && !p.beforeFails && ColonFree(name) && name !in w.host.drivers
    ensures var w' := Gated(cfg, w, p);
      Probes(w, w', name) <==> name in p.before && !(cfg.authorization && Get(w'.host.authorized, name) == Some(false))
  {
    GateProbes.PassConfiguresIff(GateOf(w), GateInput(cfg, w, p), name);
    ProbesAre(cfg, w, p, name);
  }

  // ----- the gate reopened -----

  /** Reopening does nothing to a gate that is not closed or cannot be opened. */
  lemma ReopeningNeedsTheGate(cfg: Config, w: World, closed: bool, openFails: bool, scan: Option<seq<UsbDevice>>,
                              p: Gate.Pass)
    requires !p.active || !closed || openFails || p.listingFails
    ensures Reopened(cfg, w, closed, openFails, scan, p) == w
  {
  }

  /** Otherwise an interface without a driver is given back if and only if the
      scan did not yield its device at a node the manager remembers, and the
      policy in force does not keep it out. */
  lemma ReopeningGivesBackIff(cfg: Config, w: World, scan: Option<seq<UsbDevice>>, p: Gate.Pass, d: UsbDevice,
                              entry: string)
    requires p.active && !p.listingFails && d.sysName in UsbNames.DeviceNames(p.listing) && d.sysName !in p.listFails
    requires entry in p.listing && entry !in w.host.drivers
    requires Gate.OwnedIn(UsbNames.DeviceNames(p.listing), d.sysName, entry)
    requires scan.Some? ==> forall e :: e in scan.value && e.sysName == d.sysName ==> e == d
    ensures Probes(w, Reopened(cfg, w, true, false, scan, p), entry) <==>
              && !(scan.Some? && d in scan.value && d.node.Some? && d.node.value in w.usbVms)
              && !(cfg.authorization && Get(w.host.authorized, d.sysName) == Some(false))
  {
    Gate.OpenProbesIff(Gate.Settled(w.host.drivers, w.gateLog), w.host.authorized, w.usbVms, scan,
                       p.(enforced := cfg.authorization), d, entry);
  }

  /** And a device without a driver is configured likewise. */
  lemma ReopeningConfiguresIff(cfg: Config, w: World, scan: Option<seq<UsbDevice>>, p: Gate.Pass, name: string)
    requires p.active && !p.listingFails && name !in w.host.drivers && ColonFree(name)
    ensures Probes(w, Reopened(cfg, w, true, false, scan, p), name) <==>
              && name in p.listing && !RememberedAs(w, scan, name)
              && !(cfg.authorization && Get(w.host.authorized, name) == Some(false))
  {
    var held := Gate.HeldByVms(w.usbVms, scan);
    GateProbes.OpeningConfiguresIff(Gate.Settled(w.host.drivers, w.gateLog), w.host.authorized,
                                    UsbNames.DeviceNames(p.listing), held, p.(enforced := cfg.authorization), name);
    assert name in held <==> RememberedAs(w, scan, name);
  }

  /** The scan yields a device of that name at a node the manager remembers. */
  ghost predicate RememberedAs(w: World, scan: Option<seq<UsbDevice>>, name: string) {
    scan.Some? && exists d :: d in scan.value && d.sysName == name && d.node.Some? && d.node.value in w.usbVms
  }

  // ----- what a pass grants -----

  /** What a pass grants: where authorization is enforced, exactly the closed
      devices that are hubs or for the host and can be written. */
  lemma GateGrantsIff(cfg: Config, w: World, p: Gate.Pass, name: string)
    ensures var bit, bit' := Get(w.host.authorized, name), Get(Gated(cfg, w, p).host.authorized, name);
      if && cfg.authorization && !EndsAtOnce(cfg, p) && bit == Some(false) && name !in p.host.fails
         && exists d :: d in p.host.devices && d.sysName == name && (d.hub || p.host.hostAllowed(d))
      then bit' == Some(true) else bit' == bit
  {
    var g, input := GateOf(w), GateInput(cfg, w, p);
    HostPolicy.GrantsIff(w.host.authorized, p.host.devices, p.host, name);
    GateProbes.PassStops(g, input);
  }
}
