/**
 What one reconciliation does to the world: the gate, the observation of what
 came and went, the resume of everything the rules route, and the sweep.
 */
module ReconcileSpec {
  import opened Prelude
  import opened World
  import opened UsbSpec
  import HostPolicy
  import Gate
  import PciRules
  import PciSpec
  import UsbNames

  /** Everything one pass reads and everything that may fail in it. The bus is
      scanned again for the observation and for each resume; the lists are
      the same, but each scan may fail. */
  datatype Pass = Pass(
    gate: Gate.Pass,
    observeFails: bool,
    usb: seq<RoutedUsb>,
    arrivals: seq<string>,
    order: seq<string>,
    forget: string -> ForgetFaults,
    pciScanFails: bool,
    pci: seq<PciRules.Routed>,
    groups: PciRules.Groups,
    pciFaults: string -> PciSpec.PciFaults,
    usbScanFails: bool,
    attach: string -> AttachFaults,
    sweepEnabled: bool,
    sweep: HostPolicy.HostScan)

  // ----- the gate in the world -----

  function GateOf(w: World): Gate.GateState {
    Gate.GateState(w.usbRouting, Gate.Settled(w.host.drivers, w.gateLog), w.host.authorized)
  }

  function WithGate(w: World, g: Gate.GateState): World {
    w.(usbRouting := g.cache, gateLog := g.settled.log,
       host := w.host.(drivers := g.settled.drivers, authorized := g.bits))
  }

  /** The pass with what it takes from the configuration and the records. */
  function GateInput(cfg: Config, w: World, p: Gate.Pass): Gate.Pass {
    p.(enforced := cfg.authorization, marked := Gate.MarkedIds(w.persistent.disconnected))
  }

  function Gated(cfg: Config, w: World, p: Gate.Pass): World {
    WithGate(w, Gate.ApplyGate(GateOf(w), GateInput(cfg, w, p)))
  }

  /** The bus handed back when the manager stops, if the gate is closed and can
      be opened. */
  function Reopened(cfg: Config, w: World, closed: bool, openFails: bool, scan: Option<seq<UsbDevice>>, p: Gate.Pass)
    : World
  {
    if !p.active || !closed || openFails || p.listingFails then w
    else
      var s := Gate.OpenGate(Gate.Settled(w.host.drivers, w.gateLog), w.host.authorized,
                             UsbNames.DeviceNames(p.listing), Gate.HeldByVms(w.usbVms, scan),
                             p.(enforced := cfg.authorization));
      w.(gateLog := s.log, host := w.host.(drivers := s.drivers))
  }

  // ----- the rest of the pass -----

  function ScanMap(devices: seq<RoutedUsb>): map<string, UsbDevice> {
    if devices == [] then map[]
    else
      var d := devices[|devices| - 1].device;
      ScanMap(devices[..|devices| - 1])[d.sysName := d]
  }

  function Addresses(devices: seq<PciRules.Routed>): set<string> {
    set x | x in devices :: x.device.address
  }

  function PciNews(observed: set<string>, devices: seq<PciRules.Routed>): seq<Action> {
    if devices == [] then []
    else
      var address := devices[|devices| - 1].device.address;
      PciNews(observed, devices[..|devices| - 1]) + if address in observed then [] else [PciConnected(address)]
  }

  /** The departures are announced in the order the table is walked. */
  function PciGone(order: seq<string>, scanned: set<string>): seq<Action> {
    if order == [] then []
    else PciGone(order[..|order| - 1], scanned)
         + if order[|order| - 1] in scanned then [] else [PciDisconnected(order[|order| - 1])]
  }

  function ObserveAll(cfg: Config, w: World, p: Pass, pciOrder: seq<string>): (World, Outcome) {
    if p.observeFails then (w, Failed(ScanFailed))
    else
      var (w1, outcome) := ObserveUsb(cfg, w, ScanMap(p.usb), p.arrivals, p.order, p.forget);
      if outcome.Failed? then (w1, outcome)
      else (PciSpec.ObservePci(w1, Addresses(p.pci), PciNews(w1.observedPci, p.pci),
                               PciGone(pciOrder, Addresses(p.pci))), Done)
  }

  function PciPass(cfg: Config, w: World, p: Pass): (World, bool) {
    if p.pciScanFails then (w, false) else PciSpec.ResumePci(cfg, p.groups, w, p.pci, None, p.pciFaults)
  }

  ghost function UsbPass(cfg: Config, w: World, p: Pass): (World, bool) {
    if p.usbScanFails then (w, false) else ResumeUsb(cfg, w, p.usb, None, p.attach)
  }

  ghost function Reconciled(cfg: Config, w: World, p: Pass, pciOrder: seq<string>): (World, bool) {
    var (observed, outcome) := ObserveAll(cfg, Gated(cfg, w.(deferred := false), p.gate), p, pciOrder);
    if outcome.Failed? then (observed, false)
    else
      var (w1, pciOk) := PciPass(cfg, observed, p);
      var (w2, usbOk) := UsbPass(cfg, w1, p);
      var (w3, swept) := HostPolicy.Swept(cfg, w2, p.sweepEnabled, p.sweep);
      (w3, pciOk && usbOk && swept)
  }

  /** The observation of the pass succeeds. */
  ghost predicate Observes(cfg: Config, w: World, p: Pass, pciOrder: seq<string>) {
    ObserveAll(cfg, Gated(cfg, w.(deferred := false), p.gate), p, pciOrder).1.Done?
  }

  /** The pass gets to the USB resume. */
  ghost predicate Resumes(cfg: Config, w: World, p: Pass, pciOrder: seq<string>) {
    Observes(cfg, w, p, pciOrder) && !p.usbScanFails
  }

  /** The worlds a pass goes through once its observation has succeeded: after
      the observation, after PCI, and after USB. */
  ghost function Stages(cfg: Config, w: World, p: Pass, pciOrder: seq<string>): (World, World, World) {
    var observed := ObserveAll(cfg, Gated(cfg, w.(deferred := false), p.gate), p, pciOrder).0;
    var w1 := PciPass(cfg, observed, p).0;
    (observed, w1, UsbPass(cfg, w1, p).0)
  }
}
