/**
 What a daemon does anew after a restart, which forgets all but the saved
 state: it asks again, announces again and goes by its rules.
 */
module StartAnew {
  import opened Prelude
  import opened World
  import opened UsbSpec
  import opened PciSpec
  import opened ReconcileSpec
  import Gate
  import Observations
  import Passes
  import PciCommands
  import PciOutcomes
  import PciRules
  import Routing

  /** The user is asked again which VM a device is to go to. */
  lemma AsksAgain(cfg: Config, w: World, d: UsbDevice, rule: UsbRule, requested: Option<string>, f: AttachFaults)
    requires forall vm :: !Routing.Wanted(Restarted(cfg, w), d, rule, requested, vm)
    ensures var w', w1 := Restarted(cfg, w), AttachOne(cfg, Restarted(cfg, w), d, rule, requested, f).0;
      w1.log == w'.log + [UsbSelectVm(d.sysName)]
  {
    Routing.NobodyWanted(cfg, Restarted(cfg, w), d, rule, requested, f);
  }

  /** Every device is announced as new, and none as gone: records of devices
      that left while the daemon was down stay. */
  lemma AnnouncesUsbAgain(cfg: Config, w: World, scanned: map<string, UsbDevice>, arrivals: seq<string>,
                          order: seq<string>, fs: string -> ForgetFaults)
    ensures var w' := Restarted(cfg, w);
      var (w1, outcome) := ObserveUsb(cfg, w', scanned, arrivals, order, fs);
      && outcome.Done? && w'.log <= w1.log
      && (forall k :: Observations.Times(w'.log, w1.log, UsbConnected(k)) == multiset(arrivals)[k])
      && (forall i :: |w'.log| <= i < |w1.log| ==> w1.log[i].UsbConnected?)
      && w1.persistent == w'.persistent && w1.guests == w'.guests
  {
    FirstObservation(cfg, Restarted(cfg, w), scanned, arrivals, order, fs);
  }

  lemma FirstObservation(cfg: Config, w: World, scanned: map<string, UsbDevice>, arrivals: seq<string>,
                         order: seq<string>, fs: string -> ForgetFaults)
    requires w.observedUsb == map[]
    ensures var news := Newcomers(w.observedUsb, arrivals);
      && ObserveUsb(cfg, w, scanned, arrivals, order, fs) == (w.(log := w.log + news, observedUsb := scanned), Done)
      && (forall k :: Observations.Times(w.log, w.log + news, UsbConnected(k)) == multiset(arrivals)[k])
      && (forall i :: |w.log| <= i < |w.log + news| ==> (w.log + news)[i].UsbConnected?)
  {
    var news := Newcomers(w.observedUsb, arrivals);
    Observations.NewcomersOnce(w.observedUsb, arrivals);
    Observations.TimesOf(w.log, news);
    NobodyGone(cfg, w.(log := w.log + news), order, scanned, fs);
    forall i | |w.log| <= i < |w.log + news| ensures (w.log + news)[i].UsbConnected? {
      assert (w.log + news)[i] == news[i - |w.log|];
    }
  }

  lemma {:induction false} NobodyGone(cfg: Config, w: World, order: seq<string>, scanned: map<string, UsbDevice>,
                                      fs: string -> ForgetFaults)
    requires w.observedUsb == map[]
    ensures ForgetAllGone(cfg, w, order, scanned, fs) == (w, Done)
    decreases |order|
  {
    if order != [] {
      NobodyGone(cfg, w, order[1..], scanned, fs);
    }
  }

  /** Every function is announced as new too, and no holder is forgotten. */
  lemma AnnouncesPciAgain(cfg: Config, w: World, devices: seq<PciRules.Routed>, order: seq<string>)
    ensures var w' := Restarted(cfg, w);
      var news, gone := PciNews(w'.observedPci, devices), PciGone(order, Addresses(devices));
      var w1 := ObservePci(w', Addresses(devices), news, gone);
      && w'.log <= w1.log && w1.pciVms == map[]
      && forall a :: Observations.Times(w'.log, w1.log, PciConnected(a)) ==
                     multiset(Observations.AddressesOf(devices))[a]
  {
    Observations.ObservePciSettles(Restarted(cfg, w), devices, order);
  }

  /** A PCI attach that succeeds is announced even where the VM had the
      functions all along, and a PCI detach goes by the rule. */
  lemma AttachesPciAgain(cfg: Config, groups: PciRules.Groups, w: World, x: PciRules.Routed, requested: Option<string>,
                         f: PciFaults)
    requires groups(x.device.address).Ok? && PciCommands.Taken(groups, x, x.device.address)
    ensures var w', (w1, result) := Restarted(cfg, w), AttachOnePci(cfg, groups, Restarted(cfg, w), x, requested, f);
      && w'.log <= w1.log
      && (result.PciDone? ==> PciAttached(x.device.address, x.rule.targetVm) in w1.log[|w'.log|..])
    ensures forall vm :: PciCommands.TakenFrom(Restarted(cfg, w), x, vm) <==> vm == x.rule.targetVm
  {
    PciOutcomes.AttachPciSucceedsIff(cfg, groups, Restarted(cfg, w), x, requested, f);
  }

  /** The gate goes by the rules alone: no verdict is remembered. */
  lemma JudgesAgain(cfg: Config, w: World, p: Gate.Pass, name: string)
    ensures Passes.KeptFromHost(Restarted(cfg, w), p, name) <==>
              exists d :: d in p.devices && d.sysName == name && p.verdict(d)
                          && PersistentId(d) !in Restarted(cfg, w).persistent.disconnected
  {
  }
}
